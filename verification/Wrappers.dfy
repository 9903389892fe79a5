module Wrappers {
  datatype Option<+T> = None | Some(value: T)

  /** The position of the first element that satisfies `p`, or |s| when there is none. */
  function FirstMatch<T>(s: seq<T>, p: T -> bool): (r: nat)
    ensures r <= |s|
    ensures r < |s| ==> p(s[r])
    ensures forall j :: 0 <= j < r ==> !p(s[j])
  {
    if s == [] then 0 else if p(s[0]) then 0 else 1 + FirstMatch(s[1..], p)
  }

  /** The elements that satisfy `p`, in their order. */
  function Filtered<T>(s: seq<T>, p: T -> bool): (t: seq<T>)
    ensures forall i :: 0 <= i < |t| ==> t[i] in s && p(t[i])
    ensures forall i :: 0 <= i < |s| && p(s[i]) ==> s[i] in t
  {
    if s == [] then [] else (if p(s[0]) then [s[0]] else []) + Filtered(s[1..], p)
  }

  /** Where the elements that satisfy `p` are, counting from `start`. */
  function Positions<T>(s: seq<T>, p: T -> bool, start: nat): (at: seq<nat>)
    ensures forall i :: i in at ==> start <= i < start + |s|
    ensures |at| == |Filtered(s, p)|
  {
    if s == [] then [] else (if p(s[0]) then [start] else []) + Positions(s[1..], p, start + 1)
  }

  ghost predicate Increasing(at: seq<nat>) {
    forall j, k :: 0 <= j < k < |at| ==> at[j] < at[k]
  }

  lemma SmallerFirst(start: nat, at: seq<nat>)
    requires Increasing(at) && forall i :: i in at ==> start < i
    ensures Increasing([start] + at)
  {
    var t := [start] + at;
    forall j, k | 0 <= j < k < |t|
      ensures t[j] < t[k]
    {
      assert t[k] == at[k - 1] && at[k - 1] in at;
      if j > 0 {
        assert t[j] == at[j - 1];
      }
    }
  }

  lemma {:induction false} PositionsAscend<T>(s: seq<T>, p: T -> bool, start: nat)
    ensures Increasing(Positions(s, p, start))
    decreases |s|
  {
    hide Increasing;
    if s == [] {
      NoneIncreasing();
    } else {
      PositionsAscend(s[1..], p, start + 1);
      SmallerFirst(start, Positions(s[1..], p, start + 1));
      assert [] + Positions(s[1..], p, start + 1) == Positions(s[1..], p, start + 1);
    }
  }

  lemma NoneIncreasing()
    ensures Increasing([])
  {
  }

  lemma {:induction false} PositionsAreThose<T>(s: seq<T>, p: T -> bool, start: nat, i: nat)
    requires i < |s|
    ensures p(s[i]) <==> start + i in Positions(s, p, start)
    decreases |s|
  {
    var first, rest := if p(s[0]) then [start] else [], Positions(s[1..], p, start + 1);
    assert forall x :: x in first + rest <==> x in first || x in rest;
    if i > 0 {
      assert s[i] == s[1..][i - 1] && start + 1 + (i - 1) == start + i;
      PositionsAreThose(s[1..], p, start + 1, i - 1);
    }
  }

  lemma {:induction false} PositionKept<T>(s: seq<T>, p: T -> bool, start: nat, j: nat)
    requires j < |Filtered(s, p)|
    ensures var i := Positions(s, p, start)[j]; start <= i < start + |s| && Filtered(s, p)[j] == s[i - start]
    decreases |s|
  {
    assert Positions(s, p, start)[j] in Positions(s, p, start);
    if !p(s[0]) {
      PositionKept(s[1..], p, start + 1, j);
    } else if j > 0 {
      PositionKept(s[1..], p, start + 1, j - 1);
    }
  }

  /** `at` lists, in order, exactly the positions in `s` of what is kept in `t`: nothing is lost,
      duplicated or reordered. */
  ghost predicate KeptAt<T>(s: seq<T>, p: T -> bool, t: seq<T>, at: seq<nat>) {
    && |at| == |t| && Increasing(at)
    && (forall j :: 0 <= j < |at| ==> at[j] < |s| && t[j] == s[at[j]])
    && (forall i: nat :: i < |s| ==> (p(s[i]) <==> i in at))
  }

  lemma FilteredKeepsPositions<T>(s: seq<T>, p: T -> bool) returns (at: seq<nat>)
    ensures KeptAt(s, p, Filtered(s, p), at)
  {
    at := Positions(s, p, 0);
    PositionsAscend(s, p, 0);
    forall j | 0 <= j < |at|
      ensures at[j] < |s| && Filtered(s, p)[j] == s[at[j]]
    {
      PositionKept(s, p, 0, j);
    }
    forall i: nat | i < |s|
      ensures p(s[i]) <==> i in at
    {
      PositionsAreThose(s, p, 0, i);
    }
  }
}

/** The width of the source's unsigned integers. */
module MachineIntegers {
  const UINT_SIZE: nat := 0x1_0000_0000
}
