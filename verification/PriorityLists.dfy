/**
 Lists of scheduled participants: what sorting by speed guarantees, looking a participant up
 by id, and the reversal the scheduler applies to participants of equal speed.
 */
module PriorityLists {
  import opened Wrappers

  datatype PriorityElem = PriorityElem(id: nat, speed: int, isContender: bool)

  type Elems = seq<PriorityElem>

  /** The sorting routine of the standard library, which leaves the order of equal speeds
      open.  Every result below is for all of them. */
  type Sorter = Elems -> Elems

  ghost predicate Ascending(s: Elems) {
    forall i, j :: 0 <= i < j < |s| ==> s[i].speed <= s[j].speed
  }

  ghost predicate IsSorting(s: Elems, t: Elems) {
    multiset(s) == multiset(t) && Ascending(t)
  }

  ghost predicate SortsBySpeed(srt: Sorter) {
    forall s: Elems :: IsSorting(s, srt(s))
  }

  ghost predicate DistinctIds(s: Elems) {
    forall i, j :: 0 <= i < j < |s| ==> s[i].id != s[j].id
  }

  ghost predicate SpeedsAtLeast(s: Elems, m: int) {
    forall e :: e in s ==> m <= e.speed
  }

  ghost function Ids(s: Elems): set<nat> {
    set e | e in s :: e.id
  }

  /** Who is on the list: the ids, each with its kind. */
  ghost function Identities(s: Elems): set<(nat, bool)> {
    set e | e in s :: (e.id, e.isContender)
  }

  /** The entry is about somebody on the list, of the same kind. */
  ghost predicate Known(s: Elems, e: PriorityElem) {
    (e.id, e.isContender) in Identities(s)
  }

  lemma KnownBySomeEntry(s: Elems, e: PriorityElem)
    requires Known(s, e)
    ensures e.id in Ids(s) && s != []
    ensures exists f :: f in s && f.id == e.id && f.isContender == e.isContender
  {
    var f :| f in s && (f.id, f.isContender) == (e.id, e.isContender);
  }

  /** The position of the first element with the given id, or |s| when there is none. */
  function Find(s: Elems, id: nat): (r: nat)
    ensures r <= |s|
    ensures r < |s| ==> s[r].id == id
    ensures forall j :: 0 <= j < r ==> s[j].id != id
  {
    FirstMatch(s, (e: PriorityElem) => e.id == id)
  }

  function SpeedOf(s: Elems, id: nat): int {
    var r := Find(s, id);
    if r < |s| then s[r].speed else 0
  }

  function Reversed(s: Elems): (t: Elems)
    ensures |t| == |s|
    ensures forall i :: 0 <= i < |s| ==> t[i] == s[|s| - 1 - i]
  {
    seq(|s|, i requires 0 <= i < |s| => s[|s| - 1 - i])
  }

  /** The list with the stretch from `lo` to `hi` turned round in place. */
  function TurnRound(s: Elems, lo: nat, hi: nat): (t: Elems)
    requires lo <= hi < |s|
    ensures |t| == |s|
    ensures forall i :: 0 <= i < |s| ==> t[i] == if lo <= i <= hi then s[lo + hi - i] else s[i]
  {
    seq(|s|, i requires 0 <= i < |s| => if lo <= i <= hi then s[lo + hi - i] else s[i])
  }

  /** The list without the participant of that id, order kept. */
  function Without(s: Elems, id: nat): (t: Elems)
    ensures forall e :: e in t <==> e in s && e.id != id
  {
    Filtered(s, (e: PriorityElem) => e.id != id)
  }

  /** Whoever else is on the list stays, as often and in the order it was there. */
  lemma WithoutKeepsOthers(s: Elems, id: nat) returns (at: seq<nat>)
    ensures KeptAt(s, (e: PriorityElem) => e.id != id, Without(s, id), at)
  {
    at := FilteredKeepsPositions(s, (e: PriorityElem) => e.id != id);
  }

  // ----- permutations

  lemma SameMembers(s: Elems, t: Elems)
    requires multiset(s) == multiset(t)
    ensures |s| == |t|
    ensures forall e :: e in s <==> e in t
    ensures Ids(s) == Ids(t) && Identities(s) == Identities(t)
  {
    assert |multiset(s)| == |s| && |multiset(t)| == |t|;
    assert forall e :: e in s <==> e in multiset(s);
    assert forall e :: e in t <==> e in multiset(t);
  }

  lemma {:induction false} CountedOnce(s: Elems, e: PriorityElem)
    requires DistinctIds(s)
    ensures multiset(s)[e] <= 1
    decreases |s|
  {
    if s != [] {
      var rest := s[1..];
      assert s == [s[0]] + rest;
      CountedOnce(rest, e);
      if s[0] == e {
        assert e !in rest;
      }
    }
  }

  /** Distinctness of ids and the speed stored under each id survive any reordering. */
  lemma ReorderingKeepsSpeeds(s: Elems, t: Elems)
    requires multiset(s) == multiset(t) && DistinctIds(s)
    ensures DistinctIds(t)
    ensures forall id :: SpeedOf(t, id) == SpeedOf(s, id)
  {
    SameMembers(s, t);
    forall i, j | 0 <= i < j < |t|
      ensures t[i].id != t[j].id
    {
      if t[i].id == t[j].id {
        assert t[i] in s && t[j] in s;
        assert t[i] == t[j];
        assert t == t[..j] + t[j..];
        assert t[i] in t[..j] && t[j] in t[j..];
        assert multiset(t)[t[i]] >= 2;
        CountedOnce(s, t[i]);
      }
    }
    forall id
      ensures SpeedOf(t, id) == SpeedOf(s, id)
    {
      var i, j := Find(s, id), Find(t, id);
      if i < |s| {
        assert s[i] in t;
      }
      if j < |t| {
        assert t[j] in s;
      }
    }
  }

  lemma WithoutIds(s: Elems, id: nat)
    ensures Ids(Without(s, id)) == Ids(s) - {id}
    ensures Identities(Without(s, id)) == set x | x in Identities(s) && x.0 != id
  {
  }

  lemma {:induction false} WithoutKeepsOrder(s: Elems, id: nat)
    requires Ascending(s)
    ensures Ascending(Without(s, id))
    decreases |s|
  {
    if s != [] {
      var rest := Without(s[1..], id);
      WithoutKeepsOrder(s[1..], id);
      forall e | e in rest
        ensures s[0].speed <= e.speed
      {
        assert e in s[1..];
      }
    }
  }

  lemma {:induction false} WithoutKeepsDistinct(s: Elems, id: nat)
    requires DistinctIds(s)
    ensures DistinctIds(Without(s, id))
    decreases |s|
  {
    if s != [] {
      var rest := Without(s[1..], id);
      WithoutKeepsDistinct(s[1..], id);
      forall e | e in rest
        ensures s[0].id != e.id
      {
        assert e in s[1..];
      }
    }
  }

  lemma {:induction false} WithoutLength(s: Elems, id: nat)
    requires DistinctIds(s)
    ensures |Without(s, id)| == |s| - if id in Ids(s) then 1 else 0
    decreases |s|
  {
    if s != [] {
      WithoutLength(s[1..], id);
      assert s == [s[0]] + s[1..];
      assert Ids(s) == {s[0].id} + Ids(s[1..]);
      assert s[0].id !in Ids(s[1..]);
    }
  }

  lemma SpeedOfMember(s: Elems, i: nat)
    requires DistinctIds(s) && i < |s|
    ensures Find(s, s[i].id) == i && SpeedOf(s, s[i].id) == s[i].speed
  {
  }

  ghost predicate StrictlyAscending(s: Elems) {
    forall i, j :: 0 <= i < j < |s| ==> s[i].speed < s[j].speed
  }

  lemma SlowestFirst(s: Elems, t: Elems)
    requires StrictlyAscending(s) && IsSorting(s, t) && s != []
    ensures t != [] && t[0] == s[0]
  {
    SameMembers(s, t);
    assert t[0] in s && s[0] in t;
    var i :| 0 <= i < |s| && s[i] == t[0];
    var j :| 0 <= j < |t| && t[j] == s[0];
  }

  lemma TailMembers(s: Elems, t: Elems)
    requires s != [] && t != [] && s[0] == t[0] && multiset(s) == multiset(t)
    ensures multiset(s[1..]) == multiset(t[1..])
  {
    assert s == [s[0]] + s[1..] && t == [s[0]] + t[1..];
    assert multiset(s[1..]) == multiset(s) - multiset{s[0]};
    assert multiset(t[1..]) == multiset(t) - multiset{s[0]};
  }

  /** A list without equal speeds has one sorting only: whatever the routine, an already
      sorted roster of distinct base speeds is left as it is. */
  lemma {:induction false} SortingIsForced(s: Elems, t: Elems)
    requires StrictlyAscending(s) && IsSorting(s, t)
    ensures t == s
    decreases |s|
  {
    SameMembers(s, t);
    if s != [] {
      SlowestFirst(s, t);
      TailMembers(s, t);
      SortingIsForced(s[1..], t[1..]);
      assert s == [s[0]] + s[1..] && t == [t[0]] + t[1..];
    }
  }

  // ----- the reversal among equal speeds

  /** Neighbours of equal speed of which the first is the faster one by base speed. */
  predicate TieInverted(base: Elems, s: Elems, i: nat)
    requires i + 1 < |s|
  {
    s[i].speed == s[i + 1].speed && SpeedOf(base, s[i].id) > SpeedOf(base, s[i + 1].id)
  }

  predicate SpeedChanges(s: Elems, i: nat)
    requires i + 1 < |s|
  {
    s[i].speed != s[i + 1].speed
  }

  /** The first inverted tie at or after `i`, or |s| when there is none. */
  function FirstInversion(base: Elems, s: Elems, i: nat): (r: nat)
    requires i <= |s|
    ensures i <= r <= |s|
    ensures r < |s| ==> r + 1 < |s| && TieInverted(base, s, r)
    ensures forall j :: i <= j < r && j + 1 < |s| ==> !TieInverted(base, s, j)
    decreases |s| - i
  {
    if i + 1 >= |s| then |s|
    else if TieInverted(base, s, i) then i
    else FirstInversion(base, s, i + 1)
  }

  /** The first position at or after `i` whose successor has another speed, or |s|. */
  function FirstChange(s: Elems, i: nat): (r: nat)
    requires i <= |s|
    ensures i <= r <= |s|
    ensures r < |s| ==> r + 1 < |s| && SpeedChanges(s, r)
    ensures forall j :: i <= j < r && j + 1 < |s| ==> !SpeedChanges(s, j)
    decreases |s| - i
  {
    if i + 1 >= |s| then |s|
    else if SpeedChanges(s, i) then i
    else FirstChange(s, i + 1)
  }

  /** The sorted list with the stretch from the first inverted tie up to the end of the
      slowest run of equal speeds turned round; a stretch that ends before it starts is
      left alone. */
  function TieReversal(base: Elems, s: Elems): (t: Elems)
    ensures |t| == |s|
  {
    var found, change := FirstInversion(base, s, 0), FirstChange(s, 0);
    if found < |s| && change < |s| && found <= change then
      TurnRound(s, found, change)
    else
      s
  }

  lemma {:induction false} EqualUpToChange(s: Elems, i: nat)
    requires i <= FirstChange(s, 0) && i < |s|
    ensures s[i].speed == s[0].speed
    decreases i
  {
    if i > 0 {
      EqualUpToChange(s, i - 1);
      assert !SpeedChanges(s, i - 1);
    }
  }

  lemma {:induction false} ReversedMultiset(s: Elems)
    ensures multiset(Reversed(s)) == multiset(s)
    decreases |s|
  {
    if s != [] {
      ReversedMultiset(s[1..]);
      assert Reversed(s) == Reversed(s[1..]) + [s[0]];
      assert s == [s[0]] + s[1..];
    }
  }

  lemma TurnRoundMultiset(s: Elems, lo: nat, hi: nat)
    requires lo <= hi < |s|
    ensures multiset(TurnRound(s, lo, hi)) == multiset(s)
  {
    var mid := s[lo..hi + 1];
    ReversedMultiset(mid);
    assert s == s[..lo] + mid + s[hi + 1..];
    assert TurnRound(s, lo, hi) == s[..lo] + Reversed(mid) + s[hi + 1..];
  }

  lemma TieReversalKeepsSpeedAt(base: Elems, s: Elems, i: nat)
    requires i < |s|
    ensures TieReversal(base, s)[i].speed == s[i].speed
  {
    var found, change := FirstInversion(base, s, 0), FirstChange(s, 0);
    if found < |s| && change < |s| && found <= change {
      if found <= i <= change {
        EqualUpToChange(s, i);
        EqualUpToChange(s, found + change - i);
      }
    }
  }

  lemma TieReversalPermutes(base: Elems, s: Elems)
    ensures multiset(TieReversal(base, s)) == multiset(s)
    ensures s != [] ==> TieReversal(base, s)[|s| - 1] == s[|s| - 1]
  {
    hide TieInverted, SpeedChanges;
    var found, change := FirstInversion(base, s, 0), FirstChange(s, 0);
    if found < |s| && change < |s| && found <= change {
      TurnRoundMultiset(s, found, change);
      assert TieReversal(base, s) == TurnRound(s, found, change);
    } else {
      assert TieReversal(base, s) == s;
    }
  }

  /** The reversal keeps the list sorted, permutes it, and never touches its last element:
      it cannot change who is picked from this list, only the order handed to the next
      sort. */
  lemma TieReversalKeepsPick(base: Elems, s: Elems)
    requires Ascending(s)
    ensures IsSorting(s, TieReversal(base, s))
    ensures s != [] ==> TieReversal(base, s)[|s| - 1] == s[|s| - 1]
  {
    TieReversalPermutes(base, s);
    var t := TieReversal(base, s);
    forall i, j | 0 <= i < j < |t|
      ensures t[i].speed <= t[j].speed
    {
      TieReversalKeepsSpeedAt(base, s, i);
      TieReversalKeepsSpeedAt(base, s, j);
    }
  }

  /** What the reversal does: with `found` the first inverted tie and `change` the end of the
      slowest run, it turns round what lies between, and nothing if that is empty. */
  lemma TieReversalTurns(base: Elems, s: Elems, found: nat, change: nat)
    requires found + 1 < |s| && s[found].speed == s[found + 1].speed
    requires SpeedOf(base, s[found].id) > SpeedOf(base, s[found + 1].id)
    requires forall i, next :: 0 <= i < found && next == i + 1 && s[i].speed == s[next].speed ==>
               SpeedOf(base, s[i].id) <= SpeedOf(base, s[next].id)
    requires change + 1 < |s| && s[change + 1].speed != s[0].speed
    requires forall i :: 0 <= i <= change ==> s[i].speed == s[0].speed
    ensures |TieReversal(base, s)| == |s|
    ensures forall i :: 0 <= i < |s| ==>
              TieReversal(base, s)[i] == if found <= i <= change then s[found + change - i] else s[i]
  {
    hide SpeedOf;
    assert TieInverted(base, s, found) && forall i :: 0 <= i < found ==> !TieInverted(base, s, i);
    assert FirstInversion(base, s, 0) == found;
    assert SpeedChanges(s, change) && forall i :: 0 <= i < change ==> !SpeedChanges(s, i);
    assert FirstChange(s, 0) == change;
  }

  /** Without an inverted tie, or without two different speeds, it does nothing. */
  lemma TieReversalLeaves(base: Elems, s: Elems)
    requires || (forall i, next :: 0 <= i && next == i + 1 < |s| && s[i].speed == s[next].speed ==>
                   SpeedOf(base, s[i].id) <= SpeedOf(base, s[next].id))
             || (forall i, j :: 0 <= i < j < |s| ==> s[i].speed == s[j].speed)
    ensures TieReversal(base, s) == s
  {
  }

  ghost predicate NoInvertedTie(base: Elems, s: Elems) {
    forall i :: 0 <= i && i + 1 < |s| ==> !TieInverted(base, s, i)
  }

  predicate RisesAt(base: Elems, s: Elems, i: nat)
    requires i + 1 < |s|
  {
    SpeedOf(base, s[i].id) < SpeedOf(base, s[i + 1].id)
  }

  /** The ties after turning round a stretch of the slowest run up to its end. */
  lemma TurnedPair(base: Elems, s: Elems, lo: nat, hi: nat, i: nat)
    requires lo <= hi && hi + 1 < |s| && i + 1 < |s|
    requires (forall j :: 0 <= j <= hi ==> s[j].speed == s[0].speed) && s[hi].speed != s[hi + 1].speed
    ensures TieInverted(base, TurnRound(s, lo, hi), i)
            <==> if i == hi then false
                 else if i + 1 == lo then SpeedOf(base, s[lo - 1].id) > SpeedOf(base, s[hi].id)
                 else if lo <= i < hi then RisesAt(base, s, lo + hi - i - 1)
                 else TieInverted(base, s, i)
  {
    hide SpeedOf;
  }

  lemma SlowestRun(s: Elems)
    requires FirstChange(s, 0) < |s|
    ensures var change := FirstChange(s, 0);
            && change + 1 < |s| && s[change].speed != s[change + 1].speed
            && forall j :: 0 <= j <= change ==> s[j].speed == s[0].speed
  {
    forall j | 0 <= j <= FirstChange(s, 0)
      ensures s[j].speed == s[0].speed
    {
      EqualUpToChange(s, j);
    }
  }

  /** Exactly when the reversal leaves no inverted tie: there was none, or the stretch it turns
      round never rises in base speed, fits what comes before it, and nothing later is inverted. */
  lemma TieReversalRepairs(base: Elems, s: Elems)
    ensures var found, change := FirstInversion(base, s, 0), FirstChange(s, 0);
            NoInvertedTie(base, TieReversal(base, s))
            <==> || found == |s|
                 || (&& found <= change < |s|
                     && (forall i :: found <= i < change ==> !RisesAt(base, s, i))
                     && (found == 0 || SpeedOf(base, s[found - 1].id) <= SpeedOf(base, s[change].id))
                     && forall i :: change < i && i + 1 < |s| ==> !TieInverted(base, s, i))
  {
    hide SpeedOf, TieInverted, RisesAt, SpeedChanges;
    var found, change := FirstInversion(base, s, 0), FirstChange(s, 0);
    var t := TieReversal(base, s);
    if found <= change < |s| {
      SlowestRun(s);
      forall i: nat | i + 1 < |s|
        ensures TieInverted(base, t, i)
                <==> if i == change then false
                     else if i + 1 == found then SpeedOf(base, s[found - 1].id) > SpeedOf(base, s[change].id)
                     else if found <= i < change then RisesAt(base, s, found + change - i - 1)
                     else TieInverted(base, s, i)
      {
        TurnedPair(base, s, found, change, i);
      }
      if NoInvertedTie(base, t) {
        forall i | found <= i < change
          ensures !RisesAt(base, s, i)
        {
          var mirrored := found + change - i - 1;
          assert !TieInverted(base, t, mirrored);
        }
        if found > 0 {
          assert !TieInverted(base, t, found - 1);
        }
      }
    } else {
      assert t == s;
    }
  }
}
