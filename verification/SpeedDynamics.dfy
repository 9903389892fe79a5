/**
 One play on a side of a fighting pit, stripped of identities, lists and tie-breaking.
 Participants are named by their rank in base-speed order: rank 0 is the slowest, rank
 |b| - 1 the fastest.  `b` holds the base speeds and `v` the stored speeds.  A play picks any
 rank whose stored speed is maximal, debits it, and, when the slowest played, tops everybody
 up.
 */
module SpeedDynamics {

  ghost predicate Roster(b: seq<int>) {
    && 2 <= |b|
    && (forall i :: 0 <= i < |b| ==> 1 <= b[i])
    && (forall i, j :: 0 <= i < j < |b| ==> b[i] <= b[j])
  }

  function Top(b: seq<int>): int
    requires b != []
  {
    b[|b| - 1]
  }

  ghost predicate Pickable(v: seq<int>, k: nat) {
    k < |v| && forall i :: 0 <= i < |v| ==> v[i] <= v[k]
  }

  /** The price of an action is the speed of the next slower participant, 1 in place of 0. */
  function Price(x: int): int {
    if x == 0 then 1 else x
  }

  /** What rank `k` pays: the slowest pays by the speed of the fastest. */
  function Debit(v: seq<int>, k: nat): int
    requires k < |v|
  {
    Price(v[if k == 0 then |v| - 1 else k - 1])
  }

  function Debited(v: seq<int>, k: nat): (w: seq<int>)
    requires k < |v|
  {
    v[k := v[k] - Debit(v, k)]
  }

  function Play(b: seq<int>, v: seq<int>, k: nat): (w: seq<int>)
    requires k < |v| == |b|
  {
    var w := Debited(v, k);
    if k == 0 then seq(|v|, i requires 0 <= i < |v| => w[i] + b[i] + Top(b)) else w
  }

  /** What every reachable vector of stored speeds satisfies: nothing is negative and the
      slowest can still play. */
  ghost predicate Live(v: seq<int>) {
    v != [] && 1 <= v[0] && forall i :: 0 <= i < |v| ==> 0 <= v[i]
  }

  lemma PlayKeepsLive(b: seq<int>, v: seq<int>, k: nat)
    requires Roster(b) && |v| == |b| && Live(v) && Pickable(v, k)
    ensures 1 <= Debit(v, k) <= v[k]
    ensures Live(Play(b, v, k))
    ensures k == 0 ==> forall i :: 0 <= i < |v| ==> 1 < Play(b, v, k)[i]
  {
    assert v[0] <= v[k];
    var w := Debited(v, k);
    assert forall i :: 0 <= i < |v| ==> 0 <= w[i];
    if k == 0 {
      assert forall i :: 0 <= i < |v| ==> Play(b, v, k)[i] == w[i] + b[i] + Top(b);
      assert forall i :: 0 <= i < |b| ==> 1 <= b[i];
    }
  }

  // ----- how long a turn can be

  ghost function Sum(v: seq<int>): int {
    if v == [] then 0 else v[0] + Sum(v[1..])
  }

  lemma {:induction false} SumUpdate(v: seq<int>, k: nat, y: int)
    requires k < |v|
    ensures Sum(v[k := y]) == Sum(v) - v[k] + y
  {
    if k == 0 {
      assert v[k := y][1..] == v[1..];
    } else {
      assert v[k := y][1..] == v[1..][k - 1 := y];
      SumUpdate(v[1..], k - 1, y);
    }
  }

  lemma {:induction false} SumBounds(v: seq<int>, m: int)
    requires forall i :: 0 <= i < |v| ==> 0 <= v[i] <= m
    ensures 0 <= Sum(v) <= |v| * m
  {
    if v != [] {
      SumBounds(v[1..], m);
    }
  }

  /** Mid-turn plays use up the speed of the participants other than the slowest. */
  lemma MidTurnPlaySpends(b: seq<int>, v: seq<int>, k: nat)
    requires Roster(b) && |v| == |b| && Live(v) && Pickable(v, k) && 0 < k
    ensures 0 <= Sum(Play(b, v, k)[1..]) <= Sum(v[1..]) - 1
  {
    PlayKeepsLive(b, v, k);
    var w := Play(b, v, k);
    assert w[1..] == v[1..][k - 1 := v[k] - Debit(v, k)];
    SumUpdate(v[1..], k - 1, v[k] - Debit(v, k));
    NonNegativeSum(w[1..]);
  }

  lemma {:induction false} NonNegativeSum(v: seq<int>)
    requires forall i :: 0 <= i < |v| ==> 0 <= v[i]
    ensures 0 <= Sum(v)
  {
    if v != [] {
      NonNegativeSum(v[1..]);
    }
  }
}
