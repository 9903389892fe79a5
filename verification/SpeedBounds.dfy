/**
 The speeds of one side of a fighting pit, by participant.  Which of several equally slow
 participants ends a turn, and which of several equally fast ones it pays, may change from
 turn to turn; the results here hold however they change.
 */
module SpeedBounds {
  import Dyn = SpeedDynamics

  type Speeds = nat -> int

  /** A side with a fixed roster: everybody's base speed, who may end a turn, who may be the one
      the turn-ending participant pays, and by how much stored speeds may exceed the fastest base
      speed at the beginning. */
  datatype Side = Side(ids: set<nat>, base: Speeds, fastest: int, slow: set<nat>, fast: set<nat>, extra: nat)

  ghost predicate Proper(side: Side) {
    && side.slow <= side.ids && side.fast <= side.ids
    && (forall i :: i in side.ids ==> 1 <= side.base(i) <= side.fastest)
    && (forall i, j :: i in side.slow && j in side.ids ==> side.base(i) <= side.base(j))
    && (forall i :: i in side.fast ==> side.base(i) == side.fastest)
  }

  /** One play: a fastest participant `u` pays by the speed of `p`, and when the turn ends
      everybody is topped up. */
  ghost predicate Move(side: Side, v: Speeds, w: Speeds, u: nat, p: nat, ended: bool) {
    && u in side.ids && p in side.ids && u != p && 1 <= v(u)
    && (forall i :: i in side.ids ==> 0 <= v(i) <= v(u))
    && (ended ==> u in side.slow && p in side.fast)
    && (forall i :: i in side.ids ==>
          w(i) == (if i == u then v(u) - Dyn.Price(v(p)) else v(i))
                + (if ended then side.base(i) + side.fastest else 0))
  }

  // ----- sums over distinct participants

  ghost predicate Distinct(a: seq<nat>) {
    forall i, j :: 0 <= i < j < |a| ==> a[i] != a[j]
  }

  function Sum(v: Speeds, a: seq<nat>): int {
    if a == [] then 0 else v(a[0]) + Sum(v, a[1..])
  }

  lemma {:induction false} SumAppend(v: Speeds, a: seq<nat>, u: nat)
    ensures Sum(v, a + [u]) == Sum(v, a) + v(u)
    decreases |a|
  {
    if a != [] {
      assert (a + [u])[1..] == a[1..] + [u];
      SumAppend(v, a[1..], u);
    }
  }

  lemma {:induction false} SumTakenOut(v: Speeds, a: seq<nat>, i: nat)
    requires i < |a|
    ensures Sum(v, a) == v(a[i]) + Sum(v, a[..i] + a[i + 1..])
    decreases i
  {
    if i == 0 {
      assert a[..0] + a[1..] == a[1..];
    } else {
      var rest := a[..i] + a[i + 1..];
      assert rest[1..] == a[1..][..i - 1] + a[1..][i..];
      SumTakenOut(v, a[1..], i - 1);
    }
  }

  lemma {:induction false} SumAtMost(v: Speeds, w: Speeds, a: seq<nat>, c: int)
    requires forall i :: i in a ==> w(i) <= v(i) + c
    ensures Sum(w, a) <= Sum(v, a) + |a| * c
    decreases |a|
  {
    if a != [] {
      SumAtMost(v, w, a[1..], c);
      assert |a| * c == c + |a[1..]| * c;
    }
  }

  lemma {:induction false} SumAtMostEach(v: Speeds, a: seq<nat>, c: int)
    requires forall i :: i in a ==> v(i) <= c
    ensures Sum(v, a) <= |a| * c
    decreases |a|
  {
    if a != [] {
      SumAtMostEach(v, a[1..], c);
      assert |a| * c == c + |a[1..]| * c;
    }
  }

  lemma {:induction false} DistinctFit(a: seq<nat>, s: set<nat>)
    requires Distinct(a) && forall i :: i in a ==> i in s
    ensures |a| <= |s|
    decreases |a|
  {
    if a != [] {
      var rest := a[1..];
      forall i | i in rest
        ensures i in s - {a[0]}
      {
      }
      DistinctFit(rest, s - {a[0]});
    }
  }

  // ----- the bound

  /** In multiples of the fastest base speed: what any `k` of `n` participants can hold. */
  function Multiple(n: nat, k: nat): int {
    k * (3 * n * n - 3 * n + 2 - k * (k - 1))
  }

  function Extremes(side: Side): nat {
    |side.slow + side.fast|
  }

  function Cap(side: Side, k: nat): int {
    Multiple(Extremes(side), k) * side.fastest + k * side.extra
  }

  /** The most a group of `k` gains by the end of a turn. */
  function Gain(k: nat, fastest: int): int {
    2 * k * fastest
  }

  /** What they can hold while somebody outside holds nothing. */
  function LowCap(side: Side, k: nat): int {
    Cap(side, k) - k * Gain(k, side.fastest)
  }

  lemma GainFacts(k: nat, fastest: int, x: int)
    requires 1 <= k && 1 <= fastest
    ensures 2 * fastest <= Gain(k, fastest) <= k * Gain(k, fastest)
    ensures k * (x + 2 * fastest) == k * x + Gain(k, fastest)
  {
    Scale(1, k, 2 * fastest);
    Scale(1, k, Gain(k, fastest));
  }

  lemma MultipleGrows(n: nat, k: nat)
    requires 1 <= k <= n
    ensures Multiple(n, k - 1) + 2 * k <= Multiple(n, k)
  {
    var a := 3 * n * n - 3 * n + 2;
    Difference(a, k);
    assert Multiple(n, k) - Multiple(n, k - 1) == a - 3 * (k * (k - 1)) + 2 * k - 2;
    hide Multiple;
    assert k * (k - 1) <= n * (n - 1) by {
      Scale(k - 1, n - 1, k);
      Scale(k, n, n - 1);
    }
    assert a == 3 * (n * (n - 1)) + 2;
  }

  lemma Difference(a: int, k: int)
    ensures k * (a - k * (k - 1)) - (k - 1) * (a - (k - 1) * (k - 2)) == a - 3 * (k * (k - 1)) + 2 * k - 2
  {
    var s := k * k;
    assert (k - 1) * (k - 2) == s - 3 * k + 2 && k * (k - 1) == s - k;
    assert k * (a - (s - k)) == k * a - k * s + s;
    assert (k - 1) * (a - (s - 3 * k + 2)) == k * a - k * s + 3 * s - 2 * k - a + s - 3 * k + 2;
  }

  lemma CapGrows(side: Side, k: nat)
    requires 1 <= k <= Extremes(side) && 1 <= side.fastest
    ensures Cap(side, k - 1) + Gain(k, side.fastest) <= Cap(side, k)
  {
    var n := Extremes(side);
    MultipleGrows(n, k);
    Scale(Multiple(n, k - 1) + 2 * k, Multiple(n, k), side.fastest);
    Scale(k - 1, k, side.extra);
  }

  lemma Scale(x: int, y: int, c: int)
    requires x <= y && 0 <= c
    ensures x * c <= y * c
  {
  }

  lemma LowMultiple(n: nat, k: nat, fastest: int)
    ensures Multiple(n, k) * fastest - k * Gain(k, fastest)
         == (k * (3 * n * n - 3 * n + 2 - k * (k + 1))) * fastest
  {
    var a := 3 * n * n - 3 * n + 2;
    assert k * (a - k * (k - 1)) - 2 * (k * k) == k * (a - k * (k + 1));
    assert k * Gain(k, fastest) == (2 * (k * k)) * fastest;
  }

  /** The caps fall off so fast that the average over `k + 1` is the low average over `k`. */
  lemma LowCapIsNextAverage(side: Side, k: nat)
    ensures k * Cap(side, k + 1) == (k + 1) * LowCap(side, k)
  {
    var n, F, x := Extremes(side), side.fastest, side.extra;
    var low := 3 * n * n - 3 * n + 2 - k * (k + 1);
    assert Multiple(n, k + 1) == (k + 1) * low;
    LowMultiple(n, k, F);
    Averages(k, low, F, x);
  }

  lemma Averages(k: nat, low: int, f: int, x: int)
    ensures k * (((k + 1) * low) * f + (k + 1) * x) == (k + 1) * ((k * low) * f + k * x)
  {
    assert k * (((k + 1) * low) * f) == (k + 1) * ((k * low) * f);
    assert k * ((k + 1) * x) == (k + 1) * (k * x);
  }

  ghost predicate Group(side: Side, a: seq<nat>) {
    a != [] && Distinct(a) && forall i :: i in a ==> i in side.slow + side.fast
  }

  /** What a group holds, and how much less while a possible payee outside it holds little. */
  ghost predicate GroupBounded(side: Side, v: Speeds, a: seq<nat>) {
    && Sum(v, a) <= Cap(side, |a|)
    && forall m :: m in side.fast && m !in a ==>
         Sum(v, a) <= LowCap(side, |a|) + |a| * v(m)
  }

  /** The most anybody can hold: the cap of one who may end a turn, and a top-up. */
  function Ceiling(side: Side): int {
    Cap(side, 1) + 2 * side.fastest
  }

  ghost predicate Bounded(side: Side, v: Speeds) {
    && (forall a :: Group(side, a) ==> GroupBounded(side, v, a))
    && (forall i :: i in side.ids ==> 0 <= v(i) <= Ceiling(side))
  }

  /** When somebody outside a group is picked, the group holds no more than its low cap. */
  lemma OutsiderPicked(side: Side, v: Speeds, a: seq<nat>, u: nat)
    requires Proper(side) && Bounded(side, v) && Group(side, a)
    requires u in side.slow + side.fast && u !in a && forall i :: i in a ==> v(i) <= v(u)
    ensures Sum(v, a) <= LowCap(side, |a|)
  {
    hide Cap, LowCap, Sum;
    var k := |a|;
    assert Group(side, a + [u]);
    SumAppend(v, a, u);
    SumAtMostEach(v, a, v(u));
    LowCapIsNextAverage(side, k);
    Average(Sum(v, a), v(u), k, Cap(side, k + 1), LowCap(side, k));
  }

  lemma Average(sum: int, x: int, k: nat, cap: int, low: int)
    requires sum + x <= cap && sum <= k * x && k * cap == (k + 1) * low
    ensures sum <= low
  {
    Scale(sum + x, cap, k);
    assert (k + 1) * sum <= k * x + k * sum == (sum + x) * k <= (k + 1) * low;
    Cancel(sum, low, k + 1);
  }

  lemma Cancel(x: int, y: int, c: int)
    requires c * x <= c * y && 1 <= c
    ensures x <= y
  {
  }

  function Debited(v: Speeds, u: nat, price: int): Speeds {
    (i: nat) => if i == u then v(u) - price else v(i)
  }

  lemma {:induction false} SumDebited(v: Speeds, a: seq<nat>, u: nat, price: int)
    requires Distinct(a)
    ensures Sum(Debited(v, u, price), a) == Sum(v, a) - if u in a then price else 0
    decreases |a|
  {
    if a != [] {
      SumDebited(v, a[1..], u, price);
    }
  }

  /** What a group holds after a move. */
  lemma SumAfterMove(side: Side, v: Speeds, w: Speeds, u: nat, p: nat, ended: bool, a: seq<nat>)
    requires Proper(side) && Move(side, v, w, u, p, ended) && Group(side, a)
    ensures Sum(w, a)
         <= Sum(v, a) - (if u in a then Dyn.Price(v(p)) else 0) + (if ended then Gain(|a|, side.fastest) else 0)
  {
    SumDebited(v, a, u, Dyn.Price(v(p)));
    var c := if ended then 2 * side.fastest else 0;
    SumAtMost(Debited(v, u, Dyn.Price(v(p))), w, a, c);
    assert |a| * (2 * side.fastest) == Gain(|a|, side.fastest);
  }

  lemma MoveWithin(side: Side, v: Speeds, w: Speeds, u: nat, p: nat, ended: bool, a: seq<nat>)
    requires Proper(side) && Move(side, v, w, u, p, ended) && Bounded(side, v) && Group(side, a) && !ended
    ensures GroupBounded(side, w, a)
  {
    hide Cap, LowCap, Sum, Gain;
    SumAfterMove(side, v, w, u, p, ended, a);
    assert GroupBounded(side, v, a);
    forall m | m in side.fast && m !in a
      ensures Sum(w, a) <= LowCap(side, |a|) + |a| * w(m)
    {
      if m == u {
        OutsiderPicked(side, v, a, u);
        Scale(0, w(u), |a|);
      }
    }
  }

  /** A turn ended by a member of the group, paying little to an outsider. */
  lemma LittlePaid(sum: int, cap: int, k: nat, gain: int, x: int)
    requires 1 <= k && x < gain && sum <= cap - k * gain + k * x
    ensures sum - x + gain <= cap
  {
    Scale(x, gain, k - 1);
  }

  /** A turn ended by a member of the group, paying another one of it. */
  lemma PaidInside(side: Side, v: Speeds, u: nat, p: nat, a: seq<nat>)
    requires Proper(side) && Bounded(side, v) && Group(side, a) && u in a && p in a && u != p && 1 <= side.fastest
    ensures Sum(v, a) - v(p) + Gain(|a|, side.fastest) <= Cap(side, |a|)
  {
    hide Cap, LowCap, Sum, Gain, Proper;
    var i :| 0 <= i < |a| && a[i] == p;
    var rest := a[..i] + a[i + 1..];
    SumTakenOut(v, a, i);
    RestIsGroup(side, a, i, u);
    assert GroupBounded(side, v, rest);
    DistinctFit(a, side.slow + side.fast);
    CapGrows(side, |a|);
  }

  lemma EndedByMember(side: Side, v: Speeds, w: Speeds, u: nat, p: nat, a: seq<nat>)
    requires Proper(side) && Move(side, v, w, u, p, true) && Bounded(side, v) && Group(side, a) && u in a
    ensures Sum(w, a) <= Cap(side, |a|)
  {
    hide Cap, Sum, Gain;
    var k, F := |a|, side.fastest;
    SumAfterMove(side, v, w, u, p, true, a);
    assert GroupBounded(side, v, a);
    if p in a {
      PaidInside(side, v, u, p, a);
    } else if v(p) < Gain(k, F) {
      LittlePaid(Sum(v, a), Cap(side, k), k, Gain(k, F), v(p));
    }
  }

  lemma RestIsGroup(side: Side, a: seq<nat>, i: nat, u: nat)
    requires Group(side, a) && i < |a| && u in a && u != a[i]
    ensures Group(side, a[..i] + a[i + 1..]) && |a[..i] + a[i + 1..]| == |a| - 1
  {
    var rest := a[..i] + a[i + 1..];
    forall j, k | 0 <= j < k < |rest|
      ensures rest[j] != rest[k]
    {
    }
    assert |a| > 1;
  }

  lemma EndedByOutsider(side: Side, v: Speeds, w: Speeds, u: nat, p: nat, a: seq<nat>)
    requires Proper(side) && Move(side, v, w, u, p, true) && Bounded(side, v) && Group(side, a) && u !in a
    ensures Sum(w, a) <= LowCap(side, |a|) + Gain(|a|, side.fastest)
    ensures Sum(w, a) <= Cap(side, |a|)
  {
    hide Cap, Sum, Gain, GroupBounded;
    SumAfterMove(side, v, w, u, p, true, a);
    OutsiderPicked(side, v, a, u);
    GainFacts(|a|, side.fastest, 0);
  }

  /** A possible payee outside the group is topped up by as much as anybody in it. */
  lemma PayeeKeepsUp(side: Side, v: Speeds, w: Speeds, u: nat, p: nat, a: seq<nat>, m: nat)
    requires Proper(side) && Move(side, v, w, u, p, true) && Bounded(side, v) && Group(side, a)
    requires m in side.fast && m !in a
    ensures Sum(w, a) <= LowCap(side, |a|) + |a| * w(m)
  {
    hide Cap, LowCap, Sum, Gain;
    var k, F := |a|, side.fastest;
    var left := if m == u then v(u) - Dyn.Price(v(p)) else v(m);
    assert w(m) == left + 2 * F && 0 <= left;
    GainFacts(k, F, left);
    if m == u {
      EndedByOutsider(side, v, w, u, p, a);
      Scale(0, left, k);
    } else {
      assert GroupBounded(side, v, a);
      SumAfterMove(side, v, w, u, p, true, a);
    }
  }

  lemma MoveEnds(side: Side, v: Speeds, w: Speeds, u: nat, p: nat, a: seq<nat>)
    requires Proper(side) && Move(side, v, w, u, p, true) && Bounded(side, v) && Group(side, a)
    ensures GroupBounded(side, w, a)
  {
    hide Proper, Move, Bounded, Group, Cap, LowCap, Sum;
    if u in a {
      EndedByMember(side, v, w, u, p, a);
    } else {
      EndedByOutsider(side, v, w, u, p, a);
    }
    forall m | m in side.fast && m !in a
      ensures Sum(w, a) <= LowCap(side, |a|) + |a| * w(m)
    {
      PayeeKeepsUp(side, v, w, u, p, a, m);
    }
  }

  /** The bound survives every move. */
  lemma MoveKeepsBounded(side: Side, v: Speeds, w: Speeds, u: nat, p: nat, ended: bool)
    requires Proper(side) && Move(side, v, w, u, p, ended) && Bounded(side, v)
    ensures Bounded(side, w)
  {
    forall a | Group(side, a)
      ensures GroupBounded(side, w, a)
    {
      hide *;
      if ended {
        MoveEnds(side, v, w, u, p, a);
      } else {
        MoveWithin(side, v, w, u, p, ended, a);
      }
    }
    MoveKeepsCeiling(side, v, w, u, p, ended);
  }

  /** Nobody holds more than whoever ends a turn, and that is at most the cap of one. */
  lemma MoveKeepsCeiling(side: Side, v: Speeds, w: Speeds, u: nat, p: nat, ended: bool)
    requires Proper(side) && Move(side, v, w, u, p, ended) && Bounded(side, v)
    ensures forall i :: i in side.ids ==> 0 <= w(i) <= Ceiling(side)
  {
    hide Cap, LowCap;
    if ended {
      CapOfOne(side, v, u);
    }
    assert 1 <= Dyn.Price(v(p)) <= v(u);
  }

  lemma CapOfOne(side: Side, v: Speeds, u: nat)
    requires Bounded(side, v) && u in side.slow + side.fast
    ensures v(u) <= Cap(side, 1)
  {
    assert Group(side, [u]) && GroupBounded(side, v, [u]);
    assert Sum(v, [u]) == v(u);
  }

  /** Speeds that exceed the fastest base speed by no more than the side allows for are within
      the bound. */
  lemma StartIsBounded(side: Side, v: Speeds)
    requires Proper(side) && Extremes(side) >= 2 && 1 <= side.fastest
    requires forall i :: i in side.ids ==> 0 <= v(i) <= side.fastest + side.extra
    ensures Bounded(side, v)
  {
    hide Cap, LowCap, Sum, Extremes;
    forall a | Group(side, a)
      ensures GroupBounded(side, v, a)
    {
      var k := |a|;
      assert k <= Extremes(side) by { GroupFits(side, a); }
      SumAtMostEach(v, a, side.fastest + side.extra);
      StartFits(side, k);
      assert forall m :: m in side.fast ==> 0 <= k * v(m);
    }
    StartFits(side, 1);
    CapIsPositive(side);
  }

  lemma GroupFits(side: Side, a: seq<nat>)
    requires Group(side, a)
    ensures |a| <= Extremes(side)
  {
    DistinctFit(a, side.slow + side.fast);
  }

  lemma CapIsPositive(side: Side)
    requires side.fastest + side.extra <= LowCap(side, 1) <= Cap(side, 1) && 1 <= side.fastest
    ensures side.fastest + side.extra <= Ceiling(side)
  {
  }

  lemma LowCapIs(side: Side, k: nat)
    ensures var n := Extremes(side);
            LowCap(side, k) == (k * (3 * n * n - 3 * n + 2 - k * (k + 1))) * side.fastest + k * side.extra
  {
    hide Extremes, Multiple, Gain;
    LowMultiple(Extremes(side), k, side.fastest);
  }

  lemma StartFits(side: Side, k: nat)
    requires 1 <= k <= Extremes(side) && 2 <= Extremes(side) && 1 <= side.fastest
    ensures k * (side.fastest + side.extra) <= LowCap(side, k) <= Cap(side, k)
  {
    hide Cap, LowCap, Extremes;
    var n := Extremes(side);
    Room(n, k);
    LowCapIs(side, k);
    RoomForAll(k, 3 * n * n - 3 * n + 2 - k * (k + 1), side.fastest, side.extra);
    LowCapIsLower(side, k);
  }

  lemma RoomForAll(k: nat, room: int, f: int, x: int)
    requires 1 <= k && 1 <= room && 1 <= f
    ensures k * (f + x) <= (k * room) * f + k * x
  {
    Scale(1, room, k);
    Scale(k, k * room, f);
  }

  lemma LowCapIsLower(side: Side, k: nat)
    requires 1 <= k && 1 <= side.fastest
    ensures LowCap(side, k) <= Cap(side, k)
  {
    hide Cap, Gain;
    GainFacts(k, side.fastest, 0);
  }

  lemma Room(n: nat, k: nat)
    requires 1 <= k <= n && 2 <= n
    ensures 1 <= 3 * n * n - 3 * n + 2 - k * (k + 1)
  {
    Scale(k, n, k + 1);
    Scale(k + 1, n + 1, n);
    assert 3 * n * n - 3 * n + 2 - n * (n + 1) == 2 * ((n - 1) * (n - 1));
    Scale(1, n - 1, n - 1);
  }

  // ----- how far somebody trails

  function Max(x: int, y: int): int {
    if x < y then y else x
  }

  /** By how much, plus one each, the participants `g` lead participant `x`. */
  function Leads(v: Speeds, g: seq<nat>, x: nat): nat {
    if g == [] then 0 else Max(0, v(g[0]) - v(x) + 1) + Leads(v, g[1..], x)
  }

  lemma {:induction false} LeadsShrink(v: Speeds, w: Speeds, g: seq<nat>, x: nat, u: nat, loss: nat)
    requires loss <= 1 && v(x) <= v(u)
    requires forall i :: i in g ==> w(i) - w(x) <= v(i) - v(x) - if i == u then loss else 0
    ensures Leads(w, g, x) + (if u in g then loss else 0) <= Leads(v, g, x)
    decreases |g|
  {
    if g != [] {
      LeadsShrink(v, w, g[1..], x, u, loss);
    }
  }

  /** A play of somebody else never lets the slow ones gain on `x`, and ending the turn costs
      the one who ends it part of its lead. */
  lemma LeadsAfterMove(side: Side, v: Speeds, w: Speeds, u: nat, p: nat, ended: bool, g: seq<nat>, x: nat)
    requires Proper(side) && Move(side, v, w, u, p, ended) && x in side.ids && u != x
    requires (forall i :: i in g ==> i in side.slow) && (u in side.slow ==> u in g)
    ensures Leads(w, g, x) + (if ended then 1 else 0) <= Leads(v, g, x)
  {
    LeadsShrink(v, w, g, x, u, if ended then 1 else 0);
  }

  /** Bounded speeds bound the leads, whoever trails. */
  lemma LeadsBounded(side: Side, v: Speeds, g: seq<nat>, x: nat)
    requires Proper(side) && Bounded(side, v) && Distinct(g) && x in side.ids
    requires forall i :: i in g ==> i in side.slow
    ensures Leads(v, g, x) <= Cap(side, |g|) + |g|
  {
    hide Cap, LowCap, Sum, Leads;
    LeadsAtMostSum(v, g, x);
    if g == [] {
      NobodyHolds(side, v);
    } else {
      assert Group(side, g) && GroupBounded(side, v, g);
    }
  }

  lemma NobodyHolds(side: Side, v: Speeds)
    ensures Sum(v, []) == 0 == Cap(side, 0)
  {
  }

  lemma {:induction false} LeadsAtMostSum(v: Speeds, g: seq<nat>, x: nat)
    requires 0 <= v(x) && forall i :: i in g ==> 0 <= v(i)
    ensures Leads(v, g, x) <= Sum(v, g) + |g|
    decreases |g|
  {
    if g != [] {
      LeadsAtMostSum(v, g[1..], x);
    }
  }
}
