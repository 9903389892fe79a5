/**
 The calls of the simple scheduler, taken together: turns end and have a fixed shape, and every
 call is one move of its side, whoever is slowest and fastest in each turn.
 */
module SchedulerRuns {
  import opened PriorityLists
  import opened SimpleScheduler
  import Dyn = SpeedDynamics
  import SB = SpeedBounds

  // ----- turns

  /** The number of calls up to and including the next play of the slowest.  That it is a
      function at all is the termination of turn generation. */
  ghost function TurnLength(srt: Sorter, s: State): (k: nat)
    requires SortsBySpeed(srt) && WellFormed(s)
    ensures 1 <= k
    decreases if |s.base| == 1 then 0 else Dyn.Sum(StoredSpeeds(OrderedBase(srt, s), s.stored)[1..])
  {
    if |s.base| == 1 then 1 else
    NextIsLegalPlay(srt, s);
    var s' := Next(srt, s).1;
    if s'.turnStart then 1 else
    MidTurnSpends(srt, s);
    1 + TurnLength(srt, s')
  }

  lemma MidTurnSpends(srt: Sorter, s: State)
    requires SortsBySpeed(srt) && WellFormed(s) && |s.base| > 1 && !Next(srt, s).1.turnStart
    ensures var s' := Next(srt, s).1;
            |s'.base| == |s.base| && OrderedBase(srt, s') == OrderedBase(srt, s) &&
            |OrderedBase(srt, s)| == |s.base| &&
            0 <= Dyn.Sum(StoredSpeeds(s'.base, s'.stored)[1..])
              < Dyn.Sum(StoredSpeeds(OrderedBase(srt, s), s.stored)[1..])
  {
    hide Next, NextRank;
    NextIsLegalPlay(srt, s);
    OrderedBaseIsRoster(srt, s);
    var base := OrderedBase(srt, s);
    Dyn.MidTurnPlaySpends(BaseSpeeds(base), StoredSpeeds(base, s.stored), NextRank(srt, s));
  }

  /** A turn: only participants of the side play, each as what it is, and the slowest exactly once,
      last. */
  ghost predicate IsTurn(base: Elems, picks: Elems) {
    && base != [] && picks != []
    && (forall e :: e in picks ==> Known(base, e))
    && picks[|picks| - 1].id == base[0].id
    && (forall j :: 0 <= j < |picks| - 1 ==> picks[j].id != base[0].id)
  }

  /** Every turn that is generated has that shape, ends where the next begins, and is no
      longer than the speed the faster participants have to spend. */
  lemma {:induction false} TurnShape(srt: Sorter, s: State)
    requires SortsBySpeed(srt) && WellFormed(s)
    ensures var k, base := TurnLength(srt, s), OrderedBase(srt, s);
            var s' := After(srt, s, k);
            && IsTurn(base, Stream(srt, s, k))
            && WellFormed(s') && s'.turnStart && s'.base == base
            && (|base| > 1 ==> k <= 1 + Dyn.Sum(StoredSpeeds(base, s.stored)[1..]))
    decreases TurnLength(srt, s)
  {
    hide *;
    OrderedBaseIsRoster(srt, s);
    if |s.base| == 1 {
      TurnAlone(srt, s);
    } else {
      RosterNotEmpty(s);
      TurnStep(srt, s);
      var (e, s') := Next(srt, s);
      if s'.turnStart {
        TurnOfOneCall(srt, s);
      } else {
        MidTurnSpends(srt, s);
        TurnShape(srt, s');
        TurnExtended(srt, s);
      }
    }
  }

  lemma RosterNotEmpty(s: State)
    requires WellFormed(s)
    ensures s.base != []
  {
  }

  lemma TurnAlone(srt: Sorter, s: State)
    requires SortsBySpeed(srt) && WellFormed(s) && |s.base| == 1
    ensures var k, base := TurnLength(srt, s), OrderedBase(srt, s);
            k == 1 && |base| == 1 && IsTurn(base, Stream(srt, s, k))
            && WellFormed(After(srt, s, k)) && After(srt, s, k).turnStart && After(srt, s, k).base == base
  {
    hide Next, OrderedBase, Ids, WellFormed;
    AloneIsAlwaysNext(srt, s);
    OneMoreCall(srt, s, 0);
    IdOfMember(s.base, 0);
  }

  /** The first call of the turn is its last. */
  lemma TurnOfOneCall(srt: Sorter, s: State)
    requires var (e, s') := Next(srt, s); s'.base != [] && e.id == s'.base[0].id && Known(s'.base, e)
    ensures IsTurn(Next(srt, s).1.base, Stream(srt, s, 1)) && After(srt, s, 1) == Next(srt, s).1
  {
    hide Next, Ids, Known;
    OneMoreCall(srt, s, 0);
  }

  /** One more call before a turn. */
  lemma TurnExtended(srt: Sorter, s: State)
    requires SortsBySpeed(srt) && WellFormed(Next(srt, s).1)
    requires var (e, s') := Next(srt, s);
             && s'.base != [] && e.id != s'.base[0].id && Known(s'.base, e)
             && IsTurn(s'.base, Stream(srt, s', TurnLength(srt, s')))
    ensures var k := TurnLength(srt, Next(srt, s).1);
            && IsTurn(Next(srt, s).1.base, Stream(srt, s, k + 1))
            && After(srt, s, k + 1) == After(srt, Next(srt, s).1, k)
  {
    hide Next, Ids, Known, TurnLength, WellFormed, Stream, After, SortsBySpeed;
    var (e, s') := Next(srt, s);
    var k := TurnLength(srt, s');
    OneMoreCall(srt, s, k);
    OneMoreBefore(s'.base, e, Stream(srt, s', k));
  }

  lemma OneMoreBefore(base: Elems, e: PriorityElem, picks: Elems)
    requires IsTurn(base, picks) && e.id != base[0].id && Known(base, e)
    ensures IsTurn(base, [e] + picks)
  {
    hide Known;
  }

  lemma IdOfMember(s: Elems, i: nat)
    requires i < |s|
    ensures s[i].id in Ids(s)
  {
  }

  lemma OneMoreCall(srt: Sorter, s: State, n: nat)
    ensures Stream(srt, s, n + 1) == [Next(srt, s).0] + Stream(srt, Next(srt, s).1, n)
    ensures After(srt, s, n + 1) == After(srt, Next(srt, s).1, n)
  {
  }

  lemma TurnStep(srt: Sorter, s: State)
    requires SortsBySpeed(srt) && WellFormed(s) && |s.base| > 1
    ensures var (e, s') := Next(srt, s);
            && WellFormed(s') && s'.base == OrderedBase(srt, s) != []
            && Known(s'.base, e)
            && (s'.turnStart <==> e.id == s'.base[0].id)
            && (s'.turnStart ==> TurnLength(srt, s) == 1)
            && (!s'.turnStart ==> TurnLength(srt, s) == 1 + TurnLength(srt, s'))
            && 0 <= Dyn.Sum(StoredSpeeds(s'.base, s.stored)[1..])
  {
    hide Next, OrderedBase, Find, StoredSpeeds, BaseSpeeds, Dyn.Roster, Dyn.Play;
    NextIsLegalPlay(srt, s);
    var (e, s') := Next(srt, s);
    var k := NextRank(srt, s);
    assert s'.base[k] in s'.base;
    ReturnedEntry(srt, s);
    Dyn.NonNegativeSum(StoredSpeeds(s'.base, s.stored)[1..]);
  }

  lemma StillKnown(srt: Sorter, s: State)
    requires SortsBySpeed(srt) && WellFormed(s)
    ensures var (e, s') := Next(srt, s);
            WellFormed(s') && Identities(s'.base) == Identities(s.base) && Known(s.base, e)
  {
    hide Next, OrderedBase, Identities;
    if |s.base| == 1 {
      AloneIsAlwaysNext(srt, s);
    } else {
      NextIsLegalPlay(srt, s);
      OrderedBaseIsRoster(srt, s);
      ReturnedEntry(srt, s);
    }
  }

  /** Over any number of calls only participants of the side are returned, each as the ally or
      contender it is, and the side stays the same. */
  lemma {:induction false} StreamIsKnown(srt: Sorter, s: State, n: nat)
    requires SortsBySpeed(srt) && WellFormed(s)
    ensures forall e :: e in Stream(srt, s, n) ==> Known(s.base, e)
    ensures var s' := After(srt, s, n);
            WellFormed(s') && Identities(s'.base) == Identities(s'.stored) == Identities(s.base)
    decreases n
  {
    hide Next, Identities;
    if n > 0 {
      StillKnown(srt, s);
      OneMoreCall(srt, s, n - 1);
      StreamIsKnown(srt, Next(srt, s).1, n - 1);
    }
  }

  // ----- who can be slowest and fastest

  /** The stored speeds by participant. */
  function Speeds(list: Elems): SB.Speeds {
    (id: nat) => SpeedOf(list, id)
  }

  ghost predicate Slowest(base: Elems, e: PriorityElem) {
    e in base && forall f :: f in base ==> e.speed <= f.speed
  }

  ghost predicate Fastest(base: Elems, e: PriorityElem) {
    e in base && forall f :: f in base ==> f.speed <= e.speed
  }

  ghost function SlowestIds(base: Elems): set<nat> {
    set e | e in base && Slowest(base, e) :: e.id
  }

  ghost function FastestIds(base: Elems): set<nat> {
    set e | e in base && Fastest(base, e) :: e.id
  }

  /** How many participants have the smallest or the largest base speed of their side. */
  ghost function ExtremeCount(base: Elems): nat {
    |SlowestIds(base) + FastestIds(base)|
  }

  /** A roster as a freshly built side holds it. */
  ghost predicate Built(base: Elems) {
    |base| > 1 && DistinctIds(base) && SpeedsAtLeast(base, 1) && Ascending(base)
  }

  /** Everybody tied for slowest may end a turn, everybody tied for fastest may be paid. */
  ghost function AnyOrder(base: Elems, extra: nat): SB.Side
    requires base != []
  {
    SB.Side(Ids(base), Speeds(base), base[|base| - 1].speed, SlowestIds(base), FastestIds(base), extra)
  }

  /** The order is never disturbed: only its ends count. */
  ghost function OneOrder(base: Elems, extra: nat): SB.Side
    requires base != []
  {
    SB.Side(Ids(base), Speeds(base), base[|base| - 1].speed, {base[0].id}, {base[|base| - 1].id}, extra)
  }

  /** The base list is one of the side's. */
  ghost predicate Seated(side: SB.Side, base: Elems) {
    && |base| > 1 && Ids(base) == side.ids
    && (forall id :: id in side.ids ==> SpeedOf(base, id) == side.base(id))
    && base[0].id in side.slow && base[|base| - 1].id in side.fast
    && base[|base| - 1].speed == side.fastest
  }

  /** The base list after the sorts of `n` turns. */
  ghost function Sorted(srt: Sorter, base: Elems, n: nat): Elems
    decreases n
  {
    if n == 0 then base else Sorted(srt, srt(base), n - 1)
  }

  /** The base list is one of the side's in every turn to come. */
  ghost predicate Steady(srt: Sorter, side: SB.Side, base: Elems) {
    forall n: nat :: Seated(side, Sorted(srt, base, n))
  }

  lemma SteadySorted(srt: Sorter, side: SB.Side, base: Elems)
    requires Steady(srt, side, base)
    ensures Seated(side, base) && Steady(srt, side, srt(base))
  {
    assert Sorted(srt, base, 0) == base;
    forall n: nat
      ensures Seated(side, Sorted(srt, srt(base), n))
    {
      assert Sorted(srt, base, n + 1) == Sorted(srt, srt(base), n);
    }
  }

  lemma EndsAreExtreme(base: Elems)
    requires base != [] && Ascending(base)
    ensures Slowest(base, base[0]) && Fastest(base, base[|base| - 1])
    ensures base[0].id in SlowestIds(base) && base[|base| - 1].id in FastestIds(base)
  {
  }

  lemma MemberSpeed(base: Elems, e: PriorityElem)
    requires DistinctIds(base) && Ascending(base) && e in base
    ensures SpeedOf(base, e.id) == e.speed && base[0].speed <= e.speed <= base[|base| - 1].speed
  {
    var i :| 0 <= i < |base| && base[i] == e;
    SpeedOfMember(base, i);
  }

  lemma ProperOrders(base: Elems, extra: nat)
    requires Built(base)
    ensures SB.Proper(AnyOrder(base, extra)) && SB.Proper(OneOrder(base, extra))
  {
    hide Find, SpeedOf;
    EndsAreExtreme(base);
    forall e | e in base
      ensures SpeedOf(base, e.id) == e.speed && base[0].speed <= e.speed <= base[|base| - 1].speed
    {
      MemberSpeed(base, e);
    }
  }

  lemma CountedOrders(base: Elems, extra: nat)
    requires Built(base)
    ensures SB.Extremes(AnyOrder(base, extra)) == ExtremeCount(base) >= 2
    ensures SB.Extremes(OneOrder(base, extra)) == 2
  {
    hide Speeds;
    EndsAreExtreme(base);
    var ends := {base[0].id, base[|base| - 1].id};
    assert {base[0].id} + {base[|base| - 1].id} == ends && |ends| == 2;
    SubsetSize(ends, SlowestIds(base) + FastestIds(base));
  }

  lemma SubsetSize(s: set<nat>, t: set<nat>)
    requires s <= t
    ensures |s| <= |t|
  {
    assert t == s + (t - s);
  }

  /** Sorting again keeps the side's base list one of its own, however ties are ordered. */
  lemma SeatedAnyOrder(base: Elems, again: Elems, extra: nat)
    requires Built(base) && multiset(again) == multiset(base) && Ascending(again)
    ensures Seated(AnyOrder(base, extra), again)
  {
    SameMembers(base, again);
    ReorderingKeepsSpeeds(base, again);
    EndsAreExtreme(base);
    EndsAreExtreme(again);
    assert Slowest(base, again[0]) && Fastest(base, again[|again| - 1]);
    assert base[|base| - 1] in again && again[|again| - 1] in base;
  }

  lemma {:induction false} SortedPermutes(srt: Sorter, base: Elems, n: nat)
    requires SortsBySpeed(srt) && Ascending(base)
    ensures multiset(Sorted(srt, base, n)) == multiset(base) && Ascending(Sorted(srt, base, n))
    decreases n
  {
    if n > 0 {
      assert IsSorting(base, srt(base));
      SortedPermutes(srt, srt(base), n - 1);
    }
  }

  lemma SteadyAnyOrder(srt: Sorter, base: Elems, again: Elems, extra: nat)
    requires SortsBySpeed(srt) && Built(base) && multiset(again) == multiset(base) && Ascending(again)
    ensures Steady(srt, AnyOrder(base, extra), again)
  {
    forall n: nat
      ensures Seated(AnyOrder(base, extra), Sorted(srt, again, n))
    {
      SortedPermutes(srt, again, n);
      SeatedAnyOrder(base, Sorted(srt, again, n), extra);
    }
  }

  lemma {:induction false} SortedSettled(srt: Sorter, base: Elems, n: nat)
    requires srt(base) == base
    ensures Sorted(srt, base, n) == base
    decreases n
  {
    if n > 0 {
      SortedSettled(srt, base, n - 1);
    }
  }

  lemma SteadyOneOrder(srt: Sorter, base: Elems, extra: nat)
    requires Built(base) && srt(base) == base
    ensures Steady(srt, OneOrder(base, extra), base)
  {
    forall n: nat
      ensures Seated(OneOrder(base, extra), Sorted(srt, base, n))
    {
      SortedSettled(srt, base, n);
    }
  }

  // ----- calls seen as moves

  ghost predicate Running(srt: Sorter, side: SB.Side, s: State) {
    && WellFormed(s) && |s.base| > 1
    && SB.Proper(side) && Steady(srt, side, OrderedBase(srt, s))
  }

  /** One call is one move of the side, for every sorting routine. */
  lemma NextIsMove(srt: Sorter, side: SB.Side, s: State) returns (p: nat)
    requires SortsBySpeed(srt) && Running(srt, side, s)
    ensures var (e, s') := Next(srt, s);
            && SB.Move(side, Speeds(s.stored), Speeds(s'.stored), e.id, p, s'.turnStart)
            && Running(srt, side, s') && |s'.base| == |s.base|
  {
    hide Next, OrderedBase, Find, SpeedOf, WellFormed, SB.Proper;
    NextIsLegalPlay(srt, s);
    OrderedBaseIsRoster(srt, s);
    var (e, s') := Next(srt, s);
    var base, k := OrderedBase(srt, s), NextRank(srt, s);
    SteadySorted(srt, side, base);
    StillSteady(srt, side, s, s');
    var b, v := BaseSpeeds(base), StoredSpeeds(base, s.stored);
    p := base[if k == 0 then |base| - 1 else k - 1].id;
    Dyn.PlayKeepsLive(b, v, k);
    RankIsId(srt, s);
    MoveByRank(side, base, s.stored, s'.stored, k);
  }

  lemma StillSteady(srt: Sorter, side: SB.Side, s: State, s': State)
    requires Steady(srt, side, OrderedBase(srt, s)) && s'.base == OrderedBase(srt, s)
    ensures Steady(srt, side, OrderedBase(srt, s'))
  {
    SteadySorted(srt, side, s'.base);
  }

  lemma RankIsId(srt: Sorter, s: State)
    requires SortsBySpeed(srt) && WellFormed(s) && |s.base| > 1
    ensures NextRank(srt, s) < |OrderedBase(srt, s)|
    ensures OrderedBase(srt, s)[NextRank(srt, s)].id == Next(srt, s).0.id
  {
    hide Next, OrderedBase;
    NextIsLegalPlay(srt, s);
  }

  lemma MoveByRank(side: SB.Side, base: Elems, stored: Elems, later: Elems, k: nat)
    requires Seated(side, base) && DistinctIds(base)
    requires Dyn.Roster(BaseSpeeds(base)) && Dyn.Live(StoredSpeeds(base, stored))
    requires Dyn.Pickable(StoredSpeeds(base, stored), k)
    requires StoredSpeeds(base, later) == Dyn.Play(BaseSpeeds(base), StoredSpeeds(base, stored), k)
    ensures k < |base|
    ensures var p := base[if k == 0 then |base| - 1 else k - 1].id;
            SB.Move(side, Speeds(stored), Speeds(later), base[k].id, p, k == 0)
  {
    hide Find, SpeedOf, Dyn.Play, Dyn.Debit, Dyn.Roster;
    var b, v, w := BaseSpeeds(base), StoredSpeeds(base, stored), StoredSpeeds(base, later);
    var p := base[if k == 0 then |base| - 1 else k - 1].id;
    Dyn.PlayKeepsLive(b, v, k);
    forall id | id in side.ids
      ensures 0 <= SpeedOf(stored, id) <= SpeedOf(stored, base[k].id)
      ensures SpeedOf(later, id)
           == (if id == base[k].id then SpeedOf(stored, id) - Dyn.Price(SpeedOf(stored, p)) else SpeedOf(stored, id))
            + (if k == 0 then side.base(id) + side.fastest else 0)
    {
      var i := IdRank(base, id);
      PlayAt(b, v, k, i);
      assert v[i] == SpeedOf(stored, id) && w[i] == SpeedOf(later, id);
      assert i != k ==> base[i].id != base[k].id;
    }
    assert base[k] in base && base[if k == 0 then |base| - 1 else k - 1] in base;
  }

  lemma PlayAt(b: seq<int>, v: seq<int>, k: nat, i: nat)
    requires k < |v| == |b| && i < |v|
    ensures Dyn.Play(b, v, k)[i]
         == (if i == k then v[i] - Dyn.Price(v[if k == 0 then |v| - 1 else k - 1]) else v[i])
          + (if k == 0 then b[i] + Dyn.Top(b) else 0)
    ensures Dyn.Debit(v, k) == Dyn.Price(v[if k == 0 then |v| - 1 else k - 1])
  {
  }

  lemma IdRank(base: Elems, id: nat) returns (i: nat)
    requires DistinctIds(base) && id in Ids(base)
    ensures i < |base| && base[i].id == id && SpeedOf(base, id) == base[i].speed
  {
    var e :| e in base && e.id == id;
    i :| 0 <= i < |base| && base[i] == e;
    SpeedOfMember(base, i);
  }
}
