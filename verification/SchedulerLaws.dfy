/**
 What the scheduler promises over whole runs, for every sorting routine: stored speeds stay
 within a fixed multiple of the fastest base speed, and nobody waits longer than a fixed
 number of turns and calls.
 */
module SchedulerLaws {
  import opened PriorityLists
  import opened SimpleScheduler
  import opened SchedulerRuns
  import Dyn = SpeedDynamics
  import SB = SpeedBounds

  /** The state of a freshly built side: stored speeds are the base speeds. */
  function Fresh(base: Elems): State {
    State(base, base, true)
  }

  /** Everybody on the list holds a speed from 0 to `bound`. */
  ghost predicate Within(stored: Elems, bound: int) {
    forall e :: e in stored ==> 0 <= e.speed <= bound
  }

  // ----- stored speeds

  lemma {:induction false} RunStaysBounded(srt: Sorter, side: SB.Side, s: State, n: nat)
    requires SortsBySpeed(srt) && Running(srt, side, s) && SB.Bounded(side, Speeds(s.stored))
    ensures var s' := After(srt, s, n);
            Running(srt, side, s') && SB.Bounded(side, Speeds(s'.stored)) && |s'.base| == |s.base|
    decreases n
  {
    hide Next, Running, SB.Bounded, SB.Move;
    if n > 0 {
      var (e, s') := Next(srt, s);
      var p := NextIsMove(srt, side, s);
      RunningIsProper(srt, side, s);
      SB.MoveKeepsBounded(side, Speeds(s.stored), Speeds(s'.stored), e.id, p, s'.turnStart);
      RunStaysBounded(srt, side, s', n - 1);
    }
  }

  lemma RunningIsProper(srt: Sorter, side: SB.Side, s: State)
    requires Running(srt, side, s)
    ensures SB.Proper(side) && Seated(side, OrderedBase(srt, s)) && WellFormed(s) && |s.base| > 1
  {
    SteadySorted(srt, side, OrderedBase(srt, s));
  }

  /** A state from which the laws are stated: its base list is `base` in some order, and nobody
      holds more than the fastest base speed and `extra`.  Freshly built sides start without
      any extra; others do after participants have joined or left. */
  ghost predicate Started(srt: Sorter, base: Elems, s: State, extra: nat) {
    && WellFormed(s) && Built(base) && multiset(OrderedBase(srt, s)) == multiset(base)
    && Within(s.stored, base[|base| - 1].speed + extra)
  }

  /** Besides, its base list is `base` and sorting leaves it alone. */
  ghost predicate StartedInOrder(srt: Sorter, base: Elems, s: State, extra: nat) {
    Started(srt, base, s, extra) && OrderedBase(srt, s) == base && srt(base) == base
  }

  lemma FreshIsStarted(srt: Sorter, base: Elems)
    requires SortsBySpeed(srt) && Built(base)
    ensures Started(srt, base, Fresh(base), 0)
    ensures srt(base) == base ==> StartedInOrder(srt, base, Fresh(base), 0)
  {
    hide Find;
    assert IsSorting(base, srt(base));
    forall e | e in base
      ensures 1 <= e.speed <= base[|base| - 1].speed
    {
      MemberSpeed(base, e);
    }
  }

  lemma StartedWithin(srt: Sorter, base: Elems, s: State, extra: nat)
    requires SortsBySpeed(srt) && Started(srt, base, s, extra)
    ensures |s.base| == |base| > 1 && Ascending(OrderedBase(srt, s))
    ensures forall id :: id in Ids(base) ==> 0 <= SpeedOf(s.stored, id) <= base[|base| - 1].speed + extra
  {
    hide Within, OrderedBase, Find, SpeedOf;
    OrderedBaseIsRoster(srt, s);
    var again := OrderedBase(srt, s);
    SameMembers(again, base);
    forall id | id in Ids(base)
      ensures 0 <= SpeedOf(s.stored, id) <= base[|base| - 1].speed + extra
    {
      StoredOf(again, s.stored, base[|base| - 1].speed + extra, id);
    }
  }

  lemma StartedIsRunning(srt: Sorter, base: Elems, s: State, extra: nat)
    requires SortsBySpeed(srt) && Started(srt, base, s, extra)
    ensures |s.base| == |base| > 1
    ensures Running(srt, AnyOrder(base, extra), s) && SB.Bounded(AnyOrder(base, extra), Speeds(s.stored))
    ensures StartedInOrder(srt, base, s, extra) ==>
              Running(srt, OneOrder(base, extra), s) && SB.Bounded(OneOrder(base, extra), Speeds(s.stored))
  {
    hide SB.Proper, SB.Bounded, Steady, SB.Extremes, Within, OrderedBase, SpeedOf, WellFormed;
    StartedWithin(srt, base, s, extra);
    ProperOrders(base, extra);
    CountedOrders(base, extra);
    SteadyAnyOrder(srt, base, OrderedBase(srt, s), extra);
    assert base[|base| - 1] in base;
    SB.StartIsBounded(AnyOrder(base, extra), Speeds(s.stored));
    if StartedInOrder(srt, base, s, extra) {
      SteadyOneOrder(srt, base, extra);
      SB.StartIsBounded(OneOrder(base, extra), Speeds(s.stored));
    }
  }

  lemma StoredOf(base: Elems, stored: Elems, bound: int, id: nat)
    requires SameRoster(base, stored) && Within(stored, bound) && id in Ids(base)
    ensures 0 <= SpeedOf(stored, id) <= bound
  {
    hide Find, SpeedOf;
    var i := IdRank(base, id);
    var e := RosterRank(base, stored, i);
    RosterMember(base, stored, e);
  }

  lemma BoundedList(srt: Sorter, side: SB.Side, s: State, e: PriorityElem)
    requires SortsBySpeed(srt) && Running(srt, side, s) && SB.Bounded(side, Speeds(s.stored)) && e in s.stored
    ensures e.id in side.ids && e.speed == SpeedOf(s.stored, e.id)
    ensures 0 <= e.speed <= SB.Ceiling(side)
    ensures e.id in side.slow + side.fast ==> e.speed <= SB.Cap(side, 1)
  {
    hide Find, SB.Cap, SB.LowCap, SB.Extremes, OrderedBase;
    RunningIsProper(srt, side, s);
    OrderedBaseIsRoster(srt, s);
    var base := OrderedBase(srt, s);
    RosterMember(base, s.stored, e);
    assert base[Find(base, e.id)] in base;
    if e.id in side.slow + side.fast {
      SB.CapOfOne(side, Speeds(s.stored), e.id);
    }
  }

  lemma {:induction false} RunIsWithin(srt: Sorter, side: SB.Side, s: State, n: nat)
    requires SortsBySpeed(srt) && Running(srt, side, s) && SB.Bounded(side, Speeds(s.stored))
    ensures Within(After(srt, s, n).stored, SB.Ceiling(side))
    ensures forall e :: e in After(srt, s, n).stored && e.id in side.slow + side.fast ==> e.speed <= SB.Cap(side, 1)
  {
    hide Next, After, Running, SB.Bounded, SB.Ceiling, SB.Cap;
    RunStaysBounded(srt, side, s, n);
    forall e | e in After(srt, s, n).stored
      ensures 0 <= e.speed <= SB.Ceiling(side)
      ensures e.id in side.slow + side.fast ==> e.speed <= SB.Cap(side, 1)
    {
      BoundedList(srt, side, After(srt, s, n), e);
    }
  }

  /** What a side can hold, in terms of its fastest base speed and of how many participants are
      slowest or fastest. */
  ghost function SpeedCeiling(base: Elems): int
    requires base != []
  {
    var N, F := ExtremeCount(base), base[|base| - 1].speed;
    (3 * N * N - 3 * N + 4) * F
  }

  lemma CeilingIs(side: SB.Side, n: nat)
    requires SB.Extremes(side) == n
    ensures SB.Cap(side, 1) == (3 * n * n - 3 * n + 2) * side.fastest + side.extra
    ensures SB.Ceiling(side) == (3 * n * n - 3 * n + 4) * side.fastest + side.extra
  {
    assert SB.Multiple(n, 1) == 3 * n * n - 3 * n + 2;
  }

  lemma AnyOrderIs(base: Elems, extra: nat)
    requires Built(base)
    ensures var side := AnyOrder(base, extra);
            && side.ids == Ids(base) && side.slow == SlowestIds(base) && side.fast == FastestIds(base)
            && SB.Ceiling(side) == SpeedCeiling(base) + extra
            && SB.Cap(side, 1) == SpeedCeiling(base) + extra - 2 * base[|base| - 1].speed
  {
    hide SB.Ceiling, SB.Cap, SB.Extremes, SlowestIds, FastestIds, ExtremeCount;
    CountedOrders(base, extra);
    CeilingIs(AnyOrder(base, extra), ExtremeCount(base));
  }

  /** No drift.  From any state on, after any number of calls and however equal speeds are sorted,
      every stored speed lies between 0 and a multiple of the fastest base speed that depends only
      on how many participants are slowest or fastest, and what was stored beyond it at first. */
  lemma NoDriftFrom(srt: Sorter, base: Elems, s: State, extra: nat, n: nat)
    requires SortsBySpeed(srt) && Started(srt, base, s, extra)
    ensures Within(After(srt, s, n).stored, SpeedCeiling(base) + extra)
    ensures forall e :: e in After(srt, s, n).stored && e.id in SlowestIds(base) + FastestIds(base) ==>
              e.speed <= SpeedCeiling(base) + extra - 2 * base[|base| - 1].speed
  {
    hide Next, After, Running, SB.Bounded, SB.Cap, SB.Ceiling, SlowestIds, FastestIds, SpeedCeiling, AnyOrder;
    StartedIsRunning(srt, base, s, extra);
    AnyOrderIs(base, extra);
    RunIsWithin(srt, AnyOrder(base, extra), s, n);
  }

  /** From construction on there is nothing beyond the multiple. */
  lemma NoDrift(srt: Sorter, base: Elems, n: nat)
    requires SortsBySpeed(srt) && Built(base)
    ensures var N, F := ExtremeCount(base), base[|base| - 1].speed;
            && Within(After(srt, Fresh(base), n).stored, (3 * N * N - 3 * N + 4) * F)
            && forall e :: e in After(srt, Fresh(base), n).stored && e.id in SlowestIds(base) + FastestIds(base) ==>
                 e.speed <= (3 * N * N - 3 * N + 2) * F
  {
    hide Next, After, Started, SlowestIds, FastestIds, ExtremeCount;
    FreshIsStarted(srt, base);
    NoDriftFrom(srt, base, Fresh(base), 0, n);
  }

  /** Ten times the fastest base speed is enough when only two participants are slowest or
      fastest, for every sorting routine, and on every side whose sorted order the routine
      leaves alone. */
  lemma TenTimesFrom(srt: Sorter, base: Elems, s: State, extra: nat, n: nat)
    requires SortsBySpeed(srt) && Started(srt, base, s, extra)
    requires ExtremeCount(base) == 2 || StartedInOrder(srt, base, s, extra)
    ensures Within(After(srt, s, n).stored, 10 * base[|base| - 1].speed + extra)
  {
    hide Next, After, Running, SB.Bounded, SB.Cap, SB.Ceiling, SlowestIds, FastestIds, ExtremeCount;
    if StartedInOrder(srt, base, s, extra) {
      StartedIsRunning(srt, base, s, extra);
      CountedOrders(base, extra);
      CeilingIs(OneOrder(base, extra), 2);
      RunIsWithin(srt, OneOrder(base, extra), s, n);
    } else {
      NoDriftFrom(srt, base, s, extra, n);
    }
  }

  lemma TenTimes(srt: Sorter, base: Elems, n: nat)
    requires SortsBySpeed(srt) && Built(base)
    requires ExtremeCount(base) == 2 || srt(base) == base
    ensures Within(After(srt, Fresh(base), n).stored, 10 * base[|base| - 1].speed)
  {
    hide Next, After, Started, Within, ExtremeCount;
    FreshIsStarted(srt, base);
    TenTimesFrom(srt, base, Fresh(base), 0, n);
  }

  /** Distinct base speeds leave the sorting routine no choice. */
  lemma DistinctSpeedsAreLeftAlone(srt: Sorter, base: Elems)
    requires SortsBySpeed(srt) && StrictlyAscending(base)
    ensures srt(base) == base
  {
    assert IsSorting(base, srt(base));
    SortingIsForced(base, srt(base));
  }

  // ----- waiting

  ghost predicate NeverPlays(picks: Elems, id: nat) {
    forall i :: 0 <= i < |picks| ==> picks[i].id != id
  }

  /** Turns completed by the next `n` calls. */
  function TurnsEnded(srt: Sorter, s: State, n: nat): nat
    decreases n
  {
    if n == 0 then 0 else
    var s' := Next(srt, s).1;
    (if s'.turnStart then 1 else 0) + TurnsEnded(srt, s', n - 1)
  }

  lemma NeverPlaysNext(srt: Sorter, s: State, n: nat, id: nat)
    requires n > 0 && NeverPlays(Stream(srt, s, n), id)
    ensures Next(srt, s).0.id != id && NeverPlays(Stream(srt, Next(srt, s).1, n - 1), id)
  {
    hide Next;
    OneMoreCall(srt, s, n - 1);
    var picks, rest := Stream(srt, s, n), Stream(srt, Next(srt, s).1, n - 1);
    assert picks[0].id != id;
    assert forall i :: 0 <= i < |rest| ==> rest[i] == picks[i + 1];
  }

  /** While a participant is not returned, no more turns complete than those who may end one
      lead it by. */
  lemma {:induction false} TurnsAtMostLeads(srt: Sorter, side: SB.Side, s: State, n: nat, g: seq<nat>, id: nat)
    requires SortsBySpeed(srt) && Running(srt, side, s) && id in side.ids
    requires NeverPlays(Stream(srt, s, n), id)
    requires forall i :: i in g ==> i in side.slow
    requires forall i :: i in side.slow && i != id ==> i in g
    ensures TurnsEnded(srt, s, n) <= SB.Leads(Speeds(s.stored), g, id)
    decreases n
  {
    hide Next, Stream, Running, NeverPlays, SB.Move, SB.Leads;
    if n > 0 {
      var (e, s') := Next(srt, s);
      var p := NextIsMove(srt, side, s);
      RunningIsProper(srt, side, s);
      NeverPlaysNext(srt, s, n, id);
      SB.LeadsAfterMove(side, Speeds(s.stored), Speeds(s'.stored), e.id, p, s'.turnStart, g, id);
      TurnsAtMostLeads(srt, side, s', n - 1, g, id);
    }
  }

  /** The slowest participants other than `id`. */
  function SlowOthers(base: Elems, slowest: int, id: nat): seq<nat> {
    if base == [] then []
    else
      (if base[0].speed == slowest && base[0].id != id then [base[0].id] else [])
      + SlowOthers(base[1..], slowest, id)
  }

  lemma {:induction false} SlowOthersAre(base: Elems, slowest: int, id: nat)
    requires DistinctIds(base)
    ensures SB.Distinct(SlowOthers(base, slowest, id))
    ensures forall i :: i in SlowOthers(base, slowest, id) <==>
              i != id && exists e :: e in base && e.speed == slowest && e.id == i
    decreases |base|
  {
    if base != [] {
      SlowOthersAre(base[1..], slowest, id);
      assert base == [base[0]] + base[1..];
      assert forall e :: e in base[1..] ==> e.id != base[0].id;
      assert base[0].id !in SlowOthers(base[1..], slowest, id);
    }
  }

  /** By how much the slowest of the turn, and all who equal it, lead a participant. */
  function LeadOver(srt: Sorter, s: State, id: nat): nat {
    var base := OrderedBase(srt, s);
    if base == [] then 0 else SB.Leads(Speeds(s.stored), SlowOthers(base, base[0].speed, id), id)
  }

  lemma OthersAreSlow(base: Elems, id: nat)
    requires Built(base)
    ensures var g := SlowOthers(base, base[0].speed, id);
            && SB.Distinct(g) && (forall i :: i in g <==> i in SlowestIds(base) && i != id)
  {
    SlowOthersAre(base, base[0].speed, id);
    EndsAreExtreme(base);
  }

  lemma RunningAnyOrder(srt: Sorter, s: State)
    requires SortsBySpeed(srt) && WellFormed(s) && |s.base| > 1
    ensures Built(OrderedBase(srt, s)) && Running(srt, AnyOrder(OrderedBase(srt, s), 0), s)
    ensures Ids(OrderedBase(srt, s)) == Ids(s.base)
  {
    hide OrderedBase, SB.Proper, Steady;
    OrderedBaseIsRoster(srt, s);
    ProperOrders(OrderedBase(srt, s), 0);
    SteadyAnyOrder(srt, OrderedBase(srt, s), OrderedBase(srt, s), 0);
  }

  /** No starvation, from any state, on any side and for every sorting routine: while a
      participant is not returned, at most as many turns complete as the slowest participants
      lead it by. */
  lemma NoStarvation(srt: Sorter, s: State, n: nat, id: nat)
    requires SortsBySpeed(srt) && WellFormed(s) && |s.base| > 1 && id in Ids(s.base)
    requires NeverPlays(Stream(srt, s, n), id)
    ensures TurnsEnded(srt, s, n) <= LeadOver(srt, s, id)
  {
    hide Next, Stream, Running, NeverPlays, OrderedBase, TurnsEnded;
    RunningAnyOrder(srt, s);
    var base := OrderedBase(srt, s);
    OthersAreSlow(base, id);
    TurnsAtMostLeads(srt, AnyOrder(base, 0), s, n, SlowOthers(base, base[0].speed, id), id);
  }

  /** With one slowest participant that is max(0, l - x + 1) for the two stored speeds, and
      nothing for the slowest itself. */
  lemma LeadOfOneSlowest(srt: Sorter, s: State, id: nat)
    requires SortsBySpeed(srt) && WellFormed(s) && |s.base| > 1
    requires var base := OrderedBase(srt, s); |base| > 1 && base[0].speed < base[1].speed
    ensures var l := OrderedBase(srt, s)[0].id;
            LeadOver(srt, s, id)
            == if id == l then 0 else SB.Max(0, SpeedOf(s.stored, l) - SpeedOf(s.stored, id) + 1)
  {
    hide OrderedBase, WellFormed, SpeedOf;
    OrderedBaseIsRoster(srt, s);
    var base := OrderedBase(srt, s);
    NobodySlow(base[1..], base[0].speed, id);
    LeadOfOne(Speeds(s.stored), base[0].id, id);
  }

  lemma LeadOfOne(v: SB.Speeds, l: nat, x: nat)
    ensures SB.Leads(v, [l], x) == SB.Max(0, v(l) - v(x) + 1)
  {
    assert [l][1..] == [];
  }

  lemma {:induction false} NobodySlow(base: Elems, slowest: int, id: nat)
    requires forall e :: e in base ==> slowest < e.speed
    ensures SlowOthers(base, slowest, id) == []
    decreases |base|
  {
    if base != [] {
      NobodySlow(base[1..], slowest, id);
    }
  }

  /** The same bound when the routine leaves the sorted order alone, whoever is tied. */
  lemma NoStarvationInOneOrder(srt: Sorter, s: State, n: nat, id: nat)
    requires SortsBySpeed(srt) && WellFormed(s) && |s.base| > 1 && Ascending(s.base) && srt(s.base) == s.base
    requires id in Ids(s.base) && NeverPlays(Stream(srt, s, n), id)
    ensures var l := s.base[0].id;
            TurnsEnded(srt, s, n)
            <= if id == l then 0 else SB.Max(0, SpeedOf(s.stored, l) - SpeedOf(s.stored, id) + 1)
  {
    hide Next, Stream, NeverPlays, TurnsEnded, SB.Proper, Steady, SpeedOf;
    var side, l := OneOrder(s.base, 0), s.base[0].id;
    ProperOrders(s.base, 0);
    SteadyOneOrder(srt, s.base, 0);
    LeadOfOne(Speeds(s.stored), l, id);
    TurnsAtMostLeads(srt, side, s, n, if id == l then [] else [l], id);
  }

  // ----- waiting, with one bound for the whole battle

  /** The largest number of calls a turn can take once speeds are within `ceiling`. */
  function TurnCap(size: nat, ceiling: int): int {
    1 + (size - 1) * ceiling
  }

  /** The speed the faster participants have left for this turn. */
  ghost function Left(srt: Sorter, s: State): int {
    var v := StoredSpeeds(OrderedBase(srt, s), s.stored);
    if v == [] then 0 else Dyn.Sum(v[1..])
  }

  lemma LeftBounded(srt: Sorter, side: SB.Side, s: State)
    requires SortsBySpeed(srt) && Running(srt, side, s) && SB.Bounded(side, Speeds(s.stored))
    ensures 0 <= Left(srt, s) <= (|s.base| - 1) * SB.Ceiling(side)
  {
    hide Find, SpeedOf, SB.Ceiling, SB.Extremes, OrderedBase;
    RunningIsProper(srt, side, s);
    OrderedBaseIsRoster(srt, s);
    var base := OrderedBase(srt, s);
    var v := StoredSpeeds(base, s.stored);
    forall i | 0 <= i < |v|
      ensures 0 <= v[i] <= SB.Ceiling(side)
    {
      assert base[i] in base && base[i].id in side.ids;
      assert v[i] == Speeds(s.stored)(base[i].id);
    }
    Dyn.SumBounds(v[1..], SB.Ceiling(side));
  }

  lemma LeftAfterCall(srt: Sorter, side: SB.Side, s: State)
    requires SortsBySpeed(srt) && Running(srt, side, s) && !Next(srt, s).1.turnStart
    ensures Left(srt, Next(srt, s).1) < Left(srt, s)
  {
    hide Next, StoredSpeeds, Dyn.Sum;
    MidTurnSpends(srt, s);
  }

  /** Calls are at most what is left of this turn and a full turn for each one completed. */
  lemma {:induction false} CallsAtMost(srt: Sorter, side: SB.Side, s: State, n: nat)
    requires SortsBySpeed(srt) && Running(srt, side, s) && SB.Bounded(side, Speeds(s.stored))
    ensures n <= Left(srt, s)
                 + TurnsEnded(srt, s, n) * TurnCap(|s.base|, SB.Ceiling(side))
    decreases n
  {
    hide Next, Left, Running, SB.Bounded, SB.Move, SB.Ceiling, SB.Extremes, SB.Proper;
    LeftBounded(srt, side, s);
    if n > 0 {
      var (e, s') := Next(srt, s);
      var p := NextIsMove(srt, side, s);
      RunningIsProper(srt, side, s);
      SB.MoveKeepsBounded(side, Speeds(s.stored), Speeds(s'.stored), e.id, p, s'.turnStart);
      CallsAtMost(srt, side, s', n - 1);
      LeftBounded(srt, side, s');
      if s'.turnStart {
        OneTurnMore(TurnsEnded(srt, s', n - 1), TurnCap(|s.base|, SB.Ceiling(side)));
      } else {
        LeftAfterCall(srt, side, s);
      }
    }
  }

  lemma OneTurnMore(turns: int, cap: int)
    ensures (1 + turns) * cap == cap + turns * cap
  {
  }

  /** A window of calls without `id`, for either way of looking at the side's order; `g` lists
      the others who may end a turn. */
  lemma WindowIsShort(srt: Sorter, side: SB.Side, s: State, g: seq<nat>, m: nat, n: nat, id: nat)
    requires SortsBySpeed(srt) && Running(srt, side, s) && SB.Bounded(side, Speeds(s.stored)) && s.base != []
    requires id in side.ids && SB.Distinct(g) && forall i :: i in g <==> i in side.slow && i != id
    requires NeverPlays(Stream(srt, After(srt, s, m), n), id)
    ensures var turns := SB.Cap(side, |g|) + |g|;
            && TurnsEnded(srt, After(srt, s, m), n) <= turns
            && n < (turns + 1) * TurnCap(|s.base|, SB.Ceiling(side))
  {
    hide Next, Stream, After, Running, NeverPlays, TurnsEnded, Left, SB.Bounded, SB.Cap, SB.Ceiling;
    var t := After(srt, s, m);
    RunStaysBounded(srt, side, s, m);
    TurnsInWindow(srt, side, t, g, n, id);
    CallsAtMost(srt, side, t, n);
    LeftBounded(srt, side, t);
    FewerCalls(TurnsEnded(srt, t, n), SB.Cap(side, |g|) + |g|, |s.base| - 1, SB.Ceiling(side), Left(srt, t), n);
  }

  lemma TurnsInWindow(srt: Sorter, side: SB.Side, s: State, g: seq<nat>, n: nat, id: nat)
    requires SortsBySpeed(srt) && Running(srt, side, s) && SB.Bounded(side, Speeds(s.stored))
    requires id in side.ids && SB.Distinct(g) && forall i :: i in g <==> i in side.slow && i != id
    requires NeverPlays(Stream(srt, s, n), id)
    ensures TurnsEnded(srt, s, n) <= SB.Cap(side, |g|) + |g|
  {
    hide Next, Stream, Running, NeverPlays, TurnsEnded, SB.Bounded, SB.Proper, SB.Cap, SB.Leads, SB.Extremes;
    RunningIsProper(srt, side, s);
    TurnsAtMostLeads(srt, side, s, n, g, id);
    SB.LeadsBounded(side, Speeds(s.stored), g, id);
  }

  /** Fairness with one bound for the whole battle, for every side and every sorting routine.
      However long the side has been running, a window of calls in which some participant is not
      returned holds at most as many turns as the other slowest ones can ever lead it by, and
      fewer calls than that many full turns and one more. */
  lemma UniformFairnessFrom(srt: Sorter, base: Elems, s: State, extra: nat, m: nat, n: nat, id: nat)
    requires SortsBySpeed(srt) && Started(srt, base, s, extra) && id in Ids(base)
    requires NeverPlays(Stream(srt, After(srt, s, m), n), id)
    ensures TurnsEnded(srt, After(srt, s, m), n) <= WaitInTurns(base, extra, id)
    ensures n < (WaitInTurns(base, extra, id) + 1) * TurnCap(|base|, SpeedCeiling(base) + extra)
  {
    hide *;
    StartedIsRunning(srt, base, s, extra);
    StartedIsBuilt(srt, base, s, extra);
    AnyOrderIs(base, extra);
    OthersAreSlow(base, id);
    WaitIs(base, extra, id);
    WindowIsShort(srt, AnyOrder(base, extra), s, SlowOthers(base, base[0].speed, id), m, n, id);
  }

  lemma StartedIsBuilt(srt: Sorter, base: Elems, s: State, extra: nat)
    requires Started(srt, base, s, extra)
    ensures Built(base) && |base| > 1
  {
  }

  lemma WaitIs(base: Elems, extra: nat, id: nat)
    requires base != []
    ensures var g := SlowOthers(base, base[0].speed, id);
            WaitInTurns(base, extra, id) == SB.Cap(AnyOrder(base, extra), |g|) + |g|
  {
  }

  lemma UniformFairness(srt: Sorter, base: Elems, m: nat, n: nat, id: nat)
    requires SortsBySpeed(srt) && Built(base) && id in Ids(base)
    requires NeverPlays(Stream(srt, After(srt, Fresh(base), m), n), id)
    ensures TurnsEnded(srt, After(srt, Fresh(base), m), n) <= WaitInTurns(base, 0, id)
    ensures n < (WaitInTurns(base, 0, id) + 1) * TurnCap(|base|, SpeedCeiling(base))
  {
    hide Next, Stream, After, NeverPlays, TurnsEnded, TurnCap, Started, SpeedCeiling, WaitInTurns;
    FreshIsStarted(srt, base);
    UniformFairnessFrom(srt, base, Fresh(base), 0, m, n, id);
  }

  /** The sharper bound when the routine leaves the sorted order alone, whoever is tied. */
  lemma UniformFairnessInOneOrder(srt: Sorter, base: Elems, s: State, extra: nat, m: nat, n: nat, id: nat)
    requires SortsBySpeed(srt) && StartedInOrder(srt, base, s, extra) && id in Ids(base)
    requires NeverPlays(Stream(srt, After(srt, s, m), n), id)
    ensures var F := base[|base| - 1].speed;
            && TurnsEnded(srt, After(srt, s, m), n) <= 8 * F + extra + 1
            && n < (8 * F + extra + 2) * TurnCap(|base|, 10 * F + extra)
  {
    hide *;
    InOrderIsBuilt(srt, base, s, extra);
    var side, l := OneOrder(base, extra), base[0].id;
    StartedIsRunning(srt, base, s, extra);
    OneOrderIs(base, extra);
    OneIsDistinct(l);
    var g := if id == l then [] else [l];
    WindowIsShort(srt, side, s, g, m, n, id);
    OneOther(base, extra, g, n);
  }

  lemma InOrderIsBuilt(srt: Sorter, base: Elems, s: State, extra: nat)
    requires StartedInOrder(srt, base, s, extra)
    ensures Built(base) && |base| > 1 && Started(srt, base, s, extra)
  {
  }

  lemma OneIsDistinct(l: nat)
    ensures SB.Distinct([l]) && SB.Distinct([])
  {
  }

  lemma OneOrderIs(base: Elems, extra: nat)
    requires Built(base)
    ensures var side, F := OneOrder(base, extra), base[|base| - 1].speed;
            && side.ids == Ids(base) && side.slow == {base[0].id}
            && SB.Ceiling(side) == 10 * F + extra && SB.Cap(side, 1) == 8 * F + extra && SB.Cap(side, 0) == 0 && 1 <= F
  {
    hide SB.Ceiling, SB.Cap, SB.Extremes;
    CountedOrders(base, extra);
    CeilingIs(OneOrder(base, extra), 2);
    SB.NobodyHolds(OneOrder(base, extra), Speeds(base));
    assert base[|base| - 1] in base;
  }

  lemma OneOther(base: Elems, extra: nat, g: seq<nat>, n: nat)
    requires Built(base) && |g| <= 1
    requires n < (SB.Cap(OneOrder(base, extra), |g|) + |g| + 1) * TurnCap(|base|, 10 * base[|base| - 1].speed + extra)
    ensures var F := base[|base| - 1].speed;
            && SB.Cap(OneOrder(base, extra), |g|) + |g| <= 8 * F + extra + 1
            && n < (8 * F + extra + 2) * TurnCap(|base|, 10 * F + extra)
  {
    hide SB.Cap, OneOrder, TurnCap;
    OneOrderIs(base, extra);
    var cap := TurnCap(|base|, 10 * base[|base| - 1].speed + extra);
    TurnCapPositive(|base|, 10 * base[|base| - 1].speed + extra);
    SB.Scale(SB.Cap(OneOrder(base, extra), |g|) + |g| + 1, 8 * base[|base| - 1].speed + extra + 2, cap);
  }

  lemma TurnCapPositive(size: nat, ceiling: int)
    requires 1 <= size && 0 <= ceiling
    ensures 1 <= TurnCap(size, ceiling)
  {
    SB.Scale(0, ceiling, size - 1);
  }

  lemma FewerCalls(turns: int, most: int, others: nat, ceiling: int, left: int, n: int)
    requires turns <= most && 0 <= left <= others * ceiling && n <= left + turns * (1 + others * ceiling)
    ensures n < (most + 1) * (1 + others * ceiling)
  {
    SB.Scale(turns, most, 1 + others * ceiling);
  }

  /** The turns the other slowest participants can ever be ahead of `id`. */
  ghost function WaitInTurns(base: Elems, extra: nat, id: nat): int
    requires base != []
  {
    var others := |SlowOthers(base, base[0].speed, id)|;
    SB.Cap(AnyOrder(base, extra), others) + others
  }

  /** With two slowest or fastest participants: 8F + 1 turns, of speeds up to 10F. */
  lemma WaitWithTwoExtremes(base: Elems, extra: nat, id: nat)
    requires Built(base) && ExtremeCount(base) == 2 && id in Ids(base)
    ensures WaitInTurns(base, extra, id) <= 8 * base[|base| - 1].speed + extra + 1
    ensures SpeedCeiling(base) == 10 * base[|base| - 1].speed
  {
    hide ExtremeCount, SB.Cap, SB.Ceiling, SB.Extremes;
    CountedOrders(base, extra);
    CeilingIs(AnyOrder(base, extra), 2);
    SB.NobodyHolds(AnyOrder(base, extra), Speeds(base));
    OneSlowOther(base, id);
    assert base[|base| - 1] in base;
  }

  lemma OneSlowOther(base: Elems, id: nat)
    requires Built(base) && ExtremeCount(base) == 2 && id in Ids(base)
    ensures |SlowOthers(base, base[0].speed, id)| <= 1
  {
    hide ExtremeCount, SlowOthers;
    var g, extremes := SlowOthers(base, base[0].speed, id), SlowestIds(base) + FastestIds(base);
    assert |extremes| == 2 by { ExtremesCounted(base); }
    OthersAreSlow(base, id);
    EndsAreExtreme(base);
    var last := base[|base| - 1].id;
    if last in g {
      AllAreSlow(base, id);
      SB.DistinctFit(g, extremes - {id});
    } else {
      SB.DistinctFit(g, extremes - {last});
    }
  }

  lemma ExtremesCounted(base: Elems)
    ensures |SlowestIds(base) + FastestIds(base)| == ExtremeCount(base)
  {
  }

  /** When the last is among the slowest, everybody is. */
  lemma AllAreSlow(base: Elems, id: nat)
    requires Built(base) && base[|base| - 1].id in SlowestIds(base) && id in Ids(base)
    ensures id in SlowestIds(base)
  {
    hide Find;
    var i := IdRank(base, id);
    assert Slowest(base, base[|base| - 1]);
    assert Slowest(base, base[i]);
  }
}
