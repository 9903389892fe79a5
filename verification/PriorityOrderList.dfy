/**
 The scheduler as the arena keeps it: whole turns are generated in advance into a list that
 is reversed and popped from its end, and participants join and leave in between.
 */
module PriorityOrder {
  import opened PriorityLists
  import opened SimpleScheduler
  import opened SchedulerRuns
  import opened SchedulerLaws
  import Dyn = SpeedDynamics

  /** The next `n` participants when those in `queue` come first and the simple scheduler
      carries on from `s`. */
  ghost function Served(srt: Sorter, queue: Elems, s: State, n: nat): (picks: Elems)
    ensures |picks| == n
  {
    if n <= |queue| then queue[..n] else queue + Stream(srt, s, n - |queue|)
  }

  lemma ServedNothingQueued(srt: Sorter, s: State, n: nat)
    ensures Served(srt, [], s, n) == Stream(srt, s, n)
  {
  }

  lemma ServedFront(srt: Sorter, queue: Elems, s: State, n: nat)
    requires queue != []
    ensures Served(srt, queue, s, n + 1) == [queue[0]] + Served(srt, queue[1..], s, n)
  {
    hide Stream;
    var head, rest := queue[0], queue[1..];
    assert queue == [head] + rest;
    if n + 1 <= |queue| {
      FrontOf(head, rest, n);
    } else {
      Associative([head], rest, Stream(srt, s, n - |rest|));
    }
  }

  lemma FrontOf(head: PriorityElem, rest: Elems, n: nat)
    requires n <= |rest|
    ensures ([head] + rest)[..n + 1] == [head] + rest[..n]
  {
  }

  lemma Associative(s: Elems, t: Elems, u: Elems)
    ensures (s + t) + u == s + (t + u)
  {
  }

  /** Moving a generated stretch of the stream into the queue is unobservable. */
  lemma ServedAhead(srt: Sorter, s: State, k: nat, n: nat)
    ensures Served(srt, Stream(srt, s, k), After(srt, s, k), n) == Served(srt, [], s, n)
  {
    hide Stream, After;
    ServedNothingQueued(srt, s, n);
    if n <= k {
      StreamSplits(srt, s, n, k - n);
    } else {
      StreamSplits(srt, s, k, n - k);
    }
  }

  lemma ServedPastQueue(srt: Sorter, queue: Elems, s: State, n: nat)
    ensures Served(srt, queue, s, |queue| + n) == queue + Stream(srt, s, n)
  {
  }

  // ----- how the state behind the queue moves on

  ghost function OneTurnLater(srt: Sorter, s: State): State
    requires SortsBySpeed(srt) && WellFormed(s)
  {
    After(srt, s, TurnLength(srt, s))
  }

  ghost predicate Reached(srt: Sorter, s: State, t: State) {
    exists k: nat :: t == After(srt, s, k)
  }

  lemma ReachedLater(srt: Sorter, s: State, t: State, u: State, k: nat)
    requires Reached(srt, s, t) && u == After(srt, t, k)
    ensures Reached(srt, s, u)
  {
    hide Next, Stream, After;
    var j: nat :| t == After(srt, s, j);
    StreamSplits(srt, s, j, k);
  }

  lemma ReachedInTurns(srt: Sorter, s: State, t: State, u: State)
    requires SortsBySpeed(srt) && Reached(srt, s, t)
    requires u == t || (WellFormed(t) && u == OneTurnLater(srt, t))
    ensures Reached(srt, s, u)
  {
    hide Reached, WellFormed, SortsBySpeed;
    if u != t {
      ReachedLater(srt, s, t, u, TurnLength(srt, t));
    }
  }

  lemma ReachedAtOnce(srt: Sorter, s: State)
    ensures Reached(srt, s, s)
  {
    assert After(srt, s, 0) == s;
  }

  /** What fairness means for the calls on a list whose roster stays: once what is queued has
      been handed out, whatever that is, a window in which somebody of the side is not returned
      is short, wherever in the battle it lies. */
  lemma FairAfterQueue(srt: Sorter, queue: Elems, base: Elems, start: State, extra: nat, s: State,
                       m: nat, n: nat, id: nat)
    requires SortsBySpeed(srt) && Started(srt, base, start, extra) && id in Ids(base) && Reached(srt, start, s)
    requires NeverPlays(Served(srt, queue, s, |queue| + m + n)[|queue| + m..], id)
    ensures n < (WaitInTurns(base, extra, id) + 1) * TurnCap(|base|, SpeedCeiling(base) + extra)
    ensures var F := base[|base| - 1].speed;
            StartedInOrder(srt, base, start, extra) ==>
              n < (8 * F + extra + 2) * TurnCap(|base|, 10 * F + extra)
  {
    hide Next, Stream, After, WaitInTurns, TurnCap, SpeedCeiling, Served, NeverPlays, Started;
    StartedIsBuilt(srt, base, start, extra);
    var k: nat :| s == After(srt, start, k);
    ServedPastQueue(srt, queue, s, m + n);
    StreamSplits(srt, s, m, n);
    StreamSplits(srt, start, k, m);
    assert Served(srt, queue, s, |queue| + m + n)[|queue| + m..] == Stream(srt, After(srt, start, k + m), n);
    UniformFairnessFrom(srt, base, start, extra, k + m, n, id);
    if StartedInOrder(srt, base, start, extra) {
      UniformFairnessInOneOrder(srt, base, start, extra, k + m, n, id);
    }
  }

  /** A turn is the same whether the base list is sorted before it or in its first call. */
  lemma TurnFromSortedBase(srt: Sorter, s: State)
    requires SortsBySpeed(srt) && WellFormed(s) && s.turnStart
    ensures var mid := State(srt(s.base), s.stored, false);
            WellFormed(mid) && After(srt, mid, TurnLength(srt, mid)) == OneTurnLater(srt, s)
  {
    hide Next, OrderedBase, Dyn.Sum;
    var mid := State(srt(s.base), s.stored, false);
    BaseSortedBeforehand(srt, s);
    SameMembers(s.base, srt(s.base));
    var k := TurnLength(srt, s);
    assert TurnLength(srt, mid) == k;
    OneMoreCall(srt, s, k - 1);
    OneMoreCall(srt, mid, k - 1);
  }

  /** The bound on stored speeds for every state reached from a start. */
  lemma StoredWithin(srt: Sorter, base: Elems, start: State, extra: nat, s: State)
    requires SortsBySpeed(srt) && Started(srt, base, start, extra) && Reached(srt, start, s)
    ensures Within(s.stored, SpeedCeiling(base) + extra)
    ensures ExtremeCount(base) == 2 || StartedInOrder(srt, base, start, extra) ==>
              Within(s.stored, 10 * base[|base| - 1].speed + extra)
  {
    hide After, Within, ExtremeCount, SpeedCeiling;
    var k: nat :| s == After(srt, start, k);
    NoDriftFrom(srt, base, start, extra, k);
    if ExtremeCount(base) == 2 || StartedInOrder(srt, base, start, extra) {
      TenTimesFrom(srt, base, start, extra, k);
    }
  }

  // ----- topping up one participant at a time

  /** Stored speeds after the first `i` participants in base order have been topped up. */
  ghost function ToppedUpTo(base: Elems, stored: Elems, i: nat): (t: Elems)
    requires base != []
    ensures |t| == |stored|
    ensures forall j :: 0 <= j < |stored| ==>
              t[j].id == stored[j].id && t[j].isContender == stored[j].isContender
  {
    var top := base[|base| - 1].speed;
    seq(|stored|, j requires 0 <= j < |stored| =>
      if Find(base, stored[j].id) < i
      then stored[j].(speed := stored[j].speed + SpeedOf(base, stored[j].id) + top)
      else stored[j])
  }

  lemma RosterIds(base: Elems, stored: Elems)
    requires SameRoster(base, stored)
    ensures DistinctIds(base) && |base| == |stored|
  {
  }

  lemma WellFormedIds(s: State)
    requires WellFormed(s)
    ensures s.base != [] && DistinctIds(s.base) && |s.base| == |s.stored|
  {
  }

  lemma ToppedUpToStart(base: Elems, stored: Elems)
    requires base != []
    ensures ToppedUpTo(base, stored, 0) == stored
  {
  }

  lemma TopUpOne(base: Elems, stored: Elems, i: nat)
    requires SameRoster(base, stored) && i < |base|
    ensures var t, y := ToppedUpTo(base, stored, i), base[i].speed + base[|base| - 1].speed;
            var it := Find(t, base[i].id);
            it < |t| && ToppedUpTo(base, stored, i + 1) == WithSpeed(t, it, t[it].speed + y)
  {
    hide Find;
    var t, u := ToppedUpTo(base, stored, i), ToppedUpTo(base, stored, i + 1);
    SameIdsInPlace(base, stored, t);
    var it := Find(t, base[i].id);
    SpeedOfMember(base, i);
    forall j | 0 <= j < |stored|
      ensures j != it ==> u[j] == t[j]
    {
      if j != it {
        assert stored[j].id != stored[it].id;
        assert Find(base, stored[j].id) != i;
      }
    }
  }

  lemma ToppedUpToEnd(base: Elems, stored: Elems)
    requires SameRoster(base, stored) && base != []
    ensures ToppedUpTo(base, stored, |base|) == ToppedUp(base, stored)
  {
    forall j | 0 <= j < |stored|
      ensures Find(base, stored[j].id) < |base|
    {
      RosterMember(base, stored, stored[j]);
    }
  }

  // ----- one step of turn generation

  /** A call of the simple scheduler in the middle of a turn, taken apart the way the code
      takes its steps. */
  lemma CallStep(srt: Sorter, s: State)
    requires SortsBySpeed(srt) && WellFormed(s) && !s.turnStart
    ensures var order := Order(srt, s.base, s.stored);
            order != [] && SameRoster(s.base, order) &&
            var paid := FastestDebited(s.base, order);
            var played := paid[|paid| - 1];
            && SameRoster(s.base, paid)
            && Next(srt, s).0 == played
            && (played.id == s.base[0].id ==>
                  && Next(srt, s).1 == State(s.base, EndOfTurn(srt, s.base, paid), true)
                  && WellFormed(Next(srt, s).1) && TurnLength(srt, s) == 1)
            && (played.id != s.base[0].id ==>
                  && Next(srt, s).1 == State(s.base, paid, false) && |s.base| > 1
                  && WellFormed(State(s.base, paid, false))
                  && TurnLength(srt, s) == 1 + TurnLength(srt, State(s.base, paid, false)))
  {
    hide Find, Order, DebitOf, EndOfTurn, StoredSpeeds;
    OrderPermutes(srt, s.base, s.stored);
    if |s.base| == 1 {
      AloneIsAlwaysNext(srt, s);
    } else {
      DebitedSpeeds(srt, s.base, s.stored);
      TurnStep(srt, s);
    }
  }

  lemma NoCall(srt: Sorter, s: State)
    ensures Stream(srt, s, 0) == [] && After(srt, s, 0) == s
  {
  }

  /** How the queue grows with the call just taken apart and the rest of the turn. */
  lemma QueueStep(srt: Sorter, s: State, queued: Elems)
    requires SortsBySpeed(srt) && WellFormed(s) && !s.turnStart
    ensures var (e, s') := Next(srt, s);
            var k := TurnLength(srt, s);
            && (k == 1 ==> queued + Stream(srt, s, k) == queued + [e] && After(srt, s, k) == s')
            && (k > 1 ==> queued + Stream(srt, s, k) == (queued + [e]) + Stream(srt, s', k - 1)
                          && After(srt, s, k) == After(srt, s', k - 1))
  {
    hide Next, Stream, After, TurnLength;
    var k := TurnLength(srt, s);
    OneMoreCall(srt, s, k - 1);
    NoCall(srt, Next(srt, s).1);
  }

  lemma StreamFromSortedBase(srt: Sorter, s: State, n: nat)
    requires SortsBySpeed(srt) && WellFormed(s) && s.turnStart
    ensures Stream(srt, State(srt(s.base), s.stored, false), n) == Stream(srt, s, n)
  {
  }

  lemma SortedRoster(srt: Sorter, base: Elems)
    requires SortsBySpeed(srt) && DistinctIds(base) && SpeedsAtLeast(base, 1)
    ensures var sorted := srt(base);
            && |sorted| == |base| && Ascending(sorted) && DistinctIds(sorted)
            && SpeedsAtLeast(sorted, 1) && SameRoster(sorted, sorted)
  {
    assert IsSorting(base, srt(base));
    SameMembers(base, srt(base));
    ReorderingKeepsSpeeds(base, srt(base));
  }

  /** Generating a whole turn in advance: the turn is well shaped, and queueing it leaves
      the stream as it was. */
  lemma GeneratedTurn(srt: Sorter, s: State)
    requires SortsBySpeed(srt) && WellFormed(s) && s.turnStart
    ensures var mid := State(srt(s.base), s.stored, false);
            && WellFormed(mid)
            && var k := TurnLength(srt, mid);
            var s' := After(srt, mid, k);
            && s'.turnStart && s'.base == mid.base
            && SameRoster(mid.base, s'.stored) && SpeedsAtLeast(s'.stored, 1)
            && IsTurn(mid.base, Stream(srt, mid, k))
            && forall n: nat :: Served(srt, Stream(srt, mid, k), s', n) == Served(srt, [], s, n)
  {
    hide Next, IsTurn, Served, Stream, After, TurnLength;
    var mid := State(srt(s.base), s.stored, false);
    BaseSortedBeforehand(srt, s);
    TurnShape(srt, mid);
    var k := TurnLength(srt, mid);
    forall n: nat
      ensures Served(srt, Stream(srt, mid, k), After(srt, mid, k), n) == Served(srt, [], s, n)
    {
      ServedAhead(srt, mid, k, n);
      ServedNothingQueued(srt, mid, n);
      ServedNothingQueued(srt, s, n);
      StreamFromSortedBase(srt, s, n);
    }
  }

  /** The reversed list pops the turn in the order in which it was generated. */
  lemma ReversedTurn(base: Elems, picks: Elems)
    requires IsTurn(base, picks)
    ensures Reversed(Reversed(picks)) == picks && Reversed(picks) != []
    ensures forall e :: e in Reversed(picks) ==> Known(base, e)
  {
  }

  lemma AllServedFromStream(srt: Sorter, s: State)
    ensures forall n: nat :: Served(srt, [], s, n) == Stream(srt, s, n)
  {
  }

  lemma SortingPermutes(srt: Sorter, s: Elems)
    requires SortsBySpeed(srt)
    ensures multiset(srt(s)) == multiset(s) && Ids(srt(s)) == Ids(s) && |srt(s)| == |s|
  {
    SameMembers(s, srt(s));
  }

  /** Popping the end of the reversed list takes the front of what is queued. */
  lemma QueueFront(srt: Sorter, list: Elems, opening: Elems, s: State, n: nat)
    requires list != []
    ensures var (last, rest) := (list[|list| - 1], list[..|list| - 1]);
            Served(srt, Reversed(list) + opening, s, n + 1)
            == [last] + Served(srt, Reversed(rest) + opening, s, n)
  {
    hide Served;
    var queue, rest := Reversed(list) + opening, list[..|list| - 1];
    assert Reversed(list)[0] == list[|list| - 1] && Reversed(list)[1..] == Reversed(rest);
    assert queue[1..] == Reversed(rest) + opening;
    ServedFront(srt, queue, s, n);
  }

  lemma NobodyToServe(srt: Sorter, s: State, queue: Elems)
    requires SortsBySpeed(srt) && s.base == [] && queue == []
    ensures forall n: nat :: Served(srt, queue, s, n + 1) == [NOBODY] + Served(srt, queue, s, n)
  {
  }

  lemma QueuedSomebody(queue: Elems, base: Elems)
    requires queue != [] && forall e :: e in queue ==> Known(base, e)
    ensures base != []
  {
    assert queue[0] in queue;
    KnownBySomeEntry(base, queue[0]);
  }

  lemma RosterLeft(base: Elems, stored: Elems, id: nat)
    requires SameRoster(base, stored)
    ensures SameRoster(Without(base, id), Without(stored, id))
    ensures Ids(Without(base, id)) == Ids(base) - {id}
    ensures Ascending(base) ==> Ascending(Without(base, id))
  {
    WithoutKeepsDistinct(base, id);
    WithoutKeepsDistinct(stored, id);
    WithoutLength(base, id);
    WithoutLength(stored, id);
    if Ascending(base) {
      WithoutKeepsOrder(base, id);
    }
    WithoutIds(base, id);
    WithoutIds(stored, id);
  }

  lemma JoinedRoster(base: Elems, stored: Elems, newcomer: PriorityElem, first: int)
    requires SameRoster(base, stored) && newcomer.id !in Ids(base)
    ensures SameRoster(base + [newcomer], stored + [newcomer.(speed := first)])
  {
    assert forall e :: e in base ==> e.id in Ids(base);
    assert forall e :: e in stored ==> e.id in Ids(stored);
    var b, a := base + [newcomer], stored + [newcomer.(speed := first)];
    assert Ids(b) == Ids(base) + {newcomer.id};
    assert Ids(a) == Ids(stored) + {newcomer.id};
    assert Identities(b) == Identities(base) + {(newcomer.id, newcomer.isContender)};
    assert Identities(a) == Identities(stored) + {(newcomer.id, newcomer.isContender)};
  }

  class PriorityOrderList {
    const stdSort: Sorter
    var baseSpeed: Elems
    var priorityList: Elems
    var analyzedList: Elems
    var currentPrio: PriorityElem
    var currentTurn: nat

    /** What holds between any two calls. */
    ghost predicate Valid()
      reads this
    {
      && Schedulable()
      && Ascending(baseSpeed)
      && SameRoster(baseSpeed, analyzedList)
      && SpeedsAtLeast(analyzedList, 1)
      && (currentTurn == 0 ==> analyzedList == baseSpeed)
      && (forall e :: e in priorityList ==> Known(baseSpeed, e))
    }

    /** What generating a turn relies on; the base list may still be unsorted. */
    ghost predicate Schedulable()
      reads this
    {
      && SortsBySpeed(stdSort)
      && DistinctIds(baseSpeed)
      && SpeedsAtLeast(baseSpeed, 1)
      && (baseSpeed == [] ==> analyzedList == [])
      && (currentTurn > 0 ==> SameRoster(baseSpeed, analyzedList) && SpeedsAtLeast(analyzedList, 1))
    }

    /** As long as the turn counter is 0 a whole opening round in base order is still to be
        queued. */
    ghost function Opening(): Elems
      reads this
    {
      if currentTurn == 0 then Reversed(stdSort(baseSpeed)) else []
    }

    /** The participants already queued, in the order they will be returned. */
    ghost function Backlog(): Elems
      reads this
    {
      Reversed(priorityList) + Opening()
    }

    /** Where the simple scheduler takes over once the queue is empty. */
    ghost function Resume(): State
      reads this
    {
      if currentTurn == 0 then Fresh(stdSort(baseSpeed))
      else State(baseSpeed, analyzedList, true)
    }

    /** The next `n` participants to be returned if nobody joins or leaves. */
    ghost function Upcoming(n: nat): (picks: Elems)
      reads this
      ensures |picks| == n
    {
      Served(stdSort, Backlog(), Resume(), n)
    }

    constructor (participants: Elems, stdSort: Sorter)
      requires SortsBySpeed(stdSort)
      requires DistinctIds(participants) && SpeedsAtLeast(participants, 1)
      ensures Valid() && this.stdSort == stdSort && baseSpeed == stdSort(participants)
      ensures currentTurn == (if participants == [] then 0 else 1)
      ensures currentPrio == PriorityElem(0, 0, false)
      ensures participants != [] ==> Resume() == Fresh(baseSpeed)
      ensures forall n: nat ::
                Upcoming(n) == Served(stdSort, Reversed(baseSpeed), Fresh(baseSpeed), n)
    {
      this.stdSort := stdSort;
      baseSpeed := participants;
      priorityList, analyzedList := seq(|participants| * 4, _ => NOBODY), [];
      currentPrio, currentTurn := NOBODY, 0;
      new;
      SortBaseAndCalculatePriority();
    }

    predicate IsPlayerSlowest(id: nat)
      requires baseSpeed != []
      reads this
    {
      baseSpeed[0].id == id
    }

    function GetFastestBaseSpeed(): int
      requires baseSpeed != []
      reads this
    {
      baseSpeed[|baseSpeed| - 1].speed
    }

    predicate Empty()
      reads this
    {
      baseSpeed == []
    }

    function GetCurrent(): PriorityElem
      reads this
    {
      currentPrio
    }

    method BaseSpeedsOf(e: PriorityElem, f: PriorityElem) returns (speedE: int, speedF: int)
      requires DistinctIds(baseSpeed)
      ensures speedE == SpeedOf(baseSpeed, e.id) && speedF == SpeedOf(baseSpeed, f.id)
    {
      speedE, speedF := 0, 0;
      for i := 0 to |baseSpeed|
        invariant speedE == if Find(baseSpeed, e.id) < i then SpeedOf(baseSpeed, e.id) else 0
        invariant speedF == if Find(baseSpeed, f.id) < i then SpeedOf(baseSpeed, f.id) else 0
      {
        SpeedOfMember(baseSpeed, i);
        if baseSpeed[i].id == e.id {
          speedE := baseSpeed[i].speed;
        }
        if baseSpeed[i].id == f.id {
          speedF := baseSpeed[i].speed;
        }
      }
    }

    method FindInvertedTie() returns (found: nat)
      requires DistinctIds(baseSpeed)
      ensures found == FirstInversion(baseSpeed, analyzedList, 0)
    {
      found := 0;
      while found + 1 < |analyzedList|
        invariant found <= |analyzedList|
        invariant FirstInversion(baseSpeed, analyzedList, found) == FirstInversion(baseSpeed, analyzedList, 0)
      {
        var e, f := analyzedList[found], analyzedList[found + 1];
        if e.speed == f.speed {
          var speedE, speedF := BaseSpeedsOf(e, f);
          if speedE > speedF {
            return;
          }
        }
        found := found + 1;
      }
      found := |analyzedList|;
    }

    method CustomSort()
      requires SortsBySpeed(stdSort) && DistinctIds(baseSpeed)
      modifies this`analyzedList
      ensures analyzedList == Order(stdSort, baseSpeed, old(analyzedList))
    {
      analyzedList := stdSort(analyzedList);
      var found := FindInvertedTie();
      if found < |analyzedList| {
        var toSwap := FirstChange(analyzedList, 0);
        if toSwap < |analyzedList| && found <= toSwap {
          analyzedList := TurnRound(analyzedList, found, toSwap);
        }
      }
    }

    /** The speed the given participant has to pay for its action. */
    method GetComputedSpeed(elem: PriorityElem) returns (speed: int)
      requires DistinctIds(baseSpeed)
      ensures speed == DebitOf(baseSpeed, analyzedList, elem.id)
    {
      var rank := Find(baseSpeed, elem.id);
      for i := 0 to |baseSpeed|
        invariant rank < i ==> DebitOf(baseSpeed, analyzedList, elem.id) == 1
      {
        if baseSpeed[i].id == elem.id {
          SpeedOfMember(baseSpeed, i);
          var idNextInLine := (if i == 0 then baseSpeed[|baseSpeed| - 1] else baseSpeed[i - 1]).id;
          var it := Find(analyzedList, idNextInLine);
          if it < |analyzedList| {
            return if analyzedList[it].speed != 0 then analyzedList[it].speed else 1;
          }
        }
      }
      return 1;
    }

    method EndTurnRoutine()
      requires SortsBySpeed(stdSort) && baseSpeed != [] && SameRoster(baseSpeed, analyzedList)
      modifies this`analyzedList, this`priorityList, this`currentTurn
      ensures currentTurn == old(currentTurn) + 1
      ensures analyzedList == EndOfTurn(stdSort, baseSpeed, old(analyzedList))
      ensures priorityList == if |baseSpeed| == 1 then old(priorityList) else Reversed(old(priorityList))
    {
      hide Find, Order, ToppedUpTo, ToppedUp, SameRoster, SortsBySpeed, DistinctIds, WithSpeed, Reversed;
      currentTurn := currentTurn + 1;
      if |baseSpeed| <= 1 {
        return;
      }
      RosterIds(baseSpeed, analyzedList);
      ghost var before := analyzedList;
      ToppedUpToStart(baseSpeed, before);
      for i := 0 to |baseSpeed|
        invariant analyzedList == ToppedUpTo(baseSpeed, before, i)
        invariant currentTurn == old(currentTurn) + 1 && priorityList == old(priorityList)
      {
        TopUpOne(baseSpeed, before, i);
        var it := Find(analyzedList, baseSpeed[i].id);
        if it < |analyzedList| {
          analyzedList := WithSpeed(analyzedList, it,
            analyzedList[it].speed + (baseSpeed[i].speed + GetFastestBaseSpeed()));
        }
      }
      ToppedUpToEnd(baseSpeed, before);
      CustomSort();
      priorityList := Reversed(priorityList);
    }

    /** The state of the simple scheduler in the middle of generating a turn. */
    ghost function MidTurn(): State
      reads this
    {
      State(baseSpeed, analyzedList, false)
    }

    /** Sort, debit the fastest and queue it. */
    method PlayFastest()
      requires SortsBySpeed(stdSort) && DistinctIds(baseSpeed)
      requires Order(stdSort, baseSpeed, analyzedList) != []
      modifies this`analyzedList, this`priorityList
      ensures analyzedList == FastestDebited(baseSpeed, Order(stdSort, baseSpeed, old(analyzedList)))
      ensures priorityList == old(priorityList) + [analyzedList[|analyzedList| - 1]]
    {
      hide Order, DebitOf, SortsBySpeed, DistinctIds;
      CustomSort();
      var last := |analyzedList| - 1;
      if |analyzedList| > 1 {
        var paid := GetComputedSpeed(analyzedList[last]);
        analyzedList := WithSpeed(analyzedList, last, analyzedList[last].speed - paid);
      }
      priorityList := priorityList + [analyzedList[last]];
    }

    /** Play on, if the turn is still the given one, until the slowest has played.  The ghost
        parameter is the state of the simple scheduler at this point. */
    method CalculatePriority(turn: nat, ghost s: State)
      requires SortsBySpeed(stdSort) && WellFormed(s)
      requires currentTurn == turn ==> s == MidTurn()
      requires currentTurn == turn && |baseSpeed| == 1 ==> priorityList == []
      modifies this`analyzedList, this`priorityList, this`currentTurn
      ensures old(currentTurn) != turn ==>
                unchanged(this`analyzedList, this`priorityList, this`currentTurn)
      ensures old(currentTurn) == turn ==>
                var k := TurnLength(stdSort, s);
                && currentTurn == turn + 1
                && priorityList == Reversed(old(priorityList) + Stream(stdSort, s, k))
                && State(baseSpeed, analyzedList, true) == After(stdSort, s, k)
      decreases if currentTurn == turn then TurnLength(stdSort, s) else 0
    {
      hide Find, Order, EndOfTurn, WellFormed, Next, Stream, After, TurnLength, Reversed, SameRoster,
        SortsBySpeed, DistinctIds, FastestDebited;
      if currentTurn != turn {
        return;
      }
      ghost var queued := priorityList;
      ghost var (e, s') := Next(stdSort, s);
      WellFormedIds(s);
      CallStep(stdSort, s);
      QueueStep(stdSort, s, queued);
      PlayFastest();
      assert priorityList == queued + [e];
      if IsPlayerSlowest(analyzedList[|analyzedList| - 1].id) {
        EndTurnRoutine();
        assert priorityList == Reversed(queued + [e]);
        assert State(baseSpeed, analyzedList, true) == s';
      }
      CalculatePriority(turn, s');
    }

    /** Generate the turn that the simple scheduler would play from `s`. */
    method GenerateTurn(ghost s: State)
      requires SortsBySpeed(stdSort) && WellFormed(s) && s.turnStart
      requires baseSpeed == stdSort(s.base) && analyzedList == s.stored
      requires priorityList == [] && currentTurn > 0
      modifies this`analyzedList, this`priorityList, this`currentTurn
      ensures Valid() && priorityList != [] && currentTurn == old(currentTurn) + 1
      ensures forall n: nat :: Upcoming(n) == Served(stdSort, [], s, n)
      ensures Resume() == OneTurnLater(stdSort, s)
    {
      hide Served, Stream, After, TurnLength, IsTurn, SortsBySpeed, Ascending, DistinctIds;
      SortedRoster(stdSort, s.base);
      GeneratedTurn(stdSort, s);
      TurnFromSortedBase(stdSort, s);
      ghost var picks := Stream(stdSort, MidTurn(), TurnLength(stdSort, MidTurn()));
      ReversedTurn(baseSpeed, picks);
      CalculatePriority(currentTurn, MidTurn());
      assert [] + picks == picks;
      assert Backlog() == picks;
    }

    method SortBaseAndCalculatePriority()
      requires Schedulable()
      requires currentTurn > 0 || baseSpeed == [] ==> priorityList == []
      modifies this`baseSpeed, this`analyzedList, this`priorityList, this`currentTurn
      ensures Valid() && baseSpeed == stdSort(old(baseSpeed))
      ensures baseSpeed == [] ==> priorityList == [] && currentTurn == old(currentTurn)
      ensures baseSpeed != [] ==> priorityList != [] && currentTurn == old(currentTurn) + 1
      ensures baseSpeed != [] && old(currentTurn) == 0 ==> priorityList == analyzedList == baseSpeed
      ensures old(currentTurn) == 0 ==> Resume() == old(Resume())
      ensures baseSpeed != [] && old(currentTurn) > 0 ==>
                WellFormed(old(Resume())) && Resume() == OneTurnLater(stdSort, old(Resume()))
      ensures forall n: nat :: Upcoming(n) == Served(stdSort,
                if old(currentTurn) == 0 then Reversed(baseSpeed) else [],
                if old(currentTurn) == 0 then Fresh(baseSpeed) else old(Resume()), n)
    {
      SortedRoster(stdSort, baseSpeed);
      if baseSpeed == [] {
        assert Backlog() == [];
        return;
      }
      ghost var resume := Resume();
      baseSpeed := stdSort(baseSpeed);
      if currentTurn == 0 {
        analyzedList := baseSpeed;
        priorityList := baseSpeed;
        currentTurn := currentTurn + 1;
        assert Backlog() == Reversed(baseSpeed);
        return;
      }
      GenerateTurn(resume);
    }

    /** Take the last queued entry, which is the next participant. */
    method PopQueued() returns (r: PriorityElem)
      requires Valid() && priorityList != []
      modifies this`priorityList, this`currentPrio
      ensures Valid() && currentPrio == r && Known(baseSpeed, r) && Resume() == old(Resume())
      ensures forall n: nat :: old(Upcoming(n + 1)) == [r] + Upcoming(n)
    {
      hide Stream, Served, Order, SameRoster, DistinctIds, Ascending, SortsBySpeed, SpeedsAtLeast, Reversed;
      ghost var list, opening, resume := priorityList, Opening(), Resume();
      currentPrio := priorityList[|priorityList| - 1];
      priorityList := priorityList[..|priorityList| - 1];
      forall n: nat
        ensures old(Upcoming(n + 1)) == [currentPrio] + Upcoming(n)
      {
        QueueFront(stdSort, list, opening, resume, n);
        assert Opening() == opening && Resume() == resume;
      }
      return currentPrio;
    }

    /** Take the next participant, generating a turn first when none is queued. */
    method GetNext() returns (r: PriorityElem)
      requires Valid()
      modifies this`baseSpeed, this`analyzedList, this`priorityList, this`currentTurn, this`currentPrio
      ensures Valid()
      ensures forall n: nat :: old(Upcoming(n + 1)) == [r] + Upcoming(n)
      ensures old(baseSpeed) == [] ==> r == PriorityElem(0, 0, false) && unchanged(this)
      ensures old(baseSpeed) != [] ==>
                && currentPrio == r && Known(baseSpeed, r)
                && exists e :: e in baseSpeed && e.id == r.id && e.isContender == r.isContender
      ensures multiset(baseSpeed) == old(multiset(baseSpeed))
      ensures old(baseSpeed) != [] && old(priorityList) == [] && old(currentTurn) > 0 ==>
                WellFormed(old(Resume())) && Resume() == OneTurnLater(stdSort, old(Resume()))
      ensures old(baseSpeed) == [] || old(priorityList) != [] || old(currentTurn) == 0 ==>
                Resume() == old(Resume())
      decreases priorityList == []
    {
      hide Stream, Served, Order, SameRoster, DistinctIds, Ascending, SortsBySpeed, SpeedsAtLeast;
      SortingPermutes(stdSort, baseSpeed);
      assert priorityList == [] ==> Backlog() == Opening();
      if priorityList != [] {
        QueuedSomebody(priorityList, baseSpeed);
      }
      if baseSpeed == [] {
        NobodyToServe(stdSort, Resume(), Backlog());
        return NOBODY;
      }
      if priorityList == [] {
        SortBaseAndCalculatePriority();
        r := GetNext();
        return;
      }
      r := PopQueued();
      KnownBySomeEntry(baseSpeed, r);
    }

    /** A participant joins: the queue is dropped and a turn is generated for the enlarged
        side.  From the first generated turn on, the newcomer starts with twice its speed. */
    method AddParticipantInList(id: nat, speed: int, isContender: bool)
      requires Valid() && 1 <= speed
      requires forall e :: e in baseSpeed && e.id == id ==> e.isContender == isContender
      modifies this`baseSpeed, this`analyzedList, this`priorityList, this`currentTurn
      ensures Valid() && currentTurn == old(currentTurn)
      ensures id in old(Ids(baseSpeed)) ==> unchanged(this)
      ensures id !in old(Ids(baseSpeed)) ==>
                var newcomer := PriorityElem(id, speed, isContender);
                var joined := old(baseSpeed) + [newcomer];
                && baseSpeed == stdSort(joined)
                && (currentTurn > 0 ==>
                      var stored := old(analyzedList) + [newcomer.(speed := 2 * speed)];
                      var start := State(joined, stored, true);
                      && (forall n: nat :: Upcoming(n) == Stream(stdSort, start, n))
                      && WellFormed(start) && Resume() == OneTurnLater(stdSort, start))
                && (currentTurn == 0 ==> priorityList == analyzedList == baseSpeed)
    {
      hide Served, Stream, Ascending, SortsBySpeed, Reversed, WellFormed, OneTurnLater, After, TurnLength, Order;
      if exists e :: e in baseSpeed && e.id == id && e.isContender == isContender {
        return;
      }
      JoinedRoster(baseSpeed, analyzedList, PriorityElem(id, speed, isContender), 2 * speed);
      var turn := currentTurn;
      baseSpeed := baseSpeed + [PriorityElem(id, speed, isContender)];
      var first := speed;
      if currentTurn > 0 {
        first := first + GetFastestBaseSpeed();
      }
      analyzedList := analyzedList + [PriorityElem(id, first, isContender)];
      priorityList := [];
      ghost var resume := Resume();
      AllServedFromStream(stdSort, resume);
      SortingPermutes(stdSort, baseSpeed);
      SortBaseAndCalculatePriority();
      ghost var backlog, next := Backlog(), Resume();
      if turn > 0 {
        assert forall n: nat :: Upcoming(n) == Stream(stdSort, resume, n);
        assert forall n: nat :: Served(stdSort, backlog, next, n) == Upcoming(n);
      }
      currentTurn := turn;
      if turn > 0 {
        assert Backlog() == backlog && Resume() == next;
        assert forall n: nat :: Upcoming(n) == Served(stdSort, backlog, next, n);
        assert resume == State(old(baseSpeed) + [PriorityElem(id, speed, isContender)],
                               old(analyzedList) + [PriorityElem(id, 2 * speed, isContender)], true);
      }
    }

    /** A participant leaves: every entry under its id goes, everything else stays. */
    method RemoveParticipantFromList(idParticipant: nat)
      requires Valid()
      modifies this`baseSpeed, this`analyzedList, this`priorityList
      ensures Valid() && idParticipant !in Ids(baseSpeed)
      ensures baseSpeed == old(Without(baseSpeed, idParticipant))
      ensures analyzedList == old(Without(analyzedList, idParticipant))
      ensures priorityList == old(Without(priorityList, idParticipant))
    {
      RosterLeft(baseSpeed, analyzedList, idParticipant);
      baseSpeed := Without(baseSpeed, idParticipant);
      priorityList := Without(priorityList, idParticipant);
      analyzedList := Without(analyzedList, idParticipant);
    }
  }

  /** The bound reaches the list itself: as long as the roster stays, what the list holds for
      everybody is within the bound of the state it started from. */
  lemma ListWithin(list: PriorityOrderList, base: Elems, start: State, extra: nat)
    requires list.Valid() && Started(list.stdSort, base, start, extra) && Reached(list.stdSort, start, list.Resume())
    ensures Within(list.analyzedList, SpeedCeiling(base) + extra)
    ensures ExtremeCount(base) == 2 || StartedInOrder(list.stdSort, base, start, extra) ==>
              Within(list.analyzedList, 10 * base[|base| - 1].speed + extra)
  {
    hide Started, StartedInOrder, Reached, ExtremeCount, SpeedCeiling;
    StoredWithin(list.stdSort, base, start, extra, list.Resume());
    SortingPermutes(list.stdSort, list.baseSpeed);
    SameMembers(list.analyzedList, list.Resume().stored);
  }

  /** Every list is fair, built with its participants or empty and filled by additions, and
      whoever has joined or left before. */
  lemma ListIsFair(list: PriorityOrderList, base: Elems, start: State, extra: nat, m: nat, n: nat, id: nat)
    requires list.Valid() && Started(list.stdSort, base, start, extra) && Reached(list.stdSort, start, list.Resume())
    requires id in Ids(base)
    requires NeverPlays(list.Upcoming(|list.Backlog()| + m + n)[|list.Backlog()| + m..], id)
    ensures n < (WaitInTurns(base, extra, id) + 1) * TurnCap(|base|, SpeedCeiling(base) + extra)
    ensures var F := base[|base| - 1].speed;
            StartedInOrder(list.stdSort, base, start, extra) ==>
              n < (8 * F + extra + 2) * TurnCap(|base|, 10 * F + extra)
  {
    hide Served, Reached, Started, StartedInOrder, WaitInTurns, TurnCap, SpeedCeiling;
    FairAfterQueue(list.stdSort, list.Backlog(), base, start, extra, list.Resume(), m, n, id);
  }

  /** A list filled by additions before its first turn starts like a freshly built one. */
  lemma FilledListStartsFresh(list: PriorityOrderList)
    requires list.Valid() && list.currentTurn == 0 && |list.baseSpeed| > 1
    ensures var base := list.stdSort(list.baseSpeed);
            Started(list.stdSort, base, Fresh(base), 0) && Reached(list.stdSort, Fresh(base), list.Resume())
  {
    hide Reached, Started;
    SortedRoster(list.stdSort, list.baseSpeed);
    ReachedAtOnce(list.stdSort, list.Resume());
    FreshIsStarted(list.stdSort, list.stdSort(list.baseSpeed));
  }

  /** From the first generated turn on a list can be taken as a start at any time, so also right
      after somebody has left; `extra` is what it holds beyond its fastest base speed. */
  lemma ListStartsAnew(list: PriorityOrderList, extra: nat)
    requires list.Valid() && list.currentTurn > 0 && |list.baseSpeed| > 1
    requires forall e :: e in list.analyzedList ==> e.speed <= list.GetFastestBaseSpeed() + extra
    ensures Started(list.stdSort, list.baseSpeed, list.Resume(), extra)
    ensures Reached(list.stdSort, list.Resume(), list.Resume())
  {
    hide Reached, SameRoster;
    SortingPermutes(list.stdSort, list.baseSpeed);
    ReachedAtOnce(list.stdSort, list.Resume());
  }

  /** Somebody joins: the enlarged side is a start, with the newcomer's doubled speed. */
  lemma JoinedStarts(srt: Sorter, joined: State, base: Elems, extra: nat)
    requires SortsBySpeed(srt) && WellFormed(joined) && joined.turnStart && |joined.base| > 1
    requires base == srt(joined.base) && base != []
    requires forall e :: e in joined.stored ==> e.speed <= base[|base| - 1].speed + extra
    ensures Started(srt, base, joined, extra)
  {
    hide SameRoster;
    OrderedBaseIsRoster(srt, joined);
  }

  /** What any number of calls return, with nobody joining or leaving: exactly the stream
      announced beforehand; and the list goes through the states of the simple scheduler. */
  method Draw(list: PriorityOrderList, n: nat) returns (drawn: Elems)
    requires list.Valid()
    modifies list
    ensures list.Valid()
    ensures drawn == old(list.Upcoming(n))
    ensures Reached(list.stdSort, old(list.Resume()), list.Resume())
    ensures old(list.baseSpeed) != [] ==> forall e :: e in drawn ==> Known(old(list.baseSpeed), e)
  {
    hide *;
    drawn := [];
    ghost var start, roster := list.Resume(), list.baseSpeed;
    ReachedAtOnce(list.stdSort, start);
    while |drawn| < n
      invariant |drawn| <= n && list.Valid()
      invariant drawn + list.Upcoming(n - |drawn|) == old(list.Upcoming(n))
      invariant Reached(list.stdSort, start, list.Resume())
      invariant multiset(list.baseSpeed) == multiset(roster)
      invariant roster != [] ==> forall e :: e in drawn ==> Known(roster, e)
    {
      ghost var left := n - |drawn| - 1;
      ghost var before := list.Resume();
      ValidSorter(list);
      SameMembers(roster, list.baseSpeed);
      label Before:
      var r := list.GetNext();
      assert old@Before(list.Upcoming(left + 1)) == [r] + list.Upcoming(left);
      if roster != [] {
        StillKnownIn(roster, list.baseSpeed, r);
      }
      Associative(drawn, [r], list.Upcoming(left));
      ReachedInTurns(list.stdSort, start, before, list.Resume());
      drawn := drawn + [r];
    }
  }

  lemma StillKnownIn(base: Elems, again: Elems, e: PriorityElem)
    requires multiset(again) == multiset(base) && Known(again, e)
    ensures Known(base, e)
  {
    SameMembers(base, again);
  }

  lemma ValidSorter(list: PriorityOrderList)
    requires list.Valid()
    ensures SortsBySpeed(list.stdSort)
  {
  }

  lemma SortedIsBuilt(srt: Sorter, participants: Elems)
    requires SortsBySpeed(srt) && |participants| > 1 && DistinctIds(participants) && SpeedsAtLeast(participants, 1)
    ensures Built(srt(participants)) && |srt(participants)| > 1
  {
    SortedRoster(srt, participants);
  }

  /** A battle of a fixed roster: the opening round fastest first, then the stream of the simple
      scheduler, and at no time does the list hold a speed outside the bound. */
  method Battle(participants: Elems, stdSort: Sorter, n: nat) returns (list: PriorityOrderList, drawn: Elems)
    requires SortsBySpeed(stdSort) && |participants| > 1
    requires DistinctIds(participants) && SpeedsAtLeast(participants, 1)
    ensures list.Valid() && list.stdSort == stdSort && Built(stdSort(participants))
    ensures var base := stdSort(participants);
            && drawn == Served(stdSort, Reversed(base), Fresh(base), n)
            && Within(list.analyzedList, SpeedCeiling(base))
            && (ExtremeCount(base) == 2 || stdSort(base) == base ==>
                  Within(list.analyzedList, 10 * base[|base| - 1].speed))
  {
    hide *;
    SortedIsBuilt(stdSort, participants);
    ghost var base := stdSort(participants);
    list := new PriorityOrderList(participants, stdSort);
    assert list.Upcoming(n) == Served(stdSort, Reversed(list.baseSpeed), Fresh(list.baseSpeed), n);
    drawn := Draw(list, n);
    FreshIsStarted(stdSort, base);
    ListWithin(list, base, Fresh(base), 0);
  }
}
