/**
 One side of the pit on a clock: the participant whose turn it is stays the same until the
 interlude has elapsed, then the scheduler is advanced once.
 */
module SideBattles {
  import opened PriorityLists
  import opened SimpleScheduler
  import opened PriorityOrder

  // ----- the clock alone

  datatype Clock = Clock(started: bool, end: int)

  /** One poll at time `now` with interlude `d`: the clock afterwards and whether the
      scheduler is advanced. */
  function Tick(c: Clock, now: int, d: int): (Clock, bool) {
    var end := if c.started then c.end else now + d;
    if now < end then (Clock(true, end), false) else (Clock(true, now + d), true)
  }

  function ClockAfter(c: Clock, polls: seq<int>, d: int): Clock {
    if polls == [] then c
    else Tick(ClockAfter(c, polls[..|polls| - 1], d), polls[|polls| - 1], d).0
  }

  /** How often the scheduler has been advanced after these polls. */
  function Advances(c: Clock, polls: seq<int>, d: int): nat {
    if polls == [] then 0 else
    var before := polls[..|polls| - 1];
    Advances(c, before, d) + if Tick(ClockAfter(c, before, d), polls[|polls| - 1], d).1 then 1 else 0
  }

  ghost predicate NonDecreasing(polls: seq<int>) {
    forall i, j :: 0 <= i < j < |polls| ==> polls[i] <= polls[j]
  }

  ghost predicate GapsAtMost(polls: seq<int>, g: int) {
    forall i :: 1 <= i < |polls| ==> polls[i] - polls[i - 1] <= g
  }

  /** After `k` advances with the latest poll at `last`, the deadline lies where regular
      turns would put it, up to the slack of the polls. */
  ghost predicate OnSchedule(c: Clock, k: nat, first: int, last: int, d: int, g: int) {
    && c.started
    && first + (k + 1) * d <= c.end <= last + d
    && last < c.end <= first + d + k * (d + g)
  }

  lemma MulSucc(k: int, d: int)
    ensures (k + 1) * d == k * d + d
  {
  }

  lemma TickStaysOnSchedule(c: Clock, k: nat, first: int, last: int, now: int, d: int, g: int)
    requires 0 < d && OnSchedule(c, k, first, last, d, g) && last <= now <= last + g
    ensures var (c', advanced) := Tick(c, now, d);
            OnSchedule(c', if advanced then k + 1 else k, first, now, d, g)
  {
  }

  lemma {:induction false} PollsStayOnSchedule(c: Clock, polls: seq<int>, d: int, g: int)
    requires !c.started && 0 < d && polls != [] && NonDecreasing(polls) && GapsAtMost(polls, g)
    ensures OnSchedule(ClockAfter(c, polls, d), Advances(c, polls, d), polls[0], polls[|polls| - 1], d, g)
    decreases |polls|
  {
    hide OnSchedule;
    var before, now := polls[..|polls| - 1], polls[|polls| - 1];
    if before == [] {
      FirstPollOnSchedule(c, now, d, g);
      assert ClockAfter(c, before, d) == c;
    } else {
      PollsStayOnSchedule(c, before, d, g);
      var last := before[|before| - 1];
      assert last == polls[|polls| - 2] && before[0] == polls[0];
      TickStaysOnSchedule(ClockAfter(c, before, d), Advances(c, before, d), polls[0], last, now, d, g);
    }
  }

  lemma FirstPollOnSchedule(c: Clock, now: int, d: int, g: int)
    requires !c.started && 0 < d
    ensures !Tick(c, now, d).1 && OnSchedule(Tick(c, now, d).0, 0, now, now, d, g)
  {
  }

  /** However irregular the polls, the k-th advance comes no earlier than k interludes after
      the first poll; and with polls at most `g` apart, by any time T more than
      (T - first) / (d + g) - 1 advances have happened. */
  lemma AdvancesOnTime(c: Clock, polls: seq<int>, d: int, g: int)
    requires !c.started && 0 < d && polls != [] && NonDecreasing(polls) && GapsAtMost(polls, g)
    ensures var (k, elapsed) := (Advances(c, polls, d), polls[|polls| - 1] - polls[0]);
            k * d <= elapsed < d + k * (d + g)
  {
    PollsStayOnSchedule(c, polls, d, g);
    MulSucc(Advances(c, polls, d), d);
  }

  /** Without any assumption on how often the side is polled: no advance comes early. */
  lemma NeverEarly(c: Clock, polls: seq<int>, d: int)
    requires !c.started && 0 < d && polls != [] && NonDecreasing(polls)
    ensures Advances(c, polls, d) * d <= polls[|polls| - 1] - polls[0]
  {
    hide Advances;
    AdvancesOnTime(c, polls, d, polls[|polls| - 1] - polls[0]);
  }

  /** Does poll number `i` advance the scheduler? */
  predicate AdvancesAt(c: Clock, polls: seq<int>, d: int, i: nat)
    requires i < |polls|
  {
    Advances(c, polls[..i + 1], d) == Advances(c, polls[..i], d) + 1
  }

  /** Nothing happens between `i` and `j`, a turn having begun with poll `i`: at the first poll or
      with an advance. */
  predicate SameTurn(c: Clock, polls: seq<int>, d: int, i: nat, j: nat)
    requires i < j <= |polls|
  {
    (i == 0 || AdvancesAt(c, polls, d, i)) && forall k :: i < k < j ==> !AdvancesAt(c, polls, d, k)
  }

  lemma {:induction false} DeadlineOfTurn(c: Clock, polls: seq<int>, d: int, i: nat, j: nat)
    requires !c.started && i < j <= |polls| && SameTurn(c, polls, d, i, j)
    ensures ClockAfter(c, polls[..j], d) == Clock(true, polls[i] + d)
    decreases j
  {
    var k := j - 1;
    ClockStep(c, polls, d, k);
    if i < k {
      DeadlineOfTurn(c, polls, d, i, k);
    } else if i == 0 {
      assert polls[..0] == [];
    }
  }

  lemma ClockStep(c: Clock, polls: seq<int>, d: int, k: nat)
    requires k < |polls|
    ensures var (next, advanced) := Tick(ClockAfter(c, polls[..k], d), polls[k], d);
            ClockAfter(c, polls[..k + 1], d) == next && (AdvancesAt(c, polls, d, k) <==> advanced)
  {
    assert polls[..k + 1][..k] == polls[..k];
  }

  /** How long a turn lasts, for any polls: having begun with poll `i`, it goes on until the first
      poll that is at least the interlude later, however late poll `i` itself was. */
  lemma TurnLastsInterlude(c: Clock, polls: seq<int>, d: int, i: nat, j: nat)
    requires !c.started && i < j < |polls| && SameTurn(c, polls, d, i, j)
    ensures AdvancesAt(c, polls, d, j) <==> polls[j] - polls[i] >= d
  {
    DeadlineOfTurn(c, polls, d, i, j);
    ClockStep(c, polls, d, j);
  }

  /** The first poll never advances. */
  lemma FirstPollShowsCurrent(c: Clock, polls: seq<int>, d: int)
    requires !c.started && 0 < d && polls != []
    ensures !AdvancesAt(c, polls, d, 0)
  {
    ClockStep(c, polls, d, 0);
    assert polls[..0] == [];
  }

  // ----- the clock driving the scheduler

  /** The stream a list has to offer, as a value. */
  datatype Offer = Offer(srt: Sorter, queue: Elems, resume: State)
  {
    ghost function First(n: nat): (picks: Elems)
      ensures |picks| == n
    {
      Served(srt, queue, resume, n)
    }

    /** Who is shown after `k` advances: whoever was current before the first one, then the
        stream. */
    ghost function ShownAfter(current: PriorityElem, k: nat): PriorityElem {
      if k == 0 then current else First(k)[k - 1]
    }
  }

  ghost function OfferOf(list: PriorityOrderList): Offer
    reads list
  {
    Offer(list.stdSort, list.Backlog(), list.Resume())
  }

  /** `now` is what is left of `offer` after `k` advances. */
  ghost predicate Left(now: Offer, offer: Offer, k: nat) {
    forall n: nat :: now.First(n) == offer.First(k + n)[k..]
  }

  /** `after` is what is left of `before` once `r` has been taken. */
  ghost predicate Taken(before: Offer, r: PriorityElem, after: Offer) {
    forall n: nat :: before.First(n + 1) == [r] + after.First(n)
  }

  class SideBattle {
    const priorityOrderList: PriorityOrderList
    var started: bool
    var endCurrentTurn: int

    constructor (priorityOrderList: PriorityOrderList)
      ensures this.priorityOrderList == priorityOrderList && !started
    {
      this.priorityOrderList := priorityOrderList;
      started, endCurrentTurn := false, 0;
    }

    function GetClock(): Clock
      reads this
    {
      Clock(started, endCurrentTurn)
    }

    /** The answer to a poll: before the deadline the current participant again, at or after
        it the next one of the scheduler. */
    method GetCurrentParticipantTurn(now: int, timerInterlude: int) returns (r: PriorityElem)
      requires priorityOrderList.Valid()
      modifies this, priorityOrderList
      ensures priorityOrderList.Valid()
      ensures GetClock() == Tick(old(GetClock()), now, timerInterlude).0
      ensures !Tick(old(GetClock()), now, timerInterlude).1 ==>
                r == priorityOrderList.currentPrio && unchanged(priorityOrderList)
      ensures Tick(old(GetClock()), now, timerInterlude).1 ==>
                Taken(old(OfferOf(priorityOrderList)), r, OfferOf(priorityOrderList))
      ensures multiset(priorityOrderList.baseSpeed) == old(multiset(priorityOrderList.baseSpeed))
      ensures old(priorityOrderList.baseSpeed) != [] ==> r == priorityOrderList.currentPrio
      ensures priorityOrderList.baseSpeed == [] <==> old(priorityOrderList.baseSpeed) == []
    {
      hide Served, WellFormed, OneTurnLater;
      hide PriorityOrderList.Valid, PriorityOrderList.Backlog, PriorityOrderList.Resume;
      if !started {
        endCurrentTurn := now + timerInterlude;
        started := true;
      }
      if now < endCurrentTurn {
        return priorityOrderList.GetCurrent();
      }
      endCurrentTurn := now + timerInterlude;
      ghost var before := OfferOf(priorityOrderList);
      label Advance:
      r := priorityOrderList.GetNext();
      forall n: nat
        ensures before.First(n + 1) == [r] + OfferOf(priorityOrderList).First(n)
      {
        assert old@Advance(priorityOrderList.Upcoming(n + 1)) == [r] + priorityOrderList.Upcoming(n);
      }
    }
  }

  lemma OneAdvance(before: Offer, r: PriorityElem, after: Offer, offer: Offer, k: nat, current: PriorityElem)
    requires Left(before, offer, k) && Taken(before, r, after)
    ensures Left(after, offer, k + 1)
    ensures offer.ShownAfter(current, k + 1) == r
  {
    hide Served;
    forall n: nat
      ensures after.First(n) == offer.First(k + 1 + n)[k + 1..]
    {
      assert before.First(n + 1) == [r] + after.First(n);
      assert before.First(n + 1) == offer.First(k + (n + 1))[k..];
      assert k + (n + 1) == k + 1 + n;
      assert after.First(n) == ([r] + after.First(n))[1..];
    }
    assert before.First(0 + 1) == [r] + after.First(0);
    assert before.First(1) == offer.First(k + 1)[k..];
  }

  /** What poll number `i` shows, given what the list had to offer and who was current before
      the first poll. */
  ghost function ShownAt(offer: Offer, current: PriorityElem, c: Clock, polls: seq<int>, d: int, i: nat): PriorityElem
    requires i < |polls|
  {
    offer.ShownAfter(current, Advances(c, polls[..i + 1], d))
  }

  /** A side polled again and again: what is shown at each poll is fixed by the clock and
      the stream the scheduler had to offer at the beginning. */
  method Watch(battle: SideBattle, polls: seq<int>, d: int) returns (shown: Elems)
    requires battle.priorityOrderList.Valid() && battle.priorityOrderList.baseSpeed != []
    modifies battle, battle.priorityOrderList
    ensures |shown| == |polls|
    ensures forall i :: 0 <= i < |polls| ==>
              shown[i] == ShownAt(old(OfferOf(battle.priorityOrderList)), old(battle.priorityOrderList.currentPrio),
                                  old(battle.GetClock()), polls, d, i)
  {
    hide PriorityOrderList.Valid, PriorityOrderList.Upcoming, PriorityOrderList.Backlog, PriorityOrderList.Resume,
      Served, ClockAfter, Advances, Tick, Left, ShownAt, Offer.ShownAfter, Offer.First;
    shown := [];
    var list := battle.priorityOrderList;
    ghost var c, k, offer, current := battle.GetClock(), 0, OfferOf(list), list.currentPrio;
    FirstPrefix(c, polls, d);
    NothingTaken(offer, current);
    while |shown| < |polls|
      invariant |shown| <= |polls| && list.Valid() && list.baseSpeed != []
      invariant battle.GetClock() == ClockAfter(c, polls[..|shown|], d)
      invariant k == Advances(c, polls[..|shown|], d)
      invariant list.currentPrio == offer.ShownAfter(current, k) && Left(OfferOf(list), offer, k)
      invariant forall i :: 0 <= i < |shown| ==>
                  shown[i] == ShownAt(offer, current, c, polls, d, i)
    {
      PrefixStep(c, polls, d, |shown|);
      ghost var advanced := Tick(battle.GetClock(), polls[|shown|], d).1;
      ghost var before := OfferOf(list);
      var r := battle.GetCurrentParticipantTurn(polls[|shown|], d);
      if advanced {
        OneAdvance(before, r, OfferOf(list), offer, k, current);
        k := k + 1;
      }
      ShownNow(offer, current, c, polls, d, |shown|, k);
      shown := shown + [r];
    }
  }

  lemma ShownNow(offer: Offer, current: PriorityElem, c: Clock, polls: seq<int>, d: int, i: nat, k: nat)
    requires i < |polls| && k == Advances(c, polls[..i + 1], d)
    ensures ShownAt(offer, current, c, polls, d, i) == offer.ShownAfter(current, k)
  {
  }

  lemma NothingTaken(offer: Offer, current: PriorityElem)
    ensures Left(offer, offer, 0) && offer.ShownAfter(current, 0) == current
  {
  }

  lemma FirstPrefix(c: Clock, polls: seq<int>, d: int)
    ensures ClockAfter(c, polls[..0], d) == c && Advances(c, polls[..0], d) == 0
  {
  }

  lemma PrefixStep(c: Clock, polls: seq<int>, d: int, i: nat)
    requires i < |polls|
    ensures var (next, advanced) := Tick(ClockAfter(c, polls[..i], d), polls[i], d);
            && ClockAfter(c, polls[..i + 1], d) == next
            && Advances(c, polls[..i + 1], d) == Advances(c, polls[..i], d) + if advanced then 1 else 0
  {
    assert polls[..i + 1][..i] == polls[..i];
  }
}
