/**
 The scheduler as one would write it without pre-computing anything: each call sorts, picks
 the fastest, debits it, and tops everybody up once the slowest has played.  The class
 PriorityOrderList is proved to hand out exactly this stream; here the stream is related to
 the speed dynamics, which gives fairness, boundedness and the shape of a turn.
 */
module SimpleScheduler {
  import opened PriorityLists
  import Dyn = SpeedDynamics

  /** `turnStart` says that the slowest has just played, or nobody yet: the base list is
      about to be sorted again. */
  datatype State = State(base: Elems, stored: Elems, turnStart: bool)

  const NOBODY := PriorityElem(0, 0, false)

  function OrderedBase(srt: Sorter, s: State): Elems {
    if s.turnStart then srt(s.base) else s.base
  }

  function Order(srt: Sorter, base: Elems, stored: Elems): Elems {
    TieReversal(base, srt(stored))
  }

  /** The stored speed of the next slower participant by base speed, wrapping round from the
      slowest to the fastest, with 0 replaced by 1. */
  function DebitOf(base: Elems, stored: Elems, id: nat): int {
    var k := Find(base, id);
    if k == |base| then 1 else Dyn.Price(SpeedOf(stored, base[if k == 0 then |base| - 1 else k - 1].id))
  }

  function ToppedUp(base: Elems, stored: Elems): (t: Elems)
    requires base != []
    ensures |t| == |stored|
  {
    var top := base[|base| - 1].speed;
    seq(|stored|, i requires 0 <= i < |stored| =>
      stored[i].(speed := stored[i].speed + SpeedOf(base, stored[i].id) + top))
  }

  function EndOfTurn(srt: Sorter, base: Elems, stored: Elems): Elems
    requires base != []
  {
    if |base| == 1 then stored else Order(srt, base, ToppedUp(base, stored))
  }

  function WithSpeed(s: Elems, i: nat, y: int): (t: Elems)
    requires i < |s|
    ensures |t| == |s| && t[i].speed == y
    ensures forall j :: 0 <= j < |s| ==> t[j].id == s[j].id && t[j].isContender == s[j].isContender
    ensures forall j :: 0 <= j < |s| && j != i ==> t[j] == s[j]
  {
    s[i := s[i].(speed := y)]
  }

  /** The list after its last element, the fastest, has paid for its action; somebody alone
      pays nothing. */
  function FastestDebited(base: Elems, order: Elems): (t: Elems)
    requires order != []
    ensures |t| == |order|
  {
    var last := |order| - 1;
    if last == 0 then order
    else WithSpeed(order, last, order[last].speed - DebitOf(base, order, order[last].id))
  }

  /** One call: who plays, and the state afterwards. */
  function Next(srt: Sorter, s: State): (PriorityElem, State) {
    var base := OrderedBase(srt, s);
    var order := Order(srt, base, s.stored);
    if base == [] || order == [] then (NOBODY, s) else
    var stored := FastestDebited(base, order);
    var played := stored[|stored| - 1];
    if played.id == base[0].id then (played, State(base, EndOfTurn(srt, base, stored), true))
    else (played, State(base, stored, false))
  }

  function Stream(srt: Sorter, s: State, n: nat): (picks: Elems)
    ensures |picks| == n
    decreases n
  {
    if n == 0 then [] else
    var (e, s') := Next(srt, s);
    [e] + Stream(srt, s', n - 1)
  }

  function After(srt: Sorter, s: State, n: nat): State
    decreases n
  {
    if n == 0 then s else After(srt, Next(srt, s).1, n - 1)
  }

  lemma {:induction false} StreamSplits(srt: Sorter, s: State, m: nat, n: nat)
    ensures Stream(srt, s, m + n) == Stream(srt, s, m) + Stream(srt, After(srt, s, m), n)
    ensures After(srt, s, m + n) == After(srt, After(srt, s, m), n)
    decreases m
  {
    hide Next;
    if m > 0 {
      var s' := Next(srt, s).1;
      StreamSplits(srt, s', m - 1, n);
      assert m + n - 1 == m - 1 + n;
    }
  }

  // ----- the speeds behind the lists

  function BaseSpeeds(base: Elems): (b: seq<int>)
    ensures |b| == |base| && forall i :: 0 <= i < |base| ==> b[i] == base[i].speed
  {
    seq(|base|, i requires 0 <= i < |base| => base[i].speed)
  }

  /** Stored speeds listed by base rank. */
  function StoredSpeeds(base: Elems, stored: Elems): (v: seq<int>)
    ensures |v| == |base|
    ensures forall i :: 0 <= i < |base| ==> v[i] == SpeedOf(stored, base[i].id)
  {
    seq(|base|, i requires 0 <= i < |base| => SpeedOf(stored, base[i].id))
  }

  /** The two lists are about the same participants, each listed once. */
  ghost predicate SameRoster(base: Elems, stored: Elems) {
    && DistinctIds(base)
    && DistinctIds(stored)
    && |base| == |stored|
    && Ids(base) == Ids(stored)
    && Identities(base) == Identities(stored)
  }

  ghost predicate WellFormed(s: State) {
    && s.base != []
    && SameRoster(s.base, s.stored)
    && SpeedsAtLeast(s.base, 1)
    && (s.turnStart ==> SpeedsAtLeast(s.stored, 1))
    && (!s.turnStart ==> Ascending(s.base) && Dyn.Live(StoredSpeeds(s.base, s.stored)))
  }

  lemma RosterMember(base: Elems, stored: Elems, e: PriorityElem)
    requires SameRoster(base, stored) && e in stored
    ensures Find(base, e.id) < |base| && SpeedOf(stored, e.id) == e.speed
    ensures StoredSpeeds(base, stored)[Find(base, e.id)] == e.speed
  {
    var i :| 0 <= i < |stored| && stored[i] == e;
    SpeedOfMember(stored, i);
    assert e.id in Ids(stored);
    assert e.id in Ids(base);
  }

  lemma RosterRank(base: Elems, stored: Elems, k: nat) returns (e: PriorityElem)
    requires SameRoster(base, stored) && k < |base|
    ensures e in stored && e.id == base[k].id && e.speed == StoredSpeeds(base, stored)[k]
  {
    assert base[k] in base;
    assert base[k].id in Ids(base);
    e :| e in stored && e.id == base[k].id;
    RosterMember(base, stored, e);
  }

  lemma OrderPermutes(srt: Sorter, base: Elems, stored: Elems)
    requires SortsBySpeed(srt) && SameRoster(base, stored)
    ensures Ascending(Order(srt, base, stored))
    ensures SameRoster(base, Order(srt, base, stored))
    ensures StoredSpeeds(base, Order(srt, base, stored)) == StoredSpeeds(base, stored)
    ensures forall e :: e in Order(srt, base, stored) <==> e in stored
  {
    var order := Order(srt, base, stored);
    assert IsSorting(stored, srt(stored));
    TieReversalKeepsPick(base, srt(stored));
    SameMembers(stored, order);
    ReorderingKeepsSpeeds(stored, order);
  }

  lemma SameIdsInPlace(base: Elems, s: Elems, t: Elems)
    requires SameRoster(base, s)
    requires |t| == |s|
    requires forall j :: 0 <= j < |s| ==> t[j].id == s[j].id && t[j].isContender == s[j].isContender
    ensures SameRoster(base, t)
    ensures forall k :: 0 <= k < |base| ==>
              Find(s, base[k].id) == Find(t, base[k].id) < |s|
  {
    SameIdentities(s, t);
    forall id | id in Ids(s)
      ensures id in Ids(t)
    {
      var j := Find(s, id);
      assert t[j] in t;
    }
    forall id | id in Ids(t)
      ensures id in Ids(s)
    {
      var j := Find(t, id);
      assert s[j] in s;
    }
    forall k | 0 <= k < |base|
      ensures Find(s, base[k].id) == Find(t, base[k].id) < |s|
    {
      var e := RosterRank(base, s, k);
    }
  }

  lemma SameIdentities(s: Elems, t: Elems)
    requires |t| == |s|
    requires forall j :: 0 <= j < |s| ==> t[j].id == s[j].id && t[j].isContender == s[j].isContender
    ensures Identities(s) == Identities(t)
  {
    forall x | x in Identities(s)
      ensures x in Identities(t)
    {
      var j :| 0 <= j < |s| && (s[j].id, s[j].isContender) == x;
      assert t[j] in t;
    }
    forall x | x in Identities(t)
      ensures x in Identities(s)
    {
      var j :| 0 <= j < |t| && (t[j].id, t[j].isContender) == x;
      assert s[j] in s;
    }
  }

  lemma SpeedUpdate(base: Elems, s: Elems, i: nat, y: int)
    requires SameRoster(base, s) && i < |s|
    ensures SameRoster(base, WithSpeed(s, i, y)) && Find(base, s[i].id) < |base|
    ensures StoredSpeeds(base, WithSpeed(s, i, y)) == StoredSpeeds(base, s)[Find(base, s[i].id) := y]
  {
    hide Find;
    var t := WithSpeed(s, i, y);
    SameIdsInPlace(base, s, t);
    RosterMember(base, s, s[i]);
    SpeedOfMember(s, i);
    var rank := Find(base, s[i].id);
    forall k | 0 <= k < |base|
      ensures SpeedOf(t, base[k].id) == if k == rank then y else SpeedOf(s, base[k].id)
    {
      assert k != rank ==> base[k].id != base[rank].id;
    }
  }

  lemma TopUpSpeeds(base: Elems, stored: Elems)
    requires SameRoster(base, stored) && base != []
    ensures SameRoster(base, ToppedUp(base, stored))
    ensures forall k :: 0 <= k < |base| ==>
              StoredSpeeds(base, ToppedUp(base, stored))[k]
              == StoredSpeeds(base, stored)[k] + base[k].speed + base[|base| - 1].speed
  {
    SameIdsInPlace(base, stored, ToppedUp(base, stored));
    forall k | 0 <= k < |base|
      ensures SpeedOf(base, base[k].id) == base[k].speed
    {
      SpeedOfMember(base, k);
    }
  }

  // ----- one call is one legal play

  lemma OrderedBaseIsRoster(srt: Sorter, s: State)
    requires SortsBySpeed(srt) && WellFormed(s)
    ensures var base := OrderedBase(srt, s);
            |base| == |s.base| && Ids(base) == Ids(s.base) && Identities(base) == Identities(s.base) &&
            Ascending(base) && SpeedsAtLeast(base, 1) && SameRoster(base, s.stored) &&
            Dyn.Live(StoredSpeeds(base, s.stored))
  {
    var base := OrderedBase(srt, s);
    if s.turnStart {
      assert IsSorting(s.base, base);
      SameMembers(s.base, base);
      ReorderingKeepsSpeeds(s.base, base);
      forall k | 0 <= k < |base|
        ensures 1 <= StoredSpeeds(base, s.stored)[k]
      {
        var e := RosterRank(base, s.stored, k);
      }
    }
  }

  lemma FastestIsPickable(base: Elems, order: Elems)
    requires SameRoster(base, order) && Ascending(order) && base != []
    ensures Dyn.Pickable(StoredSpeeds(base, order), Find(base, order[|order| - 1].id))
  {
    hide Find, SpeedOf;
    var v, last := StoredSpeeds(base, order), order[|order| - 1];
    RosterMember(base, order, last);
    forall k | 0 <= k < |v|
      ensures v[k] <= last.speed
    {
      var e := RosterRank(base, order, k);
      var j :| 0 <= j < |order| && order[j] == e;
    }
  }

  lemma DebitByRank(base: Elems, stored: Elems, e: PriorityElem)
    requires SameRoster(base, stored) && e in stored
    ensures Find(base, e.id) < |base|
    ensures DebitOf(base, stored, e.id) == Dyn.Debit(StoredSpeeds(base, stored), Find(base, e.id))
  {
    hide Find, SpeedOf;
    RosterMember(base, stored, e);
  }

  /** What the fastest loses, seen by rank. */
  lemma DebitedSpeeds(srt: Sorter, base: Elems, stored: Elems)
    requires SortsBySpeed(srt) && SameRoster(base, stored) && |base| > 1
    ensures var order := Order(srt, base, stored);
            order != [] &&
            var k, paid := Find(base, order[|order| - 1].id), FastestDebited(base, order);
            SameRoster(base, paid) && Dyn.Pickable(StoredSpeeds(base, stored), k) &&
            paid[|paid| - 1].id == order[|order| - 1].id &&
            StoredSpeeds(base, paid) == Dyn.Debited(StoredSpeeds(base, stored), k)
  {
    hide Find, Order, DebitOf;
    OrderPermutes(srt, base, stored);
    var order := Order(srt, base, stored);
    FastestIsPickable(base, order);
    DebitByRank(base, order, order[|order| - 1]);
    var last := |order| - 1;
    SpeedUpdate(base, order, last, order[last].speed - DebitOf(base, order, order[last].id));
    RosterMember(base, order, order[last]);
  }

  lemma ToppedUpSpeeds(srt: Sorter, base: Elems, stored: Elems)
    requires SortsBySpeed(srt) && SameRoster(base, stored) && |base| > 1
    ensures var rested := EndOfTurn(srt, base, stored);
            SameRoster(base, rested) &&
            forall k :: 0 <= k < |base| ==>
              StoredSpeeds(base, rested)[k]
              == StoredSpeeds(base, stored)[k] + base[k].speed + base[|base| - 1].speed
  {
    TopUpSpeeds(base, stored);
    OrderPermutes(srt, base, ToppedUp(base, stored));
  }

  lemma RosterSpeeds(base: Elems)
    requires |base| > 1 && Ascending(base) && SpeedsAtLeast(base, 1)
    ensures Dyn.Roster(BaseSpeeds(base))
  {
  }

  lemma StoredAtLeast(base: Elems, stored: Elems, m: int)
    requires SameRoster(base, stored)
    requires forall k :: 0 <= k < |base| ==> m <= StoredSpeeds(base, stored)[k]
    ensures SpeedsAtLeast(stored, m)
  {
    forall e | e in stored
      ensures m <= e.speed
    {
      RosterMember(base, stored, e);
    }
  }

  /** The rank, in this turn's base order, of the participant the next call returns. */
  function NextRank(srt: Sorter, s: State): nat {
    Find(OrderedBase(srt, s), Next(srt, s).0.id)
  }

  /** One call of the scheduler is one legal play of the speed dynamics, and a turn ends
      exactly when rank 0 plays. */
  lemma NextIsLegalPlay(srt: Sorter, s: State)
    requires SortsBySpeed(srt) && WellFormed(s) && |s.base| > 1
    ensures var base, k, s' := OrderedBase(srt, s), NextRank(srt, s), Next(srt, s).1;
            var b, v := BaseSpeeds(base), StoredSpeeds(base, s.stored);
            Dyn.Roster(b) && Dyn.Live(v) && Dyn.Pickable(v, k) &&
            s'.base == base && (s'.turnStart <==> k == 0) && WellFormed(s') &&
            StoredSpeeds(base, s'.stored) == Dyn.Play(b, v, k)
  {
    hide Find, Order, OrderedBase, FastestDebited, EndOfTurn;
    OrderedBaseIsRoster(srt, s);
    var base, s' := OrderedBase(srt, s), Next(srt, s).1;
    var b, v := BaseSpeeds(base), StoredSpeeds(base, s.stored);
    RosterSpeeds(base);
    DebitedSpeeds(srt, base, s.stored);
    var order := Order(srt, base, s.stored);
    var paid := FastestDebited(base, order);
    var k := Find(base, paid[|paid| - 1].id);
    assert k == NextRank(srt, s);
    Dyn.PlayKeepsLive(b, v, k);
    if k == 0 {
      ToppedUpSpeeds(srt, base, paid);
      assert s'.stored == EndOfTurn(srt, base, paid);
      var w := StoredSpeeds(base, s'.stored);
      assert forall i :: 0 <= i < |base| ==> w[i] == Dyn.Debited(v, k)[i] + b[i] + Dyn.Top(b);
      assert w == Dyn.Play(b, v, k);
      StoredAtLeast(base, s'.stored, 1);
    } else {
      assert base[k].id != base[0].id;
    }
  }

  /** Who is paid: the neighbour before the one who acts in base order, so nobody's base speed
      lies between theirs; the slowest pays by the fastest; and a speed of 0 counts as 1. */
  lemma PayeeIsNextSlower(base: Elems, stored: Elems, k: nat)
    requires SameRoster(base, stored) && Ascending(base) && k < |base| && |base| > 1
    ensures var payee := base[(k + |base| - 1) % |base|];
            && payee.id != base[k].id
            && DebitOf(base, stored, base[k].id)
               == (if SpeedOf(stored, payee.id) == 0 then 1 else SpeedOf(stored, payee.id))
            && (k > 0 ==> && payee.speed <= base[k].speed
                          && forall e :: e in base ==> !(payee.speed < e.speed < base[k].speed))
            && (k == 0 ==> forall e :: e in base ==> e.speed <= payee.speed)
  {
    hide Find, SpeedOf;
    SpeedOfMember(base, k);
    assert (k + |base| - 1) % |base| == if k == 0 then |base| - 1 else k - 1;
  }

  /** What a completed turn leaves: everybody topped up, sorted by speed once more, and the ties of
      that sorting reversed. */
  lemma RestedIsSorted(srt: Sorter, s: State)
    requires SortsBySpeed(srt) && WellFormed(s) && |s.base| > 1 && Next(srt, s).1.turnStart
    ensures var s' := Next(srt, s).1;
            && Ascending(s'.stored)
            && exists before: Elems :: multiset(before) == multiset(s'.stored)
                                       && s'.stored == TieReversal(s'.base, srt(before))
  {
    hide Find, FastestDebited, SpeedOf, TieReversal, Dyn.Roster, Dyn.Live;
    NextIsLegalPlay(srt, s);
    OrderedBaseIsRoster(srt, s);
    var base := OrderedBase(srt, s);
    DebitedSpeeds(srt, base, s.stored);
    var topped := ToppedUp(base, FastestDebited(base, Order(srt, base, s.stored)));
    TopUpSpeeds(base, FastestDebited(base, Order(srt, base, s.stored)));
    OrderPermutes(srt, base, topped);
    assert IsSorting(topped, srt(topped));
    TieReversalPermutes(base, srt(topped));
    assert Next(srt, s).1.stored == TieReversal(base, srt(topped));
  }

  /** What is returned: somebody of the side, as what it is, with the speed it has left after
      paying; the next top-up comes on top of that. */
  lemma ReturnedEntry(srt: Sorter, s: State)
    requires SortsBySpeed(srt) && WellFormed(s) && |s.base| > 1
    ensures var (e, s') := Next(srt, s);
            && Known(s'.base, e)
            && (!s'.turnStart ==> e in s'.stored)
            && (s'.turnStart ==>
                  e.(speed := e.speed + SpeedOf(s'.base, e.id) + s'.base[|s'.base| - 1].speed) in s'.stored)
  {
    hide Find, Order, OrderedBase, FastestDebited, Dyn.Roster, Dyn.Live, Identities, SpeedOf;
    NextIsLegalPlay(srt, s);
    OrderedBaseIsRoster(srt, s);
    var base := OrderedBase(srt, s);
    DebitedSpeeds(srt, base, s.stored);
    var order := Order(srt, base, s.stored);
    var paid := FastestDebited(base, order);
    KnownInRoster(base, paid, paid[|paid| - 1]);
    if Next(srt, s).1.turnStart {
      TopUpSpeeds(base, paid);
      OrderPermutes(srt, base, ToppedUp(base, paid));
      assert ToppedUp(base, paid)[|paid| - 1] in ToppedUp(base, paid);
    }
  }

  lemma KnownInRoster(base: Elems, stored: Elems, e: PriorityElem)
    requires SameRoster(base, stored) && e in stored
    ensures Known(base, e)
  {
    assert (e.id, e.isContender) in Identities(stored);
  }

  /** The base list is only sorted at the start of a turn, so sorting it beforehand makes no
      difference to the call. */
  lemma BaseSortedBeforehand(srt: Sorter, s: State)
    requires SortsBySpeed(srt) && WellFormed(s) && s.turnStart
    ensures var early := State(srt(s.base), s.stored, false);
            WellFormed(early) && Next(srt, early) == Next(srt, s)
  {
    hide Order, Find, EndOfTurn, FastestDebited;
    OrderedBaseIsRoster(srt, s);
    OrderPermutes(srt, srt(s.base), s.stored);
  }

  /** Somebody alone on a side is returned by every call, unchanged. */
  lemma AloneIsAlwaysNext(srt: Sorter, s: State)
    requires SortsBySpeed(srt) && WellFormed(s) && |s.base| == 1
    ensures Next(srt, s) == (s.stored[0], s.(turnStart := true))
    ensures WellFormed(s.(turnStart := true)) && OrderedBase(srt, s) == s.base
    ensures s.stored[0].id == s.base[0].id && Known(s.base, s.stored[0])
  {
    KnownInRoster(s.base, s.stored, s.stored[0]);
    OrderedBaseIsRoster(srt, s);
    var base := OrderedBase(srt, s);
    OrderPermutes(srt, base, s.stored);
    var order := Order(srt, base, s.stored);
    assert order[0] in s.stored;
    assert s.stored[0].id in Ids(s.stored);
    assert s.stored[0].id in Ids(s.base);
    SameMembers(s.base, srt(s.base));
    assert srt(s.base)[0] in s.base;
    assert base == s.base && order == s.stored;
    StoredAtLeast(s.base, s.stored, 1);
  }
}
