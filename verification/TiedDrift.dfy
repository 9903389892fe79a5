/**
 How far stored speeds can drift when equal base speeds meet an unfortunate sorting routine,
 and so exactly when ten times the fastest base speed is enough.
 */
module TiedDrift {
  import opened PriorityLists
  import opened SimpleScheduler
  import opened SchedulerRuns
  import opened SchedulerLaws
  import Dyn = SpeedDynamics
  import SB = SpeedBounds

  // ----- a sorting routine

  /** Ascending by speed; of equal speeds the smallest id comes last. */
  predicate Before(e: PriorityElem, f: PriorityElem) {
    e.speed < f.speed || (e.speed == f.speed && f.id <= e.id)
  }

  function Insert(e: PriorityElem, s: Elems): (t: Elems)
    ensures multiset(t) == multiset(s) + multiset{e}
  {
    if s == [] then [e]
    else if Before(e, s[0]) then [e] + s
    else
      assert s == [s[0]] + s[1..];
      [s[0]] + Insert(e, s[1..])
  }

  function InsertionSort(s: Elems): (t: Elems)
    ensures multiset(t) == multiset(s)
  {
    if s == [] then [] else
    assert s == [s[0]] + s[1..];
    Insert(s[0], InsertionSort(s[1..]))
  }

  ghost predicate Ordered(s: Elems) {
    forall i, j :: 0 <= i < j < |s| ==> Before(s[i], s[j])
  }

  lemma {:induction false} InsertKeepsOrder(e: PriorityElem, s: Elems)
    requires Ordered(s)
    ensures Ordered(Insert(e, s))
    decreases |s|
  {
    if s != [] && !Before(e, s[0]) {
      InsertKeepsOrder(e, s[1..]);
      var rest := Insert(e, s[1..]);
      forall f | f in rest
        ensures Before(s[0], f)
      {
        assert f in multiset(rest);
        assert f == e || f in s[1..];
      }
    }
  }

  lemma {:induction false} InsertionSortOrders(s: Elems)
    ensures Ordered(InsertionSort(s))
    decreases |s|
  {
    if s != [] {
      InsertionSortOrders(s[1..]);
      InsertKeepsOrder(s[0], InsertionSort(s[1..]));
    }
  }

  /** There is a sorting routine as every law of the scheduler assumes one. */
  lemma InsertionSortSorts()
    ensures SortsBySpeed(InsertionSort)
  {
    forall s: Elems
      ensures IsSorting(s, InsertionSort(s))
    {
      InsertionSortOrders(s);
    }
  }

  lemma PickedIsLast(srt: Sorter, s: State)
    requires SortsBySpeed(srt) && WellFormed(s) && |s.base| > 1
    ensures srt(s.stored) != [] && Next(srt, s).0.id == srt(s.stored)[|srt(s.stored)| - 1].id
  {
    hide Find, SpeedOf;
    OrderedBaseIsRoster(srt, s);
    var base := OrderedBase(srt, s);
    assert IsSorting(s.stored, srt(s.stored));
    SameMembers(s.stored, srt(s.stored));
    TieReversalPermutes(base, srt(s.stored));
  }

  /** Participants of base speeds 1, 2 and 4. */
  const UNEVEN: Elems := [PriorityElem(0, 1, false), PriorityElem(1, 2, false), PriorityElem(2, 4, false)]

  lemma UnevenFacts()
    ensures StrictlyAscending(UNEVEN) && DistinctIds(UNEVEN) && SpeedsAtLeast(UNEVEN, 1)
    ensures Find(UNEVEN, 0) == 0 && Find(UNEVEN, 1) == 1 && Find(UNEVEN, 2) == 2
    ensures SpeedOf(UNEVEN, 0) == 1 && SpeedOf(UNEVEN, 1) == 2 && SpeedOf(UNEVEN, 2) == 4
  {
    SpeedOfMember(UNEVEN, 0);
    SpeedOfMember(UNEVEN, 1);
    SpeedOfMember(UNEVEN, 2);
  }

  lemma UnevenSorted()
    ensures SortsBySpeed(InsertionSort) && InsertionSort(UNEVEN) == UNEVEN
    ensures WellFormed(Fresh(UNEVEN)) && Built(UNEVEN)
  {
    hide InsertionSort, Find;
    UnevenFacts();
    InsertionSortSorts();
    assert IsSorting(UNEVEN, InsertionSort(UNEVEN));
    SortingIsForced(UNEVEN, InsertionSort(UNEVEN));
  }

  /** The first call returns the fastest, which then holds as much as the next one. */
  function AfterFirst(): Elems {
    [UNEVEN[0], UNEVEN[1], UNEVEN[2].(speed := 2)]
  }

  lemma UnevenFirst()
    ensures Next(InsertionSort, Fresh(UNEVEN)).1 == State(UNEVEN, AfterFirst(), false)
  {
    hide InsertionSort, Find, SpeedOf;
    UnevenFacts();
    UnevenSorted();
    assert !TieInverted(UNEVEN, UNEVEN, 0) && !TieInverted(UNEVEN, UNEVEN, 1);
    assert Order(InsertionSort, UNEVEN, UNEVEN) == UNEVEN;
    assert DebitOf(UNEVEN, UNEVEN, 2) == 2;
    assert FastestDebited(UNEVEN, UNEVEN) == AfterFirst();
  }

  lemma UnevenSecond()
    ensures InsertionSort(AfterFirst()) == [AfterFirst()[0], AfterFirst()[2], AfterFirst()[1]]
  {
    var a, b, c := AfterFirst()[0], AfterFirst()[1], AfterFirst()[2];
    assert InsertionSort([c]) == [c];
    assert [b, c][1..] == [c] && InsertionSort([b, c]) == [c, b];
    assert [a, b, c][1..] == [b, c];
  }

  lemma UnevenTie()
    ensures var order := [AfterFirst()[0], AfterFirst()[2], AfterFirst()[1]];
            TieInverted(UNEVEN, order, 1) && TieReversal(UNEVEN, order) == order
  {
    hide SpeedOf;
    UnevenFacts();
    var order := [AfterFirst()[0], AfterFirst()[2], AfterFirst()[1]];
    assert SpeedChanges(order, 0) && !TieInverted(UNEVEN, order, 0) && TieInverted(UNEVEN, order, 1);
  }

  /** So of two participants tied for fastest the one with the smaller base speed can be returned:
      a freshly built side whose second call finds an inverted tie at the fast end and leaves it. */
  lemma SlowerOfTiedIsReturned()
    ensures var s := After(InsertionSort, Fresh(UNEVEN), 1);
            var order := InsertionSort(s.stored);
            && SortsBySpeed(InsertionSort) && Built(UNEVEN) && InsertionSort(UNEVEN) == UNEVEN
            && |order| == 3 && TieInverted(UNEVEN, order, 1) && TieReversal(UNEVEN, order) == order
            && Next(InsertionSort, s).0.id == 1
  {
    hide InsertionSort, Find, SpeedOf, TieInverted, TieReversal, Next, SortsBySpeed;
    UnevenSorted();
    UnevenFirst();
    UnevenSecond();
    UnevenTie();
    var s := State(UNEVEN, AfterFirst(), false);
    OneMoreCall(InsertionSort, Fresh(UNEVEN), 0);
    assert After(InsertionSort, s, 0) == s;
    UnevenGoesOn();
    PickedIsLast(InsertionSort, s);
  }

  lemma UnevenGoesOn()
    ensures WellFormed(State(UNEVEN, AfterFirst(), false))
  {
    hide Next, InsertionSort;
    UnevenSorted();
    UnevenFirst();
    NextIsLegalPlay(InsertionSort, Fresh(UNEVEN));
  }

  // ----- an unlucky one

  predicate AllTwos(s: Elems) {
    forall i :: 0 <= i < |s| ==> s[i].speed == 2
  }

  lemma RotatedMembers(s: Elems)
    requires s != []
    ensures multiset(s[1..] + [s[0]]) == multiset(s)
  {
    assert s == [s[0]] + s[1..];
  }

  lemma SwappedMembers(t: Elems)
    requires |t| >= 2
    ensures multiset([t[1], t[0]] + t[2..]) == multiset(t)
  {
    var a, b, rest := t[0], t[1], t[2..];
    assert t == [a, b] + rest;
    assert multiset([b, a] + rest) == multiset{a, b} + multiset(rest) == multiset([a, b] + rest);
  }

  lemma ThreeOrders(a: PriorityElem, b: PriorityElem, c: PriorityElem)
    ensures multiset([a, c, b]) == multiset([a, b, c])
    ensures multiset([b, a, c]) == multiset([a, b, c])
    ensures multiset([b, c, a]) == multiset([a, b, c])
    ensures multiset([c, a, b]) == multiset([a, b, c])
    ensures multiset([c, b, a]) == multiset([a, b, c])
  {
    RotatedThree(a, b, c);
    RotatedThree(b, c, a);
    SwappedThree(a, b, c);
    SwappedThree(b, c, a);
    SwappedThree(c, a, b);
  }

  lemma RotatedThree(a: PriorityElem, b: PriorityElem, c: PriorityElem)
    ensures multiset([b, c, a]) == multiset([a, b, c])
  {
    RotatedMembers([a, b, c]);
    assert [a, b, c][1..] + [a] == [b, c, a];
  }

  lemma SwappedThree(a: PriorityElem, b: PriorityElem, c: PriorityElem)
    ensures multiset([b, a, c]) == multiset([a, b, c])
  {
    SwappedMembers([a, b, c]);
    assert [b, a] + [a, b, c][2..] == [b, a, c];
  }

  /** The order in which equal base speeds of three are put next, depending on the ids. */
  function ShuffledThree(s: Elems): (t: Elems)
    requires |s| == 3
    ensures multiset(t) == multiset(s)
  {
    var (a, b, c) := (s[0], s[1], s[2]);
    assert s == [a, b, c];
    ThreeOrders(a, b, c);
    if a.id == 2 && b.id == 1 then [a, c, b]
    else if a.id == 2 then [b, c, a]
    else if (a.id, b.id) == (0, 2) || (a.id, b.id) == (1, 0) then [c, b, a]
    else [b, a, c]
  }

  /** Of more than three the first goes to the end; once everybody has been first, the first
      two change places. */
  function ShuffledMore(s: Elems): (t: Elems)
    requires |s| > 3
    ensures multiset(t) == multiset(s)
  {
    var t := s[1..] + [s[0]];
    RotatedMembers(s);
    SwappedMembers(t);
    if t[2].id == 2 && t[0].id < 2 && t[1].id < 2 then [t[1], t[0]] + t[2..] else t
  }

  function Shuffled(s: Elems): (t: Elems)
    ensures multiset(t) == multiset(s)
  {
    if |s| < 3 then s else if |s| == 3 then ShuffledThree(s) else ShuffledMore(s)
  }

  function Unlucky(s: Elems): (t: Elems)
    ensures multiset(t) == multiset(s)
  {
    if AllTwos(s) then Shuffled(s) else InsertionSort(s)
  }

  lemma UnluckySorts()
    ensures SortsBySpeed(Unlucky)
  {
    forall s: Elems
      ensures IsSorting(s, Unlucky(s))
    {
      if AllTwos(s) {
        SameMembers(s, Unlucky(s));
        assert forall e :: e in s ==> e.speed == 2;
      } else {
        InsertionSortOrders(s);
      }
    }
  }

  // ----- its calls on a side of equal base speeds

  function Two(id: nat): PriorityElem {
    PriorityElem(id, 2, false)
  }

  function Row(n: nat): (s: Elems)
    ensures |s| == n && forall i :: 0 <= i < n ==> s[i] == Two(i)
  {
    seq(n, i requires 0 <= i < n => Two(i))
  }

  /** Three or more participants of base speed 2, numbered from 0, in some order. */
  ghost predicate Twos(base: Elems) {
    |base| > 2 && multiset(base) == multiset(Row(|base|))
  }

  lemma TwosFacts(base: Elems)
    requires Twos(base)
    ensures |base| > 2 && DistinctIds(base)
    ensures forall e :: e in base ==> e.id < |base| && e == Two(e.id)
    ensures forall id: nat :: id < |base| ==> id in Ids(base)
  {
    SameMembers(base, Row(|base|));
    ReorderingKeepsSpeeds(Row(|base|), base);
    forall id: nat | id < |base|
      ensures id in Ids(base)
    {
      assert Row(|base|)[id] in base;
    }
  }

  /** The stored speeds by id. */
  ghost predicate Holds(s: State, v: seq<int>) {
    |v| == |s.base| && forall id: nat :: id < |v| ==> SpeedOf(s.stored, id) == v[id]
  }

  /** `u` is the first of those who hold the most. */
  predicate FirstOfMost(v: seq<int>, u: nat) {
    u < |v| && forall id: nat :: id < |v| && id != u ==> v[id] < v[u] || (v[id] == v[u] && u < id)
  }

  function Played(v: seq<int>, u: nat, p: nat, ended: bool): (w: seq<int>)
    requires u < |v| && p < |v|
    ensures |w| == |v|
  {
    seq(|v|, i requires 0 <= i < |v| =>
      (if i == u then v[u] - Dyn.Price(v[p]) else v[i]) + (if ended then 4 else 0))
  }

  lemma HeldSpeed(s: State, base: Elems, v: seq<int>, e: PriorityElem)
    requires Twos(base) && SameRoster(base, s.stored) && |s.base| == |base| && Holds(s, v) && e in s.stored
    ensures e.id < |v| && e.speed == v[e.id]
  {
    hide Find, SpeedOf;
    TwosFacts(base);
    RosterMember(base, s.stored, e);
    assert e.id in Ids(base);
  }

  /** Whoever comes last in order is the first of those who hold the most. */
  lemma LastInOrder(t: Elems, v: seq<int>, u: nat)
    requires Ordered(t) && t != [] && FirstOfMost(v, u)
    requires (forall e :: e in t ==> e.id < |v| && e.speed == v[e.id]) && exists f :: f in t && f.id == u
    ensures t[|t| - 1].id == u
  {
    var f :| f in t && f.id == u;
    var last := t[|t| - 1];
    assert last in t && Before(f, last);
  }

  lemma UnluckyPick(s: State, base: Elems, v: seq<int>, r: nat, other: nat)
    requires WellFormed(s) && Twos(base) && SameRoster(base, s.stored) && |s.base| == |base|
    requires Holds(s, v) && r < |base| && FirstOfMost(v, base[r].id)
    requires other < |base| && base[other].id < |v| && v[base[other].id] != 2
    ensures Next(Unlucky, s).0.id == base[r].id
  {
    hide Next, Find, SpeedOf, WellFormed, Twos, Holds, FirstOfMost, Ordered;
    UnluckySorts();
    TwosFacts(base);
    PickedIsLast(Unlucky, s);
    var e := RosterRank(base, s.stored, other);
    var f := RosterRank(base, s.stored, r);
    HeldSpeed(s, base, v, e);
    assert !AllTwos(s.stored);
    InsertionSortOrders(s.stored);
    SameMembers(s.stored, InsertionSort(s.stored));
    forall e | e in s.stored
      ensures e.id < |v| && e.speed == v[e.id]
    {
      HeldSpeed(s, base, v, e);
    }
    assert f in InsertionSort(s.stored);
    LastInOrder(InsertionSort(s.stored), v, base[r].id);
  }

  /** What is known of a state: its base list, the stored speeds, and whether a turn begins. */
  ghost predicate At(s: State, base: Elems, v: seq<int>, turnStart: bool) {
    WellFormed(s) && Twos(base) && s.base == base && Holds(s, v) && s.turnStart == turnStart
  }

  /** The effect of a call that returns the participant of rank `r`. */
  lemma CallOfRank(s: State, base: Elems, v: seq<int>, r: nat)
    requires At(s, s.base, v, s.turnStart) && base == OrderedBase(Unlucky, s) && Twos(base)
    requires |base| == |v| && r < |base| && Next(Unlucky, s).0.id == base[r].id
    ensures base[r].id < |v| && base[if r == 0 then |base| - 1 else r - 1].id < |v|
    ensures var p := base[if r == 0 then |base| - 1 else r - 1].id;
            At(Next(Unlucky, s).1, base, Played(v, base[r].id, p, r == 0), r == 0)
  {
    hide Next, SpeedOf, Find, OrderedBase, Dyn.Play, Dyn.Roster, Dyn.Live;
    UnluckySorts();
    NextIsLegalPlay(Unlucky, s);
    RankIsId(Unlucky, s);
    var s' := Next(Unlucky, s).1;
    assert NextRank(Unlucky, s) == r;
    TwosFacts(base);
    assert base[r] in base && base[if r == 0 then |base| - 1 else r - 1] in base;
    forall id: nat | id < |v|
      ensures SpeedOf(s'.stored, id)
           == Played(v, base[r].id, base[if r == 0 then |base| - 1 else r - 1].id, r == 0)[id]
    {
      var i := IdRank(base, id);
      PlayAt(BaseSpeeds(base), StoredSpeeds(base, s.stored), r, i);
      assert i != r ==> base[i].id != base[r].id;
      assert SpeedOf(s'.stored, id) == StoredSpeeds(base, s'.stored)[i];
      assert SpeedOf(s.stored, id) == StoredSpeeds(base, s.stored)[i];
    }
  }

  /** The state of the side that starts from `base`, after `k` calls. */
  ghost function Called(base: Elems, k: nat): State {
    After(Unlucky, Fresh(base), k)
  }

  lemma OneMore(base: Elems, k: nat)
    ensures Called(base, k + 1) == Next(Unlucky, Called(base, k)).1
  {
    hide Next;
    StreamSplits(Unlucky, Fresh(base), k, 1);
    OneMoreCall(Unlucky, Called(base, k), 0);
    assert After(Unlucky, Next(Unlucky, Called(base, k)).1, 0) == Next(Unlucky, Called(base, k)).1;
  }

  lemma UnluckyOrder(base: Elems)
    requires Twos(base)
    ensures Unlucky(base) == Shuffled(base) && Twos(Shuffled(base))
  {
    hide Shuffled, Find, DistinctIds, InsertionSort;
    TwosFacts(base);
    SameMembers(base, Shuffled(base));
    assert forall i :: 0 <= i < |base| ==> base[i] in base;
  }

  /** A turn that the slowest plays alone. */
  lemma QuietTurn(start: Elems, k: nat, before: Elems, v: seq<int>, base: Elems, w: seq<int>)
    requires At(Called(start, k), before, v, true) && base == Shuffled(before) && base != []
    requires base[0].id < |v| && base[|base| - 1].id < |v|
    requires FirstOfMost(v, base[0].id) && v[base[0].id] != 2
    requires w == Played(v, base[0].id, base[|base| - 1].id, true)
    ensures At(Called(start, k + 1), base, w, true)
  {
    hide *;
    var s := Called(start, k);
    AtFacts(s, before, v, true);
    UnluckyOrder(before);
    UnluckySorts();
    TurnStartBase(s);
    OrderedBaseIsRoster(Unlucky, s);
    OneMore(start, k);
    UnluckyPick(s, base, v, 0, 0);
    CallOfRank(s, base, v, 0);
  }

  lemma TurnStartBase(s: State)
    requires s.turnStart && Twos(s.base)
    ensures OrderedBase(Unlucky, s) == Shuffled(s.base) && |Shuffled(s.base)| == |s.base|
  {
    hide Shuffled, Twos;
    UnluckyOrder(s.base);
    SameMembers(s.base, Shuffled(s.base));
  }

  lemma AtFacts(s: State, base: Elems, v: seq<int>, turnStart: bool)
    requires At(s, base, v, turnStart)
    ensures s.base == base && s.turnStart == turnStart && At(s, s.base, v, s.turnStart)
    ensures WellFormed(s) && Twos(base) && Holds(s, v) && |v| == |base| > 2 && SameRoster(base, s.stored)
    ensures !turnStart ==> OrderedBase(Unlucky, s) == base
  {
  }

  /** A call in the middle of a turn: rank `r` pays `p`. */
  lemma MidCall(start: Elems, k: nat, base: Elems, v: seq<int>, r: nat, p: nat, other: nat)
    requires At(Called(start, k), base, v, false)
    requires r < |base| && base[r].id < |v| && FirstOfMost(v, base[r].id)
    requires p < |v| && p == base[if r == 0 then |base| - 1 else r - 1].id
    requires other < |base| && base[other].id < |v| && v[base[other].id] != 2
    ensures At(Called(start, k + 1), base, Played(v, base[r].id, p, r == 0), r == 0)
  {
    hide *;
    var s := Called(start, k);
    AtFacts(s, base, v, false);
    OneMore(start, k);
    UnluckyPick(s, base, v, r, other);
    CallOfRank(s, base, v, r);
  }

  lemma FreshAt(start: Elems)
    requires Twos(start)
    ensures At(Fresh(start), start, seq(|start|, _ => 2), true)
  {
    hide Find, SpeedOf;
    TwosFacts(start);
    forall id: nat | id < |start|
      ensures SpeedOf(start, id) == 2
    {
      var i := IdRank(start, id);
      assert start[i] in start;
    }
  }

  /** The first call returns the last of the order, since everybody still holds the same. */
  lemma FirstCall(start: Elems)
    requires Twos(start)
    ensures var base, v, last := Shuffled(start), seq(|start|, _ => 2), |start| - 1;
            && |base| == |start| && base[last].id < |v| && base[last - 1].id < |v|
            && At(Called(start, 1), base, Played(v, base[last].id, base[last - 1].id, false), false)
  {
    hide Next, Shuffled, Played, Twos, Holds, WellFormed, SortsBySpeed;
    var s, v := Fresh(start), seq(|start|, _ => 2);
    FreshAt(start);
    UnluckySorts();
    UnluckyOrder(start);
    SameMembers(start, Shuffled(start));
    TwosFacts(start);
    PickedIsLast(Unlucky, s);
    CallOfRank(s, Shuffled(start), v, |start| - 1);
    OneMore(start, 0);
  }

  // ----- a side of three

  function Trio(a: nat, b: nat, c: nat): Elems {
    [Two(a), Two(b), Two(c)]
  }

  lemma TrioTwos()
    ensures Twos(Trio(1, 2, 0)) && Twos(Trio(0, 2, 1))
  {
    ThreeOrders(Two(0), Two(1), Two(2));
    assert Row(3) == Trio(0, 1, 2);
  }

  lemma TrioIs(a: nat, b: nat, c: nat)
    ensures |Trio(a, b, c)| == 3
    ensures Trio(a, b, c)[0].id == a && Trio(a, b, c)[1].id == b && Trio(a, b, c)[2].id == c
  {
  }

  function Hold(x: int, y: int, z: int, id: nat): int {
    if id == 0 then x else if id == 1 then y else z
  }

  /** The order ShuffledThree gives, by id. */
  predicate FollowedBy(a: nat, b: nat, c: nat, d: nat, e: nat, f: nat) {
    (d, e, f) == if a == 2 && b == 1 then (a, c, b)
                 else if a == 2 then (b, c, a)
                 else if (a, b) == (0, 2) || (a, b) == (1, 0) then (c, b, a)
                 else (b, a, c)
  }

  predicate Foremost(x: int, y: int, z: int, d: nat) {
    && Hold(x, y, z, d) != 2
    && (d == 0 || x < Hold(x, y, z, d))
    && (d == 1 || y < Hold(x, y, z, d) || (y == Hold(x, y, z, d) && d == 0))
    && (d == 2 || z <= Hold(x, y, z, d))
  }

  /** The three in the order `a`, `b`, `c` with speeds `x`, `y`, `z` by id, after `k` calls. */
  ghost predicate TrioAt(k: nat, a: nat, b: nat, c: nat, x: int, y: int, z: int) {
    At(Called(Trio(1, 2, 0), k), Trio(a, b, c), [x, y, z], true)
  }

  lemma PlayedThree(x: int, y: int, z: int, d: nat, f: nat, ended: bool)
    requires d < 3 && f < 3 && d != f
    ensures var paid, top := Hold(x, y, z, d) - Dyn.Price(Hold(x, y, z, f)), if ended then 4 else 0;
            Played([x, y, z], d, f, ended)
            == [(if d == 0 then paid else x) + top, (if d == 1 then paid else y) + top,
                (if d == 2 then paid else z) + top]
  {
  }

  lemma TrioTurn(k: nat, a: nat, b: nat, c: nat, x: int, y: int, z: int, d: nat, e: nat, f: nat)
    requires TrioAt(k, a, b, c, x, y, z) && FollowedBy(a, b, c, d, e, f)
    requires d < 3 && f < 3 && d != f && Foremost(x, y, z, d)
    ensures var paid := Hold(x, y, z, d) - Dyn.Price(Hold(x, y, z, f)) + 4;
            TrioAt(k + 1, d, e, f, if d == 0 then paid else x + 4, if d == 1 then paid else y + 4,
                   if d == 2 then paid else z + 4)
  {
    hide Called, At, Played, Shuffled, FollowedBy, Foremost, FirstOfMost, Hold, Dyn.Price, Trio;
    TrioIs(d, e, f);
    TrioShuffled(a, b, c, d, e, f);
    ForemostIsFirst(x, y, z, d);
    PlayedThree(x, y, z, d, f, true);
    QuietTurn(Trio(1, 2, 0), k, Trio(a, b, c), [x, y, z], Trio(d, e, f), Played([x, y, z], d, f, true));
  }

  lemma TrioShuffled(a: nat, b: nat, c: nat, d: nat, e: nat, f: nat)
    requires FollowedBy(a, b, c, d, e, f)
    ensures Shuffled(Trio(a, b, c)) == Trio(d, e, f)
  {
  }

  lemma ForemostIsFirst(x: int, y: int, z: int, d: nat)
    requires d < 3 && Foremost(x, y, z, d)
    ensures FirstOfMost([x, y, z], d) && [x, y, z][d] != 2
  {
  }

  lemma TrioFirstCall()
    ensures At(Called(Trio(1, 2, 0), 1), Trio(2, 1, 0), [0, 2, 2], false)
  {
    hide Called, At, Played, Twos;
    TrioTwos();
    assert Shuffled(Trio(1, 2, 0)) == Trio(2, 1, 0);
    FirstCall(Trio(1, 2, 0));
    assert seq(3, _ => 2) == [2, 2, 2];
    PlayedThree(2, 2, 2, 0, 1, false);
  }

  lemma TrioSecondCall()
    ensures At(Called(Trio(1, 2, 0), 2), Trio(2, 1, 0), [0, 0, 2], false)
  {
    hide Called, At, Played, Trio;
    TrioFirstCall();
    TrioIs(2, 1, 0);
    PlayedThree(0, 2, 2, 1, 2, false);
    MidCall(Trio(1, 2, 0), 1, Trio(2, 1, 0), [0, 2, 2], 1, 2, 2);
  }

  lemma TrioStarts()
    ensures TrioAt(3, 2, 1, 0, 4, 4, 5)
  {
    hide Called, At, Played, Trio;
    TrioSecondCall();
    TrioIs(2, 1, 0);
    PlayedThree(0, 0, 2, 2, 0, true);
    MidCall(Trio(1, 2, 0), 2, Trio(2, 1, 0), [0, 0, 2], 0, 0, 2);
  }

  /** Three participants reach 21 in eleven calls, nine turns. */
  lemma TrioDrifts()
    ensures TrioAt(11, 0, 1, 2, 4, 13, 21)
  {
    hide TrioAt;
    TrioStarts();
    TrioTurn(3, 2, 1, 0, 4, 4, 5, 2, 0, 1);
    TrioTurn(4, 2, 0, 1, 8, 8, 5, 0, 1, 2);
    TrioTurn(5, 0, 1, 2, 7, 12, 9, 1, 0, 2);
    TrioTurn(6, 1, 0, 2, 11, 7, 13, 2, 0, 1);
    TrioTurn(7, 2, 0, 1, 15, 11, 10, 0, 1, 2);
    TrioTurn(8, 0, 1, 2, 9, 15, 14, 1, 0, 2);
    TrioTurn(9, 1, 0, 2, 13, 5, 18, 2, 0, 1);
    TrioTurn(10, 2, 0, 1, 17, 9, 17, 0, 1, 2);
  }

  // ----- a side of more than three

  /** Everybody in the order of ids, starting from `j`. */
  function Turned(n: nat, j: nat): (s: Elems)
    requires j < n
    ensures |s| == n && forall i :: 0 <= i < n ==> s[i] == Two(if i + j < n then i + j else i + j - n)
  {
    seq(n, i requires 0 <= i < n => Two(if i + j < n then i + j else i + j - n))
  }

  lemma TurnedNext(n: nat, j: nat)
    requires 4 <= n && j + 1 < n
    ensures Shuffled(Turned(n, j)) == Turned(n, j + 1)
  {
    assert Turned(n, j)[1..] + [Turned(n, j)[0]] == Turned(n, j + 1);
  }

  /** The first have the speeds in `front`, everybody after them has `rest`. */
  function Values(n: nat, front: seq<int>, rest: int): (v: seq<int>)
    requires |front| <= n
    ensures |v| == n && forall i :: 0 <= i < n ==> v[i] == if i < |front| then front[i] else rest
  {
    front + seq(n - |front|, _ => rest)
  }

  /** After the turn that the first untouched participant plays alone. */
  function Touched(front: seq<int>, rest: int): (f: seq<int>)
    requires front != []
    ensures |f| == |front| + 1
    ensures forall i :: 0 <= i < |front| ==> f[i] == front[i] + 4
    ensures f[|front|] == rest - Dyn.Price(front[|front| - 1]) + 4
  {
    seq(|front|, i requires 0 <= i < |front| => front[i] + 4) + [rest - Dyn.Price(front[|front| - 1]) + 4]
  }

  ghost predicate RowAt(n: nat, k: nat, j: nat, front: seq<int>, rest: int)
    requires j < n && |front| <= n
  {
    At(Called(Turned(n, 0), k), Turned(n, j), Values(n, front, rest), true)
  }

  /** Nobody untouched is left behind: the first of them plays the turn alone and pays the one
      who did so before. */
  lemma UntouchedTurn(n: nat, k: nat, front: seq<int>, rest: int)
    requires 4 <= n && 1 <= |front| < n && rest > 2 && forall i :: 0 <= i < |front| ==> front[i] < rest
    requires RowAt(n, k, |front| - 1, front, rest)
    ensures RowAt(n, k + 1, |front|, Touched(front, rest), rest + 4)
  {
    hide Called, At, Played, Shuffled;
    var j, v := |front|, Values(n, front, rest);
    TurnedNext(n, j - 1);
    assert Turned(n, j)[0].id == j && Turned(n, j)[n - 1].id == j - 1;
    PlayedUntouched(n, front, rest);
    QuietTurn(Turned(n, 0), k, Turned(n, j - 1), v, Turned(n, j), Values(n, Touched(front, rest), rest + 4));
  }

  lemma PlayedUntouched(n: nat, front: seq<int>, rest: int)
    requires 1 <= |front| < n
    ensures Played(Values(n, front, rest), |front|, |front| - 1, true) == Values(n, Touched(front, rest), rest + 4)
  {
  }

  lemma TurnedTwos(n: nat)
    requires 4 <= n
    ensures Twos(Turned(n, 0))
  {
    assert Turned(n, 0) == Row(n);
  }

  lemma RowFirstCall(n: nat)
    requires 4 <= n
    ensures At(Called(Turned(n, 0), 1), Turned(n, 1), Values(n, [0], 2), false)
  {
    hide Called, At, Shuffled, Twos;
    TurnedTwos(n);
    TurnedNext(n, 0);
    FirstCall(Turned(n, 0));
    assert Turned(n, 1)[n - 1].id == 0 && Turned(n, 1)[n - 2].id == n - 1;
    assert Played(seq(n, _ => 2), 0, n - 1, false) == Values(n, [0], 2);
  }

  lemma RowStarts(n: nat)
    requires 4 <= n
    ensures RowAt(n, 2, 1, [4, 5], 6)
  {
    hide Called, At, Shuffled, Twos;
    RowFirstCall(n);
    MidCall(Turned(n, 0), 1, Turned(n, 1), Values(n, [0], 2), 0, 0, n - 1);
    assert Played(Values(n, [0], 2), 1, 0, true) == Values(n, [4, 5], 6);
  }

  lemma RowGoesOn(n: nat)
    requires 4 <= n
    ensures RowAt(n, 4, 3, [12, 13, 9, 9], 14)
  {
    hide RowAt;
    RowStarts(n);
    UntouchedTurn(n, 2, [4, 5], 6);
    assert Touched([4, 5], 6) == [8, 9, 5];
    UntouchedTurn(n, 3, [8, 9, 5], 10);
    assert Touched([8, 9, 5], 10) == [12, 13, 9, 9];
  }

  /** Five participants or more. */
  lemma RowGoesFurther(n: nat)
    requires 5 <= n
    ensures RowAt(n, 5, 4, [16, 17, 13, 13, 9], 18)
  {
    hide RowAt;
    RowGoesOn(n);
    UntouchedTurn(n, 4, [12, 13, 9, 9], 14);
    assert Touched([12, 13, 9, 9], 14) == [16, 17, 13, 13, 9];
  }

  /** Six participants or more: the second one reaches 21. */
  lemma RowDrifts(n: nat)
    requires 6 <= n
    ensures RowAt(n, 6, 5, [20, 21, 17, 17, 13, 13], 22)
  {
    hide RowAt;
    RowGoesFurther(n);
    UntouchedTurn(n, 5, [16, 17, 13, 13, 9], 18);
    assert Touched([16, 17, 13, 13, 9], 18) == [20, 21, 17, 17, 13, 13];
  }

  function Listed(ids: seq<nat>): (s: Elems)
    ensures |s| == |ids| && forall i :: 0 <= i < |ids| ==> s[i] == Two(ids[i])
  {
    seq(|ids|, i requires 0 <= i < |ids| => Two(ids[i]))
  }

  /** Everybody has been first once: the first two change places in the next round. */
  lemma SecondRound(n: nat)
    requires n == 4 || n == 5
    ensures Shuffled(Turned(n, n - 1)) == Listed(if n == 4 then [1, 0, 2, 3] else [1, 0, 2, 3, 4])
  {
    assert Turned(n, n - 1)[1..] + [Turned(n, n - 1)[0]] == Turned(n, 0);
  }

  lemma FourLater()
    ensures Shuffled(Listed([1, 0, 2, 3])) == Listed([0, 2, 3, 1])
    ensures Shuffled(Listed([0, 2, 3, 1])) == Listed([2, 3, 1, 0])
  {
    assert Listed([1, 0, 2, 3])[1..] + [Listed([1, 0, 2, 3])[0]] == Listed([0, 2, 3, 1]);
    assert Listed([0, 2, 3, 1])[1..] + [Listed([0, 2, 3, 1])[0]] == Listed([2, 3, 1, 0]);
  }

  lemma FourValues()
    ensures Played([12, 13, 9, 9], 1, 3, true) == [16, 8, 13, 13] && FirstOfMost([12, 13, 9, 9], 1)
    ensures Played([16, 8, 13, 13], 0, 1, true) == [12, 12, 17, 17] && FirstOfMost([16, 8, 13, 13], 0)
    ensures Played([12, 12, 17, 17], 2, 0, true) == [16, 16, 9, 21] && FirstOfMost([12, 12, 17, 17], 2)
  {
  }

  /** Four participants reach 21 in seven calls. */
  lemma FourDrift()
    ensures At(Called(Turned(4, 0), 7), Listed([2, 3, 1, 0]), [16, 16, 9, 21], true)
  {
    hide Called, At, Shuffled, Played, FirstOfMost;
    var start := Turned(4, 0);
    RowGoesOn(4);
    assert Values(4, [12, 13, 9, 9], 14) == [12, 13, 9, 9];
    SecondRound(4);
    FourLater();
    FourValues();
    QuietTurn(start, 4, Turned(4, 3), [12, 13, 9, 9], Listed([1, 0, 2, 3]), [16, 8, 13, 13]);
    QuietTurn(start, 5, Listed([1, 0, 2, 3]), [16, 8, 13, 13], Listed([0, 2, 3, 1]), [12, 12, 17, 17]);
    QuietTurn(start, 6, Listed([0, 2, 3, 1]), [12, 12, 17, 17], Listed([2, 3, 1, 0]), [16, 16, 9, 21]);
  }

  lemma FiveLater()
    ensures Shuffled(Listed([1, 0, 2, 3, 4])) == Listed([0, 2, 3, 4, 1])
  {
    assert Listed([1, 0, 2, 3, 4])[1..] + [Listed([1, 0, 2, 3, 4])[0]] == Listed([0, 2, 3, 4, 1]);
  }

  lemma FiveValues()
    ensures Played([16, 17, 13, 13, 9], 1, 4, true) == [20, 12, 17, 17, 13] && FirstOfMost([16, 17, 13, 13, 9], 1)
    ensures Played([20, 12, 17, 17, 13], 0, 1, true) == [12, 16, 21, 21, 17] && FirstOfMost([20, 12, 17, 17, 13], 0)
  {
  }

  /** Five participants reach 21 in seven calls. */
  lemma FiveDrift()
    ensures At(Called(Turned(5, 0), 7), Listed([0, 2, 3, 4, 1]), [12, 16, 21, 21, 17], true)
  {
    hide Called, At, Shuffled, Played, FirstOfMost;
    var start := Turned(5, 0);
    RowGoesFurther(5);
    assert Values(5, [16, 17, 13, 13, 9], 18) == [16, 17, 13, 13, 9];
    SecondRound(5);
    FiveLater();
    FiveValues();
    QuietTurn(start, 5, Turned(5, 4), [16, 17, 13, 13, 9], Listed([1, 0, 2, 3, 4]), [20, 12, 17, 17, 13]);
    QuietTurn(start, 6, Listed([1, 0, 2, 3, 4]), [20, 12, 17, 17, 13], Listed([0, 2, 3, 4, 1]), [12, 16, 21, 21, 17]);
  }

  // ----- when ten times the fastest base speed is enough

  function TopSpeed(base: Elems): int {
    if base == [] then 0 else base[|base| - 1].speed
  }

  /** On every side with that many slowest and fastest participants and for every sorting
      routine, stored speeds stay within ten times the fastest base speed for ever. */
  ghost predicate TenTimesIsEnough(extremes: nat) {
    forall srt: Sorter, participants: Elems, k: nat ::
      SortsBySpeed(srt) && DistinctIds(participants) && SpeedsAtLeast(participants, 1)
      && ExtremeCount(participants) == extremes ==>
        Within(After(srt, Fresh(srt(participants)), k).stored, 10 * TopSpeed(srt(participants)))
  }

  lemma SameExtremes(s: Elems, t: Elems)
    requires multiset(s) == multiset(t)
    ensures ExtremeCount(s) == ExtremeCount(t)
  {
    SameMembers(s, t);
    assert SlowestIds(s) == SlowestIds(t) && FastestIds(s) == FastestIds(t);
  }

  lemma {:induction false} AloneStays(srt: Sorter, s: State, k: nat)
    requires SortsBySpeed(srt) && WellFormed(s) && |s.base| == 1
    ensures After(srt, s, k).stored == s.stored
    decreases k
  {
    if k > 0 {
      AloneIsAlwaysNext(srt, s);
      AloneStays(srt, s.(turnStart := true), k - 1);
    }
  }

  /** A speed above the bound shows in the list. */
  lemma Exceeds(s: State, base: Elems, v: seq<int>, id: nat, turnStart: bool, bound: int)
    requires At(s, base, v, turnStart) && id < |v| && v[id] > bound
    ensures !Within(s.stored, bound)
  {
    TwosFacts(base);
    var i := IdRank(base, id);
    var e := RosterRank(base, s.stored, i);
    assert e in s.stored && e.speed == v[id];
  }

  /** Every number of participants from three on drifts. */
  lemma Drifts(n: nat) returns (participants: Elems, k: nat)
    requires 3 <= n
    ensures Twos(participants) && |participants| == n && k <= 11
    ensures !Within(After(Unlucky, Fresh(Unlucky(participants)), k).stored, 20)
  {
    if n == 3 {
      participants, k := Trio(0, 2, 1), 11;
      TrioTwos();
      TrioShuffled(0, 2, 1, 1, 2, 0);
      TrioDrifts();
      Exceeds(Called(Trio(1, 2, 0), 11), Trio(0, 1, 2), [4, 13, 21], 2, true, 20);
    } else {
      participants := BeforeRow(n);
      BeforeRowIsShuffled(n);
      k := RowExceeds(n);
    }
    UnluckyOrder(participants);
  }

  /** The order from which the unlucky routine makes the order of ids. */
  function BeforeRow(n: nat): (s: Elems)
    requires 4 <= n
    ensures |s| == n && s[0] == Two(n - 1) && s[1] == Two(1) && s[2] == Two(0)
    ensures forall i :: 3 <= i < n ==> s[i] == Two(i - 1)
  {
    seq(n, i requires 0 <= i < n => if i == 0 then Two(n - 1) else if i < 3 then Two(2 - i) else Two(i - 1))
  }

  lemma BeforeRowIsShuffled(n: nat)
    requires 4 <= n
    ensures Twos(BeforeRow(n)) && Shuffled(BeforeRow(n)) == Turned(n, 0)
  {
    RowFromBefore(n);
    hide Shuffled, BeforeRow;
    TurnedTwos(n);
    assert multiset(BeforeRow(n)) == multiset(Shuffled(BeforeRow(n)));
    assert |BeforeRow(n)| == n;
  }

  lemma RowFromBefore(n: nat)
    requires 4 <= n
    ensures Shuffled(BeforeRow(n)) == Turned(n, 0)
  {
    var s := BeforeRow(n);
    var t := s[1..] + [s[0]];
    assert t[0] == Two(1) && t[1] == Two(0) && t[2] == s[3] == Two(2);
    assert Shuffled(s) == [t[1], t[0]] + t[2..];
    hide Shuffled;
    forall i | 0 <= i < n
      ensures ([t[1], t[0]] + t[2..])[i] == Two(i)
    {
      if i >= 2 {
        assert ([t[1], t[0]] + t[2..])[i] == t[i];
        assert t[i] == if i + 1 < n then s[i + 1] else s[0];
      }
    }
    assert [t[1], t[0]] + t[2..] == Turned(n, 0);
  }

  lemma RowExceeds(n: nat) returns (k: nat)
    requires 4 <= n
    ensures k <= 7 && !Within(Called(Turned(n, 0), k).stored, 20)
  {
    hide Called, At;
    if n == 4 {
      k := 7;
      FourDrift();
      Exceeds(Called(Turned(4, 0), 7), Listed([2, 3, 1, 0]), [16, 16, 9, 21], 3, true, 20);
    } else if n == 5 {
      k := 7;
      FiveDrift();
      Exceeds(Called(Turned(5, 0), 7), Listed([0, 2, 3, 4, 1]), [12, 16, 21, 21, 17], 2, true, 20);
    } else {
      k := 6;
      RowDrifts(n);
      var v := Values(n, [20, 21, 17, 17, 13, 13], 22);
      assert v[1] == 21;
      Exceeds(Called(Turned(n, 0), 6), Turned(n, 5), v, 1, true, 20);
    }
  }

  /** Everybody is both slowest and fastest. */
  lemma TwosExtremes(base: Elems)
    requires Twos(base)
    ensures SpeedsAtLeast(base, 1) && ExtremeCount(base) == |base| && TopSpeed(Unlucky(base)) == 2
  {
    hide Unlucky, Twos, Find;
    TwosFacts(base);
    SameMembers(base, Unlucky(base));
    AllExtreme(base);
    IdsCounted(base);
    assert Unlucky(base)[|base| - 1] in base;
  }

  lemma AllExtreme(base: Elems)
    requires forall e :: e in base ==> e.speed == 2
    ensures SlowestIds(base) + FastestIds(base) == Ids(base)
  {
  }

  lemma {:induction false} IdsCounted(base: Elems)
    requires DistinctIds(base)
    ensures |Ids(base)| == |base|
    decreases |base|
  {
    if base != [] {
      IdsCounted(base[1..]);
      assert base == [base[0]] + base[1..];
      assert Ids(base) == {base[0].id} + Ids(base[1..]);
      assert base[0].id !in Ids(base[1..]);
    }
  }

  lemma Refuted(srt: Sorter, participants: Elems, k: nat, extremes: nat)
    requires SortsBySpeed(srt) && DistinctIds(participants) && SpeedsAtLeast(participants, 1)
    requires ExtremeCount(participants) == extremes
    requires !Within(After(srt, Fresh(srt(participants)), k).stored, 10 * TopSpeed(srt(participants)))
    ensures !TenTimesIsEnough(extremes)
  {
    hide After, Within, DistinctIds, SpeedsAtLeast, ExtremeCount, SortsBySpeed, TopSpeed;
  }

  lemma ManyExtremes(extremes: nat)
    requires 3 <= extremes
    ensures !TenTimesIsEnough(extremes)
  {
    hide *;
    var participants, k := Drifts(extremes);
    UnluckySorts();
    TwosFacts(participants);
    TwosExtremes(participants);
    Refuted(Unlucky, participants, k, extremes);
  }

  /** Whether ten times is enough is decided by how many participants are slowest or fastest:
      up to two it always is, and for every larger number there is a side, a sorting routine and
      a number of calls that exceed it. */
  lemma TenTimesIffTwoExtremes(extremes: nat)
    ensures TenTimesIsEnough(extremes) <==> extremes <= 2
  {
    if extremes <= 2 {
      forall srt: Sorter, participants: Elems, k: nat |
        SortsBySpeed(srt) && DistinctIds(participants) && SpeedsAtLeast(participants, 1)
        && ExtremeCount(participants) == extremes
        ensures Within(After(srt, Fresh(srt(participants)), k).stored, 10 * TopSpeed(srt(participants)))
      {
        FewExtremes(srt, participants, k);
      }
    } else {
      ManyExtremes(extremes);
    }
  }

  lemma FewExtremes(srt: Sorter, participants: Elems, k: nat)
    requires SortsBySpeed(srt) && DistinctIds(participants) && SpeedsAtLeast(participants, 1)
    requires ExtremeCount(participants) <= 2
    ensures Within(After(srt, Fresh(srt(participants)), k).stored, 10 * TopSpeed(srt(participants)))
  {
    hide ExtremeCount, Next;
    var base := srt(participants);
    assert IsSorting(participants, base);
    SameMembers(participants, base);
    ReorderingKeepsSpeeds(participants, base);
    SameExtremes(participants, base);
    if |base| > 1 {
      CountedOrders(base, 0);
      TenTimes(srt, base, k);
    } else if |base| == 1 {
      AloneStays(srt, Fresh(base), k);
    } else {
      NobodyStays(srt, k);
    }
  }

  lemma {:induction false} NobodyStays(srt: Sorter, k: nat)
    requires SortsBySpeed(srt)
    ensures After(srt, Fresh([]), k) == Fresh([])
    decreases k
  {
    if k > 0 {
      SameMembers([], srt([]));
      NobodyStays(srt, k - 1);
    }
  }
}
