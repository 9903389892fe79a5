/**
 The weighted draw of contenders: chances are accumulated into the keys of an ordered map
 and a draw looks up the first key that is not smaller.
 */
module WeightedDraw {
  import opened Wrappers
  import opened MachineIntegers
  import Admission

  datatype EncounterDesc = EncounterDesc(key: string, maxEncountering: nat, easy: nat, medium: nat, hard: nat)
  {
    function Chance(level: nat): nat {
      if level == 0 then easy else if level == 1 then medium else hard
    }
  }

  type Entries = seq<EncounterDesc>

  // ----- the ordered map

  ghost predicate IsLowerBound<T>(m: map<int, T>, index: int, k: int) {
    k in m && index <= k && forall j :: j in m && index <= j ==> k <= j
  }

  lemma {:induction false} LowerBoundExists<T>(m: map<int, T>, index: int, j: int)
    requires j in m && index <= j
    ensures exists k :: IsLowerBound(m, index, k)
    decreases j - index
  {
    if i :| i in m && index <= i < j {
      LowerBoundExists(m, index, i);
    } else {
      assert IsLowerBound(m, index, j);
    }
  }

  /** The first key not smaller than `index`, if there is one. */
  ghost function LowerBound<T>(m: map<int, T>, index: int): (r: Option<int>)
    ensures r.Some? ==> IsLowerBound(m, index, r.value)
    ensures r.None? <==> forall k :: k in m ==> k < index
  {
    if k :| k in m && index <= k then
      LowerBoundExists(m, index, k);
      var k :| IsLowerBound(m, index, k);
      Some(k)
    else
      None
  }

  /** The map after an insertion.  None: the element equals the one found, whose position is
      read after it has been erased, which leaves the outcome undefined. */
  ghost function Inserted<T>(m: map<int, T>, index: int, element: T): Option<map<int, T>> {
    match LowerBound(m, index)
    case None => Some(m[index := element])
    case Some(k) => if element != m[k] then Some(m[k + 1 := element]) else None
  }

  class BoundaryMap<T(==)> {
    var boundaries: map<int, T>

    constructor ()
      ensures boundaries == map[]
    {
      boundaries := map[];
    }

    method Get(index: int) returns (r: Option<(int, T)>)
      ensures r.None? <==> LowerBound(boundaries, index).None?
      ensures r.Some? ==> LowerBound(boundaries, index) == Some(r.value.0) && r.value.1 == boundaries[r.value.0]
    {
      if j :| j in boundaries && index <= j {
        LowerBoundExists(boundaries, index, j);
        var k :| k in boundaries && index <= k && forall j :: j in boundaries && index <= j ==> k <= j;
        return Some((k, boundaries[k]));
      }
      return None;
    }

    /** Insert; the result says whether the behaviour is defined. */
    method Insert(index: int, element: T) returns (defined: bool)
      modifies this
      ensures defined <==> Inserted(old(boundaries), index, element).Some?
      ensures defined ==> Inserted(old(boundaries), index, element) == Some(boundaries)
    {
      var it := Get(index);
      if it.None? {
        boundaries := boundaries[index := element];
      } else if element != it.value.1 {
        boundaries := boundaries[it.value.0 + 1 := element];
      } else {
        boundaries := boundaries - {it.value.0};
        return false;
      }
      return true;
    }
  }

  // ----- building the map of a zone

  /** The accumulated chance of the first `n` entries. */
  function Prefix(entries: Entries, level: nat, n: nat): nat
    requires n <= |entries|
  {
    if n == 0 then 0 else Prefix(entries, level, n - 1) + entries[n - 1].Chance(level)
  }

  ghost function Built(entries: Entries, level: nat, n: nat): Option<map<int, EncounterDesc>>
    requires n <= |entries|
  {
    if n == 0 then Some(map[]) else
    match Built(entries, level, n - 1)
    case None => None
    case Some(m) => Inserted(m, Prefix(entries, level, n), entries[n - 1])
  }

  method MakeContenderRngBoundaryMap(zoneContenders: Entries, difficulty: nat)
    returns (bm: BoundaryMap<EncounterDesc>, defined: bool)
    ensures defined <==> Built(zoneContenders, difficulty, |zoneContenders|).Some?
    ensures defined ==> Built(zoneContenders, difficulty, |zoneContenders|) == Some(bm.boundaries)
    ensures fresh(bm)
  {
    bm := new BoundaryMap();
    defined := true;
    var val := 0;
    for i := 0 to |zoneContenders|
      invariant val == Prefix(zoneContenders, difficulty, i)
      invariant defined <==> Built(zoneContenders, difficulty, i).Some?
      invariant defined ==> Built(zoneContenders, difficulty, i) == Some(bm.boundaries)
    {
      val := val + zoneContenders[i].Chance(difficulty);
      if defined {
        defined := bm.Insert(val, zoneContenders[i]);
      }
    }
  }

  // ----- which draws select which entry

  /** The entry that should own a draw: the first whose accumulated chance reaches it. */
  function Owner(entries: Entries, level: nat, r: nat, n: nat): (i: nat)
    requires n <= |entries| && 1 <= r <= Prefix(entries, level, n)
    ensures i < n && Prefix(entries, level, i) < r <= Prefix(entries, level, i + 1)
  {
    if r <= Prefix(entries, level, n - 1) then Owner(entries, level, r, n - 1) else n - 1
  }

  /** Every draw from 1 to 100 finds the entry in whose share of the chances it falls. */
  ghost predicate DrawsExactly(entries: Entries, level: nat)
    requires Prefix(entries, level, |entries|) == 100
  {
    match Built(entries, level, |entries|)
    case None => false
    case Some(m) =>
      forall r: nat :: 1 <= r <= 100 ==>
        LowerBound(m, r).Some? && m[LowerBound(m, r).value] == entries[Owner(entries, level, r, |entries|)]
  }

  /** A chance of zero is harmless in the first entry and once everything has been given
      away. */
  ghost predicate ZeroesHarmless(entries: Entries, level: nat, n: nat)
    requires n <= |entries|
  {
    forall j :: 1 <= j < n && entries[j].Chance(level) == 0 ==> Prefix(entries, level, j) == 100
  }

  lemma {:induction false} PrefixMonotone(entries: Entries, level: nat, i: nat, j: nat)
    requires i <= j <= |entries|
    ensures Prefix(entries, level, i) <= Prefix(entries, level, j)
    decreases j
  {
    if i < j {
      PrefixMonotone(entries, level, i, j - 1);
    }
  }

  /** The accumulated chance up to and including entry `i`. */
  function End(entries: Entries, level: nat, i: nat): nat
    requires i < |entries|
  {
    Prefix(entries, level, i) + entries[i].Chance(level)
  }

  lemma EndWithin(entries: Entries, level: nat, i: nat, n: nat)
    requires i < n <= |entries|
    ensures Prefix(entries, level, i) <= End(entries, level, i)
    ensures End(entries, level, i) == Prefix(entries, level, i + 1) <= Prefix(entries, level, n)
  {
    PrefixMonotone(entries, level, i + 1, n);
  }

  /** The entries that get a key of their own, namely where their share ends. */
  predicate Keyed(entries: Entries, level: nat, i: nat)
    requires i < |entries|
  {
    i == 0 || entries[i].Chance(level) > 0
  }

  predicate HasKey(entries: Entries, level: nat, n: nat, i: nat, k: int)
    requires n <= |entries|
  {
    i < n && Keyed(entries, level, i) && k == End(entries, level, i)
  }

  /** What has been built from harmless entries: one key per keyed entry, and possibly 101
      for the entries that come too late to own anything. */
  ghost predicate Layout(entries: Entries, level: nat, n: nat, m: map<int, EncounterDesc>)
    requires n <= |entries|
  {
    && (forall i: nat, k :: HasKey(entries, level, n, i, k) ==> k in m && m[k] == entries[i])
    && (forall k :: k in m ==>
          (k == 101 && Prefix(entries, level, n) == 100) || exists i: nat :: HasKey(entries, level, n, i, k))
  }

  /** The last keyed entry holds the whole accumulated chance. */
  lemma {:induction false} LastKeyed(entries: Entries, level: nat, n: nat) returns (i: nat)
    requires 1 <= n <= |entries|
    ensures HasKey(entries, level, n, i, Prefix(entries, level, n))
    ensures Prefix(entries, level, n) > 0 ==> entries[i].Chance(level) > 0
    decreases n
  {
    if Keyed(entries, level, n - 1) {
      i := n - 1;
      assert i == 0 ==> Prefix(entries, level, 0) == 0;
    } else {
      i := LastKeyed(entries, level, n - 1);
    }
  }

  lemma LayoutKeysBelow(entries: Entries, level: nat, n: nat, m: map<int, EncounterDesc>, k: int)
    requires n <= |entries| && Layout(entries, level, n, m) && k in m
    requires !(k == 101 && Prefix(entries, level, n) == 100)
    ensures 0 < n && k <= Prefix(entries, level, n)
  {
    hide Prefix;
    var i: nat :| HasKey(entries, level, n, i, k);
    EndWithin(entries, level, i, n);
  }

  lemma InsertedAtEnd(entries: Entries, level: nat, n: nat, m: map<int, EncounterDesc>)
    requires n < |entries| && Prefix(entries, level, |entries|) == 100
    requires Layout(entries, level, n, m) && Keyed(entries, level, n)
    ensures forall k :: k in m ==> k < Prefix(entries, level, n + 1)
    ensures Inserted(m, Prefix(entries, level, n + 1), entries[n])
         == Some(m[Prefix(entries, level, n + 1) := entries[n]])
  {
    hide Prefix, Layout;
    var val := Prefix(entries, level, n + 1);
    EndWithin(entries, level, n, |entries|);
    NothingYet(entries, level);
    forall k | k in m
      ensures k < val
    {
      if n > 0 || k != 101 {
        LayoutKeysBelow(entries, level, n, m, k);
      } else {
        LayoutKeysBelow(entries, level, 0, m, k);
      }
    }
  }

  lemma LayoutGrows(entries: Entries, level: nat, n: nat, m: map<int, EncounterDesc>)
    requires n < |entries| && Prefix(entries, level, |entries|) == 100
    requires Layout(entries, level, n, m) && Keyed(entries, level, n)
    ensures Inserted(m, Prefix(entries, level, n + 1), entries[n])
         == Some(m[Prefix(entries, level, n + 1) := entries[n]])
    ensures Layout(entries, level, n + 1, m[Prefix(entries, level, n + 1) := entries[n]])
  {
    InsertedAtEnd(entries, level, n, m);
    EndWithin(entries, level, n, |entries|);
    LayoutExtended(entries, level, n, m);
  }

  /** The next entry, when it is keyed, adds one key. */
  lemma OneMoreHasKey(entries: Entries, level: nat, n: nat, i: nat, k: int)
    requires n < |entries| && Keyed(entries, level, n)
    ensures HasKey(entries, level, n + 1, i, k)
            <==> HasKey(entries, level, n, i, k) || (i == n && k == End(entries, level, n))
  {
  }

  lemma NewLayoutHolds(entries: Entries, level: nat, n: nat, m: map<int, EncounterDesc>, i: nat, k: int)
    requires n < |entries| && Layout(entries, level, n, m) && Keyed(entries, level, n)
    requires End(entries, level, n) !in m && HasKey(entries, level, n + 1, i, k)
    ensures var m' := m[End(entries, level, n) := entries[n]];
            i <= n && k in m' && m'[k] == entries[i]
  {
    hide Prefix, End, Keyed;
    if i < n {
      assert HasKey(entries, level, n, i, k);
    }
  }

  lemma LayoutExtended(entries: Entries, level: nat, n: nat, m: map<int, EncounterDesc>)
    requires n < |entries| && Layout(entries, level, n, m) && Keyed(entries, level, n)
    requires Prefix(entries, level, n) == 100 ==> 101 !in m
    requires End(entries, level, n) !in m
    ensures Layout(entries, level, n + 1, m[End(entries, level, n) := entries[n]])
  {
    hide Prefix, End, Keyed;
    var m', n' := m[End(entries, level, n) := entries[n]], n + 1;
    forall i: nat, k | HasKey(entries, level, n', i, k)
      ensures k in m' && m'[k] == entries[i]
    {
      NewLayoutHolds(entries, level, n, m, i, k);
    }
    forall k | k in m'
      ensures exists i: nat :: HasKey(entries, level, n', i, k)
    {
      hide HasKey;
      if k in m {
        var i: nat :| HasKey(entries, level, n, i, k);
        OneMoreHasKey(entries, level, n, i, k);
      } else {
        OneMoreHasKey(entries, level, n, n, k);
      }
    }
  }

  lemma NothingYet(entries: Entries, level: nat)
    ensures Prefix(entries, level, 0) == 0
  {
  }

  lemma LayoutIgnoresLateZero(entries: Entries, level: nat, n: nat, m: map<int, EncounterDesc>)
    requires 1 <= n < |entries| && Prefix(entries, level, n) == 100
    requires Layout(entries, level, n, m) && !Keyed(entries, level, n)
    ensures Prefix(entries, level, n + 1) == 100
    ensures Inserted(m, 100, entries[n]) == Some(m[101 := entries[n]])
    ensures Layout(entries, level, n + 1, m[101 := entries[n]])
  {
    hide Prefix;
    EndWithin(entries, level, n, n + 1);
    var i := LastKeyed(entries, level, n);
    assert 100 in m && m[100] == entries[i];
    assert LowerBound(m, 100) == Some(100);
    var m', n' := m[101 := entries[n]], n + 1;
    forall j: nat, k | HasKey(entries, level, n', j, k)
      ensures k in m' && m'[k] == entries[j]
    {
      assert HasKey(entries, level, n, j, k);
      EndWithin(entries, level, j, n);
    }
    forall k | k in m' && k != 101
      ensures exists j: nat :: HasKey(entries, level, n', j, k)
    {
      assert k in m;
      var j: nat :| HasKey(entries, level, n, j, k);
      assert HasKey(entries, level, n', j, k);
    }
  }

  lemma {:induction false} HarmlessLayout(entries: Entries, level: nat, n: nat) returns (m: map<int, EncounterDesc>)
    requires n <= |entries| && Prefix(entries, level, |entries|) == 100 && ZeroesHarmless(entries, level, n)
    ensures Built(entries, level, n) == Some(m) && Layout(entries, level, n, m)
    decreases n
  {
    hide Prefix, Inserted;
    if n == 0 {
      m := map[];
    } else {
      var m' := HarmlessLayout(entries, level, n - 1);
      if Keyed(entries, level, n - 1) {
        LayoutGrows(entries, level, n - 1, m');
        m := m'[Prefix(entries, level, n) := entries[n - 1]];
      } else {
        LayoutIgnoresLateZero(entries, level, n - 1, m');
        m := m'[101 := entries[n - 1]];
      }
    }
  }

  lemma LayoutDraw(entries: Entries, level: nat, m: map<int, EncounterDesc>, r: nat)
    requires Prefix(entries, level, |entries|) == 100 && Layout(entries, level, |entries|, m) && 1 <= r <= 100
    ensures var i := Owner(entries, level, r, |entries|);
            LowerBound(m, r) == Some(End(entries, level, i)) && m[End(entries, level, i)] == entries[i]
  {
    hide Prefix, Owner;
    var n := |entries|;
    var i := Owner(entries, level, r, n);
    var key := End(entries, level, i);
    EndWithin(entries, level, i, n);
    assert HasKey(entries, level, n, i, key);
    forall k | k in m && r <= k
      ensures key <= k
    {
      if k != 101 {
        var j: nat :| HasKey(entries, level, n, j, k);
        if j < i {
          EndWithin(entries, level, j, i);
        } else if i < j {
          EndWithin(entries, level, i, j);
          EndWithin(entries, level, j, n);
        }
      }
    }
  }

  lemma HarmlessDraws(entries: Entries, level: nat)
    requires Prefix(entries, level, |entries|) == 100 && ZeroesHarmless(entries, level, |entries|)
    ensures DrawsExactly(entries, level)
  {
    hide Layout, Owner, Prefix;
    var m := HarmlessLayout(entries, level, |entries|);
    forall r: nat | 1 <= r <= 100
      ensures LowerBound(m, r).Some?
              && m[LowerBound(m, r).value] == entries[Owner(entries, level, r, |entries|)]
    {
      LayoutDraw(entries, level, m, r);
    }
  }

  /** The code also draws 0, which goes to the first entry whatever its chance and whatever comes
      after it: no later insertion can undercut the first key. */
  lemma {:induction false} DrawZeroIsTheFirst(entries: Entries, level: nat, n: nat)
    requires 1 <= n <= |entries| && Built(entries, level, n).Some?
    ensures var m, first := Built(entries, level, n).value, entries[0].Chance(level);
            LowerBound(m, 0) == Some(first) && m[first] == entries[0]
    decreases n
  {
    var first := entries[0].Chance(level);
    assert Prefix(entries, level, 1) == first && Built(entries, level, 0) == Some(map[]);
    if n > 1 {
      DrawZeroIsTheFirst(entries, level, n - 1);
      PrefixMonotone(entries, level, 1, n);
      FirstKeyStays(Built(entries, level, n - 1).value, first, Prefix(entries, level, n), entries[n - 1]);
    } else {
      assert Built(entries, level, 1) == Some(map[first := entries[0]]);
      OnlyKey(first, entries[0]);
    }
  }

  lemma OnlyKey(first: nat, entry: EncounterDesc)
    ensures LowerBound(map[first as int := entry], 0) == Some(first)
  {
    var m: map<int, EncounterDesc> := map[first as int := entry];
    assert first as int in m;
    assert IsLowerBound(m, 0, LowerBound(m, 0).value);
  }

  lemma FirstKeyStays(m: map<int, EncounterDesc>, first: nat, val: int, entry: EncounterDesc)
    requires LowerBound(m, 0) == Some(first) && first <= val && Inserted(m, val, entry).Some?
    ensures var m' := Inserted(m, val, entry).value;
            LowerBound(m', 0) == Some(first) && m'[first] == m[first]
  {
    assert IsLowerBound(m, 0, first);
    var m' := Inserted(m, val, entry).value;
    assert first in m' && 0 <= first && m'[first] == m[first] by {
      assert LowerBound(m, val).Some? ==> IsLowerBound(m, val, LowerBound(m, val).value);
    }
    assert LowerBound(m', 0).Some?;
    var least := LowerBound(m', 0).value;
    assert IsLowerBound(m', 0, least) && least <= first;
    assert least in m ==> first <= least;
    assert least !in m ==> first <= least;
  }

  // ----- a zero in the middle takes over somebody's draw

  /** From the first harmful zero on, the draw `p + 1` belongs to an entry without a chance. */
  ghost predicate Hijacked(m: map<int, EncounterDesc>, level: nat, p: nat) {
    p in m && p + 1 in m && m[p + 1].Chance(level) == 0
  }

  /** An entry without a chance, inserted where a key already is. */
  lemma ZeroHijacks(m: map<int, EncounterDesc>, level: nat, p: nat, entry: EncounterDesc)
    requires p in m && entry.Chance(level) == 0
    ensures var built := Inserted(m, p, entry); built.Some? ==> Hijacked(built.value, level, p)
  {
    assert LowerBound(m, p) == Some(p);
  }

  lemma HijackKept(m: map<int, EncounterDesc>, level: nat, p: nat, val: nat, entry: EncounterDesc)
    requires Hijacked(m, level, p) && p <= val && (val == p ==> entry.Chance(level) == 0)
    ensures var built := Inserted(m, val, entry); built.Some? ==> Hijacked(built.value, level, p)
  {
    if val == p {
      ZeroHijacks(m, level, p, entry);
    }
  }

  lemma HijackStarts(entries: Entries, level: nat, j: nat)
    requires 1 <= j < |entries| && Prefix(entries, level, |entries|) == 100
    requires ZeroesHarmless(entries, level, j) && entries[j].Chance(level) == 0
    requires Prefix(entries, level, j) < 100
    ensures var built := Built(entries, level, j + 1);
            built.Some? ==> Hijacked(built.value, level, Prefix(entries, level, j))
  {
    hide Owner, Hijacked, Inserted;
    var p := Prefix(entries, level, j);
    var m := HarmlessLayout(entries, level, j);
    var i := LastKeyed(entries, level, j);
    assert p in m;
    hide Layout;
    assert Prefix(entries, level, j + 1) == p;
    ZeroHijacks(m, level, p, entries[j]);
  }

  lemma {:induction false} HijackLasts(entries: Entries, level: nat, j: nat, n: nat)
    requires 1 <= j < n <= |entries| && Prefix(entries, level, |entries|) == 100
    requires ZeroesHarmless(entries, level, j) && entries[j].Chance(level) == 0
    requires Prefix(entries, level, j) < 100
    ensures var built := Built(entries, level, n);
            built.Some? ==> Hijacked(built.value, level, Prefix(entries, level, j))
    decreases n
  {
    hide ZeroesHarmless, Hijacked, Inserted;
    if n == j + 1 {
      HijackStarts(entries, level, j);
    } else {
      HijackLasts(entries, level, j, n - 1);
      PrefixMonotone(entries, level, j, n - 1);
      if Built(entries, level, n).Some? {
        var m := Built(entries, level, n - 1).value;
        HijackKept(m, level, Prefix(entries, level, j), Prefix(entries, level, n), entries[n - 1]);
      }
    }
  }

  lemma HarmfulZeroSpoilsDraw(entries: Entries, level: nat, j: nat)
    requires 1 <= j < |entries| && Prefix(entries, level, |entries|) == 100
    requires ZeroesHarmless(entries, level, j) && entries[j].Chance(level) == 0
    requires Prefix(entries, level, j) < 100
    ensures !DrawsExactly(entries, level)
  {
    var n, r := |entries|, Prefix(entries, level, j) + 1;
    HijackLasts(entries, level, j, n);
    if Built(entries, level, n).Some? {
      var m := Built(entries, level, n).value;
      assert LowerBound(m, r) == Some(r);
      var i := Owner(entries, level, r, n);
      assert entries[i].Chance(level) > 0;
      assert m[LowerBound(m, r).value] != entries[i];
    }
  }

  lemma {:induction false} FirstHarmful(entries: Entries, level: nat, n: nat) returns (j: nat)
    requires n <= |entries| && !ZeroesHarmless(entries, level, n)
    ensures 1 <= j < n && entries[j].Chance(level) == 0 && Prefix(entries, level, j) != 100
    ensures ZeroesHarmless(entries, level, j)
    decreases n
  {
    if ZeroesHarmless(entries, level, n - 1) {
      j := n - 1;
    } else {
      j := FirstHarmful(entries, level, n - 1);
    }
  }

  /** The draw is exact precisely when no entry without a chance stands between entries that
      have one. */
  lemma ExactIffZeroesHarmless(entries: Entries, level: nat)
    requires Prefix(entries, level, |entries|) == 100
    ensures DrawsExactly(entries, level) <==> ZeroesHarmless(entries, level, |entries|)
  {
    if ZeroesHarmless(entries, level, |entries|) {
      HarmlessDraws(entries, level);
    } else {
      var j := FirstHarmful(entries, level, |entries|);
      PrefixMonotone(entries, level, j, |entries|);
      HarmfulZeroSpoilsDraw(entries, level, j);
    }
  }

  /** With positive chances everywhere: the keys are exactly the accumulated chances, every
      draw is exact, and draw 0 goes to the first entry. */
  lemma PositiveChances(entries: Entries, level: nat)
    requires Prefix(entries, level, |entries|) == 100
    requires forall i :: 0 <= i < |entries| ==> entries[i].Chance(level) >= 1
    ensures DrawsExactly(entries, level)
    ensures var built := Built(entries, level, |entries|);
            && built.Some?
            && (forall k :: k in built.value <==> exists i: nat :: HasKey(entries, level, |entries|, i, k))
            && LowerBound(built.value, 0) == Some(entries[0].Chance(level))
            && built.value[entries[0].Chance(level)] == entries[0]
  {
    hide Prefix, DrawsExactly, Built;
    HarmlessDraws(entries, level);
    NothingYet(entries, level);
    var n := |entries|;
    var m := PositiveLayout(entries, level, n);
    var first := End(entries, level, 0);
    assert HasKey(entries, level, n, 0, first);
    forall k | k in m
      ensures first <= k
    {
      var i: nat :| HasKey(entries, level, n, i, k);
      EndWithin(entries, level, 0, n);
      if i > 0 {
        EndWithin(entries, level, 0, i);
      }
    }
    assert LowerBound(m, 0) == Some(first);
  }

  lemma {:induction false} PositiveLayout(entries: Entries, level: nat, n: nat) returns (m: map<int, EncounterDesc>)
    requires n <= |entries| && Prefix(entries, level, |entries|) == 100
    requires forall i :: 0 <= i < |entries| ==> entries[i].Chance(level) >= 1
    ensures Built(entries, level, n) == Some(m) && Layout(entries, level, n, m)
    ensures forall k :: k in m ==> exists i: nat :: HasKey(entries, level, n, i, k)
    decreases n
  {
    hide Prefix;
    m := HarmlessLayout(entries, level, n);
    if n > 0 {
      var m' := PositiveLayout(entries, level, n - 1);
      LayoutGrows(entries, level, n - 1, m');
      forall k | k in m
        ensures exists i: nat :: HasKey(entries, level, n, i, k)
      {
        if k == Prefix(entries, level, n) {
          EndWithin(entries, level, n - 1, n);
          assert HasKey(entries, level, n, n - 1, k);
        } else {
          assert k in m';
          var i: nat :| HasKey(entries, level, n - 1, i, k);
          assert HasKey(entries, level, n, i, k);
        }
      }
    }
  }

  // ----- how many draws an entry owns

  /** The draws from 1 to 100 that fall into the share of entry `i`. */
  ghost function Share(entries: Entries, level: nat, i: nat): set<nat>
    requires Prefix(entries, level, |entries|) == 100 && i < |entries|
  {
    set r: nat | 1 <= r <= 100 && Owner(entries, level, r, |entries|) == i
  }

  /** The numbers above `low` and up to `high`. */
  ghost function Between(low: nat, high: nat): (s: set<nat>)
    requires low <= high
    ensures forall r: nat :: r in s <==> low < r <= high
    ensures |s| == high - low
    decreases high
  {
    if low == high then {} else Between(low, high - 1) + {high}
  }

  lemma OwnerIsUnique(entries: Entries, level: nat, i: nat, j: nat, r: nat)
    requires i < |entries| && j < |entries|
    requires Prefix(entries, level, i) < r <= Prefix(entries, level, i + 1)
    requires Prefix(entries, level, j) < r <= Prefix(entries, level, j + 1)
    ensures i == j
  {
    if i < j {
      PrefixMonotone(entries, level, i + 1, j);
    } else if j < i {
      PrefixMonotone(entries, level, j + 1, i);
    }
  }

  /** Of the draws 1 to 100 an entry owns as many as its chance says. */
  lemma OwnsItsShare(entries: Entries, level: nat, i: nat)
    requires Prefix(entries, level, |entries|) == 100 && i < |entries|
    ensures |Share(entries, level, i)| == entries[i].Chance(level)
  {
    var low, high := Prefix(entries, level, i), Prefix(entries, level, i + 1);
    PrefixMonotone(entries, level, i + 1, |entries|);
    forall r: nat
      ensures r in Share(entries, level, i) <==> low < r <= high
    {
      if 1 <= r <= 100 {
        var j := Owner(entries, level, r, |entries|);
        if low < r <= high {
          OwnerIsUnique(entries, level, i, j, r);
        }
      }
    }
    assert Share(entries, level, i) == Between(low, high);
  }

  /** The column of a difficulty, as the zones list their chances. */
  function Column(level: Admission.Level): nat {
    match level
    case EASY => 0
    case MEDIUM => 1
    case HARD => 2
  }

  /** From the announced level to the draws: in a pit announced with level code 1 an entry owns as
      many of the draws as its medium chance, with 2 as its hard one, with any other as its easy
      one. */
  lemma OwnsAnnouncedShare(entries: Entries, levelCode: int, i: nat)
    requires i < |entries|
    requires var level := Column(Admission.TranslateLevel(levelCode));
             Prefix(entries, level, |entries|) == 100 && ZeroesHarmless(entries, level, |entries|)
    ensures var level := Column(Admission.TranslateLevel(levelCode));
            && DrawsExactly(entries, level)
            && |Share(entries, level, i)|
               == (if levelCode == 1 then entries[i].medium
                   else if levelCode == 2 then entries[i].hard
                   else entries[i].easy)
  {
    var level := Column(Admission.TranslateLevel(levelCode));
    HarmlessDraws(entries, level);
    OwnsItsShare(entries, level, i);
  }

  // ----- validating a zone

  /** Chances are summed as unsigned 32-bit integers, so what is checked is the sum modulo
      2^32. */
  method ValidateZone(entries: Entries) returns (ok: bool)
    ensures ok <==> forall level :: 0 <= level < 3 ==> Prefix(entries, level, |entries|) % UINT_SIZE == 100
  {
    for level := 0 to 3
      invariant forall l :: 0 <= l < level ==> Prefix(entries, l, |entries|) % UINT_SIZE == 100
    {
      var total := 0;
      for i := 0 to |entries|
        invariant total == Prefix(entries, level, i) % UINT_SIZE
      {
        total := (total + entries[i].Chance(level)) % UINT_SIZE;
      }
      if total != 100 {
        return false;
      }
    }
    return true;
  }

  lemma {:induction false} PrefixAtMost(entries: Entries, level: nat, n: nat, cap: nat)
    requires n <= |entries| && forall i :: 0 <= i < n ==> entries[i].Chance(level) <= cap
    ensures Prefix(entries, level, n) <= n * cap
    decreases n
  {
    if n > 0 {
      PrefixAtMost(entries, level, n - 1, cap);
      assert n * cap == (n - 1) * cap + cap;
    }
  }

  /** For percentages the check means what it should: the chances add up to 100. */
  lemma ValidatedTotal(entries: Entries, level: nat)
    requires Prefix(entries, level, |entries|) % UINT_SIZE == 100
    requires forall i :: 0 <= i < |entries| ==> entries[i].Chance(level) <= 100
    requires |entries| * 100 < UINT_SIZE
    ensures Prefix(entries, level, |entries|) == 100
  {
    PrefixAtMost(entries, level, |entries|, 100);
  }
}
