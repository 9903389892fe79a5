/**
 The script cache: contents kept in memory above a local directory, which is itself filled
 on demand from a source directory. A memory entry is believed while the file at its path
 was last written no later than the entry was filled.
 */
module ScriptCache {
  datatype InMemoryCached = InMemoryCached(timestamp: int, content: string)

  datatype File = File(content: string, lastWrite: int)

  /** The two directories the cache is given. */
  datatype Storage = Storage(local: string, copy: string)

  /** What a lookup reads and changes: the memory of the cache and the file system. */
  datatype State = State(mem: map<string, InMemoryCached>, files: map<string, File>)

  // ----- keys and paths

  /** A key names a path with ':' for every separator. */
  function Slashed(key: string): (r: string)
    ensures |r| == |key|
    ensures forall i :: 0 <= i < |key| ==> r[i] == if key[i] == ':' then '/' else key[i]
  {
    seq(|key|, i requires 0 <= i < |key| => if key[i] == ':' then '/' else key[i])
  }

  /** Appending a path; an absolute one takes the place of the directory. */
  function Joined(directory: string, path: string): string {
    Before(directory, path != "" && path[0] == '/') + path
  }

  /** What a directory contributes in front of a path. */
  function Before(directory: string, absolute: bool): string {
    if absolute || directory == "" then ""
    else if directory[|directory| - 1] == '/' then directory
    else directory + "/"
  }

  function LocalPath(d: Storage, key: string): string {
    Joined(d.local, Slashed(key))
  }

  function CopyPath(d: Storage, key: string): string {
    Joined(d.copy, Slashed(key))
  }

  predicate Alike(c: char, e: char) {
    c == e || (c == ':' && e == '/') || (c == '/' && e == ':')
  }

  predicate Absolute(key: string) {
    key != "" && Alike(key[0], '/')
  }

  predicate AlikeThroughout(a: string, b: string) {
    |a| == |b| && forall i :: 0 <= i < |a| ==> Alike(a[i], b[i])
  }

  /** Two keys share a file exactly when they differ in nothing but ':' against '/'; or when one
      is absolute, the other is not, and the absolute one is the local directory followed by the
      other, again up to ':' against '/' except within the directory. */
  lemma SharedPath(d: Storage, a: string, b: string)
    ensures var directory := Before(d.local, false);
            LocalPath(d, a) == LocalPath(d, b)
            <==> if Absolute(a) == Absolute(b) then AlikeThroughout(a, b)
                 else if Absolute(a) then Slashed(a) == directory + Slashed(b)
                 else Slashed(b) == directory + Slashed(a)
  {
    var x, y := Slashed(a), Slashed(b);
    assert LocalPath(d, a) == Before(d.local, Absolute(a)) + x;
    assert LocalPath(d, b) == Before(d.local, Absolute(b)) + y;
    SameSuffix(Before(d.local, Absolute(a)), x, y);
    assert x == y <==> |x| == |y| && forall i :: 0 <= i < |a| ==> x[i] == y[i];
  }

  lemma SameSuffix(before: string, x: string, y: string)
    ensures before + x == before + y <==> x == y
  {
    assert (before + x)[|before|..] == x && (before + y)[|before|..] == y;
  }

  /** The key is spelt from position `n` on, letter by letter, every ':' of it reading '/'. */
  ghost predicate SpeltFrom(path: string, key: string, n: nat) {
    && |path| == n + |key|
    && forall i :: 0 <= i < |key| ==> path[n + i] == if key[i] == ':' then '/' else key[i]
  }

  /** What it means for a path to be that of a key in a directory: a relative key follows the
      directory and one separator, an absolute one stands alone. */
  ghost predicate Spells(path: string, directory: string, key: string) {
    if directory == "" || (key != "" && (key[0] == '/' || key[0] == ':')) then SpeltFrom(path, key, 0)
    else if directory[|directory| - 1] == '/' then
      SpeltFrom(path, key, |directory|) && path[..|directory|] == directory
    else
      SpeltFrom(path, key, |directory| + 1) && path[..|directory| + 1] == directory + "/"
  }

  lemma JoinedSpells(directory: string, key: string)
    ensures Spells(Joined(directory, Slashed(key)), directory, key)
  {
    var before := Before(directory, Absolute(key));
    assert Joined(directory, Slashed(key)) == before + Slashed(key);
    var path := before + Slashed(key);
    assert path[..|before|] == before;
    forall i | 0 <= i < |key|
      ensures path[|before| + i] == if key[i] == ':' then '/' else key[i]
    {
      assert path[|before| + i] == Slashed(key)[i];
    }
  }

  /** Both paths of a key are what the key spells in the two directories. */
  lemma PathsAreSpelt(d: Storage, key: string)
    ensures Spells(LocalPath(d, key), d.local, key) && Spells(CopyPath(d, key), d.copy, key)
  {
    JoinedSpells(d.local, key);
    JoinedSpells(d.copy, key);
  }

  /** There is one such path only. */
  lemma SpeltOnce(path: string, other: string, directory: string, key: string)
    requires Spells(path, directory, key) && Spells(other, directory, key)
    ensures path == other
  {
    var n := |path| - |key|;
    assert path[..n] == other[..n];
    SameSpelling(path, other, key, n);
    assert path == path[..n] + path[n..] && other == other[..n] + other[n..];
  }

  lemma SameSpelling(path: string, other: string, key: string, n: nat)
    requires SpeltFrom(path, key, n) && SpeltFrom(other, key, n)
    ensures path[n..] == other[n..]
  {
    forall i | 0 <= i < |key|
      ensures path[n..][i] == other[n..][i]
    {
      assert path[n..][i] == path[n + i] == if key[i] == ':' then '/' else key[i];
      assert other[n..][i] == other[n + i] == if key[i] == ':' then '/' else key[i];
    }
  }

  /** The parts one after the other, with a separator between them. */
  function Separated(parts: seq<string>, separator: char): string {
    if parts == [] then ""
    else if |parts| == 1 then parts[0]
    else parts[0] + [separator] + Separated(parts[1..], separator)
  }

  lemma {:induction false} SlashedParts(parts: seq<string>)
    requires forall i :: 0 <= i < |parts| ==> ':' !in parts[i]
    ensures Slashed(Separated(parts, ':')) == Separated(parts, '/')
    decreases |parts|
  {
    if |parts| > 1 {
      SlashedParts(parts[1..]);
      SlashedConcat(parts[0], ":" + Separated(parts[1..], ':'));
      SlashedConcat(":", Separated(parts[1..], ':'));
      assert parts[0] + [':'] + Separated(parts[1..], ':') == parts[0] + (":" + Separated(parts[1..], ':'));
      assert Slashed(parts[0]) == parts[0] && Slashed(":") == "/";
    } else if |parts| == 1 {
      assert Slashed(parts[0]) == parts[0];
    }
  }

  lemma SlashedConcat(a: string, b: string)
    ensures Slashed(a + b) == Slashed(a) + Slashed(b)
  {
  }

  // ----- one lookup

  predicate IsInLocalStorage(d: Storage, s: State, key: string) {
    LocalPath(d, key) in s.files
  }

  predicate IsInMemoryAndUpToDate(d: Storage, s: State, key: string) {
    && key in s.mem && IsInLocalStorage(d, s, key)
    && s.files[LocalPath(d, key)].lastWrite <= s.mem[key].timestamp
  }

  /** A missing file is copied from the source directory when it is there. */
  function Supplied(d: Storage, s: State, key: string, at: int): State {
    if !IsInLocalStorage(d, s, key) && CopyPath(d, key) in s.files
    then s.(files := s.files[LocalPath(d, key) := File(s.files[CopyPath(d, key)].content, at)])
    else s
  }

  /** The file at the path of the key becomes the memory entry of the key. */
  function Filled(d: Storage, s: State, key: string, at: int): State
    requires IsInLocalStorage(d, s, key)
  {
    s.(mem := s.mem[key := InMemoryCached(at, s.files[LocalPath(d, key)].content)])
  }

  function Remembered(d: Storage, s: State, key: string, at: int): State {
    if IsInLocalStorage(d, s, key) && !IsInMemoryAndUpToDate(d, s, key) then Filled(d, s, key, at) else s
  }

  /** Supplying first and remembering after: what a lookup leaves behind. */
  function AfterLookup(d: Storage, s: State, key: string, copyAt: int, fillAt: int): State {
    Remembered(d, Supplied(d, s, key, copyAt), key, fillAt)
  }

  function Answer(d: Storage, s: State, key: string, copyAt: int, fillAt: int): string {
    if IsInLocalStorage(d, Supplied(d, s, key, copyAt), key)
    then AfterLookup(d, s, key, copyAt, fillAt).mem[key].content
    else ""
  }

  /** What a reader without a memory would get: the local file, else the source file, else
      the empty string. */
  function Current(d: Storage, s: State, key: string): string {
    if LocalPath(d, key) in s.files then s.files[LocalPath(d, key)].content
    else if CopyPath(d, key) in s.files then s.files[CopyPath(d, key)].content
    else ""
  }

  // ----- coherence

  /** A memory entry that would be believed tells what is in the file. */
  ghost predicate Coherent(d: Storage, s: State) {
    forall key :: IsInMemoryAndUpToDate(d, s, key) ==>
                    s.mem[key].content == s.files[LocalPath(d, key)].content
  }

  /** Every entry filled from the path is older. */
  ghost predicate LaterThanFills(d: Storage, s: State, path: string, at: int) {
    forall key :: key in s.mem && LocalPath(d, key) == path ==> s.mem[key].timestamp < at
  }

  /** A copy, where the lookup makes one, comes after the fills from its path. */
  ghost predicate InTime(d: Storage, s: State, key: string, copyAt: int) {
    IsInLocalStorage(d, s, key) || CopyPath(d, key) !in s.files
    || LaterThanFills(d, s, LocalPath(d, key), copyAt)
  }

  /** A lookup in time keeps coherence and cannot be told from reading through. */
  lemma LookupReadsThrough(d: Storage, s: State, key: string, copyAt: int, fillAt: int)
    requires Coherent(d, s) && InTime(d, s, key, copyAt)
    ensures Answer(d, s, key, copyAt, fillAt) == Current(d, s, key)
    ensures Coherent(d, AfterLookup(d, s, key, copyAt, fillAt))
    ensures Current(d, AfterLookup(d, s, key, copyAt, fillAt), key) == Current(d, s, key)
  {
  }

  /** Coherence is exactly what makes every lookup of a file that exists tell its content. */
  lemma CoherentIffEveryHitIsCurrent(d: Storage, s: State, copyAt: int, fillAt: int)
    ensures Coherent(d, s)
            <==> forall key :: IsInLocalStorage(d, s, key) ==>
                   Answer(d, s, key, copyAt, fillAt) == Current(d, s, key)
  {
  }

  /** A lookup changes one memory entry and creates at most the file of its own key. */
  lemma LookupTouchesOwnKeyOnly(d: Storage, s: State, key: string, copyAt: int, fillAt: int)
    ensures var t := AfterLookup(d, s, key, copyAt, fillAt);
            && (forall k :: k in s.mem && k != key ==> k in t.mem && t.mem[k] == s.mem[k])
            && t.mem.Keys <= s.mem.Keys + {key}
            && (forall p :: p in s.files ==> p in t.files && t.files[p] == s.files[p])
            && t.files.Keys <= s.files.Keys + {LocalPath(d, key)}
            && (Current(d, s, key) != "" ==> IsInLocalStorage(d, t, key))
  {
  }

  /** Once found, a key is served from memory: looking it up again changes nothing, as long as
      no file was written after the clock of the lookup. */
  lemma SecondLookupIsServedFromMemory(d: Storage, s: State, key: string, copyAt: int, fillAt: int,
                                       copyAgain: int, fillAgain: int)
    requires forall p :: p in s.files ==> s.files[p].lastWrite <= fillAt
    requires copyAt <= fillAt
    ensures var t := AfterLookup(d, s, key, copyAt, fillAt);
            && AfterLookup(d, t, key, copyAgain, fillAgain) == t
            && (IsInLocalStorage(d, t, key) ==> IsInMemoryAndUpToDate(d, t, key))
  {
  }

  /** A script found where its key says: with no local file, what is stored in the source directory
      under the parts of the key is the answer, and is then stored locally under the same parts. */
  lemma ScriptIsFound(d: Storage, s: State, parts: seq<string>, copyAt: int, fillAt: int)
    requires parts != [] && parts[0] != "" && parts[0][0] != '/'
    requires forall i :: 0 <= i < |parts| ==> ':' !in parts[i]
    requires d.local != "" && d.local[|d.local| - 1] != '/' && d.copy != "" && d.copy[|d.copy| - 1] != '/'
    requires var (local, source) := (d.local + "/" + Separated(parts, '/'), d.copy + "/" + Separated(parts, '/'));
             local !in s.files && source in s.files && LaterThanFills(d, s, local, copyAt)
    requires Coherent(d, s)
    ensures var (local, source) := (d.local + "/" + Separated(parts, '/'), d.copy + "/" + Separated(parts, '/'));
            var key := Separated(parts, ':');
            var s' := AfterLookup(d, s, key, copyAt, fillAt);
            && Answer(d, s, key, copyAt, fillAt) == s.files[source].content
            && local in s'.files && s'.files[local].content == s.files[source].content
  {
    var key := Separated(parts, ':');
    SlashedParts(parts);
    assert Separated(parts, '/')[0] == parts[0][0];
    assert LocalPath(d, key) == d.local + "/" + Separated(parts, '/');
    assert CopyPath(d, key) == d.copy + "/" + Separated(parts, '/');
    LookupReadsThrough(d, s, key, copyAt, fillAt);
  }

  // ----- writes and deletions by others

  function Written(s: State, path: string, content: string, at: int): State {
    s.(files := s.files[path := File(content, at)])
  }

  function Deleted(s: State, path: string): State {
    s.(files := s.files - {path})
  }

  /** Exactly the writes that keep the cache coherent: those stamped after every fill from the
      path, or with the content those fills had read. */
  lemma WriteKeepsCoherence(d: Storage, s: State, path: string, content: string, at: int)
    requires Coherent(d, s)
    ensures Coherent(d, Written(s, path, content, at))
            <==> forall key :: key in s.mem && LocalPath(d, key) == path && at <= s.mem[key].timestamp ==>
                   s.mem[key].content == content
  {
  }

  lemma DeletionKeepsCoherence(d: Storage, s: State, path: string)
    requires Coherent(d, s)
    ensures Coherent(d, Deleted(s, path))
  {
  }

  /** A write on the tick of a fill goes unnoticed: the old content is served. */
  lemma WriteOnTheTickOfTheFill() returns (d: Storage, s: State, key: string, content: string, at: int)
    ensures Coherent(d, s)
    ensures var filled := AfterLookup(d, s, key, at, at);
            var written := Written(filled, LocalPath(d, key), content, at);
            Answer(d, written, key, at, at) != Current(d, written, key)
  {
    d, key, content, at := Storage("local", "source"), "k", "new", 1;
    s := State(map[], map[LocalPath(d, key) := File("old", 0)]);
  }

  // ----- runs

  datatype Event =
    | Lookup(key: string, copyAt: int, fillAt: int)
    | Write(path: string, content: string, at: int)
    | Delete(path: string)

  function Step(d: Storage, s: State, e: Event): State {
    match e
    case Lookup(key, copyAt, fillAt) => AfterLookup(d, s, key, copyAt, fillAt)
    case Write(path, content, at) => Written(s, path, content, at)
    case Delete(path) => Deleted(s, path)
  }

  function After(d: Storage, s: State, events: seq<Event>): State {
    if events == [] then s else Step(d, After(d, s, events[..|events| - 1]), events[|events| - 1])
  }

  /** Event number `i` is a lookup that is not served from memory. */
  ghost predicate FillsMemory(d: Storage, s: State, events: seq<Event>, i: nat)
    requires i < |events|
  {
    events[i].Lookup?
    && var supplied := Supplied(d, After(d, s, events[..i]), events[i].key, events[i].copyAt);
       !IsInMemoryAndUpToDate(d, supplied, events[i].key)
  }

  /** Every earlier fill from that path came before `at`. */
  ghost predicate AfterEarlierFills(d: Storage, s: State, events: seq<Event>, i: nat, path: string, at: int)
    requires i <= |events|
  {
    forall j: nat :: j < i && FillsMemory(d, s, events, j) && LocalPath(d, events[j].key) == path ==>
      events[j].fillAt < at
  }

  /** Event number `i`, if it writes or copies a file, does so after the fills from its path. */
  ghost predicate ClockAdvanced(d: Storage, s: State, events: seq<Event>, i: nat)
    requires i < |events|
  {
    match events[i]
    case Lookup(key, copyAt, _) =>
      var now := After(d, s, events[..i]);
      IsInLocalStorage(d, now, key) || CopyPath(d, key) !in now.files
      || AfterEarlierFills(d, s, events, i, LocalPath(d, key), copyAt)
    case Write(path, _, at) => AfterEarlierFills(d, s, events, i, path, at)
    case Delete(_) => true
  }

  ghost predicate ClockAdvances(d: Storage, s: State, events: seq<Event>) {
    forall i: nat :: i < |events| ==> ClockAdvanced(d, s, events, i)
  }

  /** One event either leaves an entry of the memory as it was or is the lookup that filled it. */
  lemma EntryAfterEvent(d: Storage, s: State, e: Event, key: string)
    requires key in Step(d, s, e).mem
    ensures || (key in s.mem && Step(d, s, e).mem[key] == s.mem[key])
            || (&& e.Lookup? && e.key == key && Step(d, s, e).mem[key].timestamp == e.fillAt
                && !IsInMemoryAndUpToDate(d, Supplied(d, s, key, e.copyAt), key))
  {
    hide LocalPath, CopyPath;
  }

  /** What an entry of the memory is stamped with: the time of the lookup of its key that filled
      it. */
  lemma {:induction false} StampsAreFills(d: Storage, files: map<string, File>, events: seq<Event>, n: nat, key: string)
    returns (j: nat)
    requires n <= |events| && key in After(d, State(map[], files), events[..n]).mem
    ensures j < n && FillsMemory(d, State(map[], files), events, j) && events[j].key == key
    ensures events[j].fillAt == After(d, State(map[], files), events[..n]).mem[key].timestamp
    decreases n
  {
    hide Step, Supplied, IsInMemoryAndUpToDate;
    var empty := State(map[], files);
    OneMoreEvent(d, empty, events, n - 1);
    var s, t := After(d, empty, events[..n - 1]), After(d, empty, events[..n]);
    EntryAfterEvent(d, s, events[n - 1], key);
    if key in s.mem && t.mem[key] == s.mem[key] {
      j := StampsAreFills(d, files, events, n - 1, key);
    } else {
      j := n - 1;
    }
  }

  lemma OneMoreEvent(d: Storage, s: State, events: seq<Event>, n: nat)
    requires n < |events|
    ensures After(d, s, events[..n + 1]) == Step(d, After(d, s, events[..n]), events[n])
  {
    assert events[..n + 1][..n] == events[..n];
  }

  lemma LaterThanStamps(d: Storage, files: map<string, File>, events: seq<Event>, i: nat, path: string, at: int)
    requires i <= |events| && AfterEarlierFills(d, State(map[], files), events, i, path, at)
    ensures LaterThanFills(d, After(d, State(map[], files), events[..i]), path, at)
  {
    var s := After(d, State(map[], files), events[..i]);
    forall key | key in s.mem && LocalPath(d, key) == path
      ensures s.mem[key].timestamp < at
    {
      var j := StampsAreFills(d, files, events, i, key);
    }
  }

  /** The state after the first `n` events is coherent when the clock advances up to there. */
  lemma {:induction false} RunStaysCoherent(d: Storage, files: map<string, File>, events: seq<Event>, n: nat)
    requires n <= |events| && forall i: nat :: i < n ==> ClockAdvanced(d, State(map[], files), events, i)
    ensures Coherent(d, After(d, State(map[], files), events[..n]))
    decreases n
  {
    if n > 0 {
      RunStaysCoherent(d, files, events, n - 1);
      OneMoreEvent(d, State(map[], files), events, n - 1);
      EventInTime(d, files, events, n - 1);
      var t := After(d, State(map[], files), events[..n - 1]);
      match events[n - 1]
      case Lookup(key, copyAt, fillAt) => LookupReadsThrough(d, t, key, copyAt, fillAt);
      case Write(path, content, at) => WriteKeepsCoherence(d, t, path, content, at);
      case Delete(path) => DeletionKeepsCoherence(d, t, path);
    }
  }

  lemma EventInTime(d: Storage, files: map<string, File>, events: seq<Event>, i: nat)
    requires i < |events| && ClockAdvanced(d, State(map[], files), events, i)
    ensures var t := After(d, State(map[], files), events[..i]);
            match events[i]
            case Lookup(key, copyAt, _) => InTime(d, t, key, copyAt)
            case Write(path, _, at) => LaterThanFills(d, t, path, at)
            case Delete(_) => true
  {
    match events[i]
    case Lookup(key, copyAt, _) =>
      if AfterEarlierFills(d, State(map[], files), events, i, LocalPath(d, key), copyAt) {
        LaterThanStamps(d, files, events, i, LocalPath(d, key), copyAt);
      }
    case Write(path, _, at) => LaterThanStamps(d, files, events, i, path, at);
    case Delete(_) =>
  }

  /** Over any run of lookups, writes and deletions on an advancing clock, every lookup
      answers as if there were no memory. */
  lemma RunReadsThrough(d: Storage, files: map<string, File>, events: seq<Event>, i: nat)
    requires ClockAdvances(d, State(map[], files), events)
    requires i < |events| && events[i].Lookup?
    ensures var s := After(d, State(map[], files), events[..i]);
            Answer(d, s, events[i].key, events[i].copyAt, events[i].fillAt) == Current(d, s, events[i].key)
  {
    RunStaysCoherent(d, files, events, i);
    EventInTime(d, files, events, i);
    var e := events[i];
    LookupReadsThrough(d, After(d, State(map[], files), events[..i]), e.key, e.copyAt, e.fillAt);
  }

  /** Two keys for one path are answered alike in every reachable state, although each has a
      memory entry of its own. */
  lemma AliasesAgree(d: Storage, s: State, a: string, b: string, copyAt: int, fillAt: int, copyNext: int, fillNext: int)
    requires Coherent(d, s) && InTime(d, s, a, copyAt)
    requires LocalPath(d, a) == LocalPath(d, b) && Current(d, s, a) != ""
    ensures var t := AfterLookup(d, s, a, copyAt, fillAt);
            Answer(d, t, b, copyNext, fillNext) == Answer(d, s, a, copyAt, fillAt)
  {
  }

  // ----- the cache

  class FileSystem {
    var files: map<string, File>

    constructor (files: map<string, File>)
      ensures this.files == files
    {
      this.files := files;
    }
  }

  class CmlCopy {
    const storage: Storage
    const disk: FileSystem
    var inMemCache: map<string, InMemoryCached>

    constructor (storage: Storage, disk: FileSystem)
      ensures this.storage == storage && this.disk == disk && inMemCache == map[]
    {
      this.storage, this.disk := storage, disk;
      inMemCache := map[];
    }

    function Snapshot(): State
      reads this, disk
    {
      State(inMemCache, disk.files)
    }

    method CreateFileInLocalStorage(key: string, at: int)
      modifies disk
      ensures Snapshot() == Supplied(storage, old(Snapshot()), key, at)
    {
      var from, to := CopyPath(storage, key), LocalPath(storage, key);
      if from in disk.files && to !in disk.files {
        disk.files := disk.files[to := File(disk.files[from].content, at)];
      }
    }

    /** The search calls itself once after a copy, and never again. */
    method FindInCache(key: string, first: bool, copyAt: int, fillAt: int) returns (content: string)
      modifies this, disk
      ensures first ==> content == Answer(storage, old(Snapshot()), key, copyAt, fillAt)
      ensures first ==> Snapshot() == AfterLookup(storage, old(Snapshot()), key, copyAt, fillAt)
      ensures !first ==> Snapshot() == Remembered(storage, old(Snapshot()), key, fillAt)
      ensures !first ==> content == if IsInLocalStorage(storage, old(Snapshot()), key)
                                    then inMemCache[key].content else ""
      decreases first
    {
      var path := LocalPath(storage, key);
      if key in inMemCache && path in disk.files && disk.files[path].lastWrite <= inMemCache[key].timestamp {
        return inMemCache[key].content;
      }
      if path in disk.files {
        inMemCache := inMemCache[key := InMemoryCached(fillAt, disk.files[path].content)];
        return inMemCache[key].content;
      }
      if !first {
        return "";
      }
      CreateFileInLocalStorage(key, copyAt);
      content := FindInCache(key, false, copyAt, fillAt);
    }
  }
}
