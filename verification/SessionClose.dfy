/**
  The session-close protocol: one locked pass at a time reads the pending entries and the
  fail-closed markers, checks the barrier of each branch, rewrites the entries, then
  unlinks the markers it read and removes their directory if that left it empty. Writers
  that could not get the lock make the directory and add markers at any moment. Passes and
  writers can die between any two steps.

  A step is one action on the shared directories: a read, a rename, an unlink, a removal.
  A read that meets a marker which names no session or no branch fails, and ends the pass.
  */
module SessionClose {

  datatype Key = Key(session: string, branch: string)

  datatype Entry = Entry(code: string)

  const LOCK_FAILED := Entry("session_close_lock_failed")

  /** The characters that str.strip() removes. */
  predicate IsSpace(c: char) {
    var n := c as int;
    || 9 <= n <= 13 || 28 <= n <= 32 || n == 0x85 || n == 0xA0 || n == 0x1680 || 0x2000 <= n <= 0x200A
    || n == 0x2028 || n == 0x2029 || n == 0x202F || n == 0x205F || n == 0x3000
  }

  predicate IsBlank(s: string) { forall i :: 0 <= i < |s| ==> IsSpace(s[i]) }

  predicate Named(k: Key) { !IsBlank(k.branch) }

  predicate AllNamed(ks: set<Key>) { forall k :: k in ks ==> Named(k) }

  /** A marker file that names no session or no branch is refused by whoever reads it. */
  predicate Readable(k: Key) { !IsBlank(k.session) && Named(k) }

  predicate AllReadable(markers: map<nat, Key>) { forall p :: p in markers ==> Readable(markers[p]) }

  /** What a barrier check says; a check that raises counts as blocking. */
  datatype Barrier = Clear | Blocking(code: string) | Failed

  function Verdict(b: Barrier): Entry
    requires !b.Clear?
  {
    Entry(if b.Failed? then "failed" else if b.code == "" then "pending" else b.code)
  }

  /** A refresh rechecks every pending key; a session end checks the branches of one session. */
  datatype Kind = Refresh | SessionEnd(session: string, branches: seq<string>)

  datatype Phase =
    | Free
    | Entered(kind: Kind)
    | HasEntries(kind: Kind, entries: map<Key, Entry>)
    | Checking(byKey: map<Key, Entry>, todo: set<Key>, paths: set<nat>, readAt: nat)
    | Unlinking(paths: set<nat>, sweep: bool)

  /**
    What happened, in order: a marker was created, the entries were rewritten, a check under
    the lock was clear, the marker directory was made or removed, a marker could not be written.
    */
  datatype Event =
    | Marked(key: Key, path: nat)
    | Wrote(keys: set<Key>)
    | Cleared(key: Key, readAt: nat)
    | MadeDir
    | RemovedDir
    | WriteFailed(key: Key)

  /** A writer without the lock: the keys it has still to mark, and how long the history was when it had made the directory. */
  datatype Writer = Writer(todo: seq<Key>, madeAt: nat)

  /**
    The entries; the marker directory with its markers and temporary files; the processes
    at work on them; the history. `next` is the next marker path, never used before; a
    temporary file is named by its writer.
    */
  datatype World = World(
    entries: map<Key, Entry>, markers: map<nat, Key>, next: nat, dir: bool, temps: set<nat>,
    writers: map<nat, Writer>, phase: Phase, history: seq<Event>)

  const INITIAL := World(map[], map[], 0, false, {}, map[], Free, [])

  datatype Action =
    | MakeDir(writer: nat, keys: seq<Key>)
    | WriteTemp(writer: nat)
    | Rename(writer: nat)
    | WriterDies(writer: nat)
    | Acquire(kind: Kind)
    | ReadEntries
    | ReadMarkers
    | Check(key: Key, barrier: Barrier)
    | Write
    | Unlink(path: nat)
    | RemoveDir
    | Release
    | Crash

  /** Markers override entries of the same key. */
  function Merged(entries: map<Key, Entry>, markers: map<nat, Key>): map<Key, Entry> {
    map k | k in entries.Keys + markers.Values :: if k in markers.Values then LOCK_FAILED else entries[k]
  }

  function KeysOf(session: string, branches: seq<string>): set<Key> { set b | b in branches :: Key(session, b) }

  predicate KindNamed(kind: Kind) { kind.SessionEnd? ==> AllNamed(KeysOf(kind.session, kind.branches)) }

  /** Writers and ending sessions name the branches they mean: a blank one stands for "main". */
  predicate Enabled(w: World, a: Action) {
    match a
    case MakeDir(x, keys) => x !in w.writers && x !in w.temps && AllNamed(set k | k in keys)
    case WriteTemp(x) => x in w.writers && w.writers[x].todo != [] && x !in w.temps
    case Rename(x) => x in w.writers && w.writers[x].todo != [] && x in w.temps
    case WriterDies(x) => x in w.writers
    case Acquire(kind) => w.phase.Free? && KindNamed(kind)
    case ReadEntries => w.phase.Entered?
    case ReadMarkers => w.phase.HasEntries?
    case Check(key, _) => w.phase.Checking? && key in w.phase.todo
    case Write => w.phase.Checking? && w.phase.todo == {}
    case Unlink(path) => w.phase.Unlinking? && path in w.phase.paths
    case RemoveDir => w.phase.Unlinking? && w.phase.paths == {} && w.phase.sweep
    case Release => w.phase.Unlinking? && w.phase.paths == {} && !w.phase.sweep
    case Crash => !w.phase.Free?
  }

  function Next(w: World, a: Action): World
    requires Enabled(w, a)
  {
    match a
    case MakeDir(x, keys) =>
      w.(dir := true, writers := w.writers[x := Writer(keys, |w.history| + 1)], history := w.history + [MadeDir])
    case WriteTemp(x) =>
      if w.dir then w.(temps := w.temps + {x})
      else w.(writers := w.writers - {x}, history := w.history + [WriteFailed(w.writers[x].todo[0])])
    case Rename(x) =>
      var todo := w.writers[x].todo;
      w.(markers := w.markers[w.next := todo[0]], next := w.next + 1, temps := w.temps - {x},
         writers := w.writers[x := w.writers[x].(todo := todo[1..])], history := w.history + [Marked(todo[0], w.next)])
    case WriterDies(x) => w.(writers := w.writers - {x})
    case Acquire(kind) => w.(phase := Entered(kind))
    case ReadEntries => w.(phase := HasEntries(w.phase.kind, w.entries))
    case ReadMarkers =>
      var byKey := Merged(w.phase.entries, w.markers);
      if !AllReadable(w.markers) then w.(phase := Free)
      else if w.phase.kind.Refresh? && byKey == map[] then w.(phase := Free)
      else
        var todo := if w.phase.kind.Refresh? then byKey.Keys else KeysOf(w.phase.kind.session, w.phase.kind.branches);
        w.(phase := Checking(byKey, todo, w.markers.Keys, |w.history|))
    case Check(key, barrier) =>
      var rest := w.phase.todo - {key};
      if barrier.Clear? then
        w.(phase := w.phase.(byKey := w.phase.byKey - {key}, todo := rest),
           history := w.history + [Cleared(key, w.phase.readAt)])
      else
        w.(phase := w.phase.(byKey := w.phase.byKey[key := Verdict(barrier)], todo := rest))
    case Write =>
      w.(entries := w.phase.byKey, phase := Unlinking(w.phase.paths, w.phase.paths != {}), history := w.history + [Wrote(w.phase.byKey.Keys)])
    case Unlink(path) => w.(markers := w.markers - {path}, phase := w.phase.(paths := w.phase.paths - {path}))
    case RemoveDir =>
      if w.markers == map[] && w.temps == {} then
        w.(dir := false, phase := Unlinking({}, false), history := w.history + [RemovedDir])
      else
        w.(phase := Unlinking({}, false))
    case Release => w.(phase := Free)
    case Crash => w.(phase := Free)
  }

  /** The states reached by a sequence of actions; an action that is not enabled is not taken. */
  function Steps(w: World, actions: seq<Action>): World
    decreases |actions|
  {
    if actions == [] then w
    else Steps(if Enabled(w, actions[0]) then Next(w, actions[0]) else w, actions[1..])
  }

  // ----- What must not be lost ------------------------------------------------------------

  ghost predicate Records(e: Event, k: Key) { (e.Marked? && e.key == k) || (e.Wrote? && k in e.keys) }

  /** The block is on disk. */
  predicate OnDisk(w: World, k: Key) { k in w.entries || k in w.markers.Values }

  /** After event i, a check of this key was clear, by a pass that read the markers after event i. */
  ghost predicate ClearedAfter(history: seq<Event>, i: nat, k: Key) {
    exists j :: i < j < |history| && history[j].Cleared? && history[j].key == k && history[j].readAt > i
  }

  /** A pass that read at r found this key clear. */
  ghost predicate ClearedBy(history: seq<Event>, r: nat, k: Key) {
    exists j :: r <= j < |history| && history[j] == Cleared(k, r)
  }

  /** Where the block recorded by event i is: its own marker, an entry, or a later clear check. */
  ghost predicate Kept(w: World, i: nat)
    requires i < |w.history|
  {
    match w.history[i]
    case Marked(k, p) => (p in w.markers && w.markers[p] == k) || k in w.entries || ClearedAfter(w.history, i, k)
    case Wrote(ks) => forall k :: k in ks ==> k in w.entries || ClearedAfter(w.history, i, k)
    case _ => true
  }

  /** Markers created since the pass read are still there and not among those it will unlink. */
  ghost predicate SinceRead(w: World, paths: set<nat>, readAt: nat) {
    forall i :: readAt <= i < |w.history| ==> Untouched(w, paths, w.history[i])
  }

  ghost predicate Untouched(w: World, paths: set<nat>, e: Event) {
    !e.Wrote? && (e.Marked? ==> e.path !in paths && e.path in w.markers && w.markers[e.path] == e.key)
  }

  /** Everything the pass read is still in its table, or was found clear by this pass. */
  ghost predicate Accounted(w: World, known: set<Key>, paths: set<nat>, r: nat) {
    && (forall k :: k in w.entries ==> k in known || ClearedBy(w.history, r, k))
    && ReadKept(w, known, paths, r)
  }

  ghost predicate ReadKept(w: World, known: set<Key>, paths: set<nat>, r: nat) {
    forall p :: p in paths && p in w.markers ==> w.markers[p] in known || ClearedBy(w.history, r, w.markers[p])
  }

  /** Unlinking is safe: what the markers said is in the entries, or was found clear by a pass that read after they were made. */
  ghost predicate SafeToUnlink(w: World, paths: set<nat>) {
    exists r: nat :: r <= |w.history| && OldPaths(w, paths, r) && ReadKept(w, w.entries.Keys, paths, r)
  }

  /** These paths were marked before the history was r long. */
  ghost predicate OldPaths(w: World, paths: set<nat>, r: nat) {
    forall i :: r <= i < |w.history| && w.history[i].Marked? ==> w.history[i].path !in paths
  }

  ghost predicate PhaseInv(w: World) {
    match w.phase
    case Free => true
    case Entered(_) => true
    case HasEntries(_, entries) => entries == w.entries
    case Checking(byKey, _, paths, r) =>
      r <= |w.history| && SinceRead(w, paths, r) && Accounted(w, byKey.Keys, paths, r)
    case Unlinking(paths, _) => SafeToUnlink(w, paths)
  }

  ghost predicate Inv(w: World) {
    && AllBelow(w.markers.Keys, w.next)
    && AllBelow(LivePaths(w), w.next)
    && (forall i :: 0 <= i < |w.history| && w.history[i].Marked? ==> w.history[i].path < w.next)
    && (forall i :: 0 <= i < |w.history| ==> Kept(w, i))
    && PhaseInv(w)
  }

  ghost predicate AllBelow(paths: set<nat>, next: nat) { forall p :: p in paths ==> p < next }

  function LivePaths(w: World): set<nat> {
    if w.phase.Checking? || w.phase.Unlinking? then w.phase.paths else {}
  }

  // ----- Each action keeps the invariant ----------------------------------------------------

  lemma ClearedByIsAfter(history: seq<Event>, r: nat, i: nat, k: Key)
    requires ClearedBy(history, r, k) && i < r
    ensures ClearedAfter(history, i, k)
  {
  }

  lemma LongerHistory(history: seq<Event>, e: Event)
    ensures forall i, k :: ClearedAfter(history, i, k) ==> ClearedAfter(history + [e], i, k)
    ensures forall r, k :: ClearedBy(history, r, k) ==> ClearedBy(history + [e], r, k)
  {
    forall i: nat, k | ClearedAfter(history, i, k) ensures ClearedAfter(history + [e], i, k) {
      var j :| i < j < |history| && history[j].Cleared? && history[j].key == k && history[j].readAt > i;
      assert (history + [e])[j] == history[j];
    }
    forall r: nat, k | ClearedBy(history, r, k) ensures ClearedBy(history + [e], r, k) {
      var j :| r <= j < |history| && history[j] == Cleared(k, r);
      assert (history + [e])[j] == history[j];
    }
  }

  /** The same directory, one event later. */
  ghost predicate OneEventLater(w: World, u: World, e: Event) {
    u.entries == w.entries && u.history == w.history + [e] && forall p :: p in w.markers ==> p in u.markers && u.markers[p] == w.markers[p]
  }

  lemma RecordsKept(w: World, u: World, e: Event)
    requires OneEventLater(w, u, e) && Kept(u, |w.history|)
    requires forall i :: 0 <= i < |w.history| ==> Kept(w, i)
    ensures forall i :: 0 <= i < |u.history| ==> Kept(u, i)
  {
    LongerHistory(w.history, e);
    forall i | 0 <= i < |u.history| ensures Kept(u, i) {
      if i < |w.history| { assert Kept(w, i) && u.history[i] == w.history[i]; }
    }
  }

  lemma StillSinceRead(w: World, u: World, e: Event, paths: set<nat>, r: nat)
    requires OneEventLater(w, u, e) && SinceRead(w, paths, r) && Untouched(u, paths, e)
    ensures SinceRead(u, paths, r)
  {
    forall i | r <= i < |u.history| ensures Untouched(u, paths, u.history[i]) {
      if i < |w.history| { assert Untouched(w, paths, w.history[i]); }
    }
  }

  lemma StillReadKept(w: World, u: World, e: Event, known: set<Key>, paths: set<nat>, r: nat)
    requires OneEventLater(w, u, e) && ReadKept(w, known, paths, r)
    requires forall p :: p in paths && p in u.markers ==> p in w.markers
    ensures ReadKept(u, known, paths, r)
  {
    LongerHistory(w.history, e);
    forall p | p in paths && p in u.markers ensures u.markers[p] in known || ClearedBy(u.history, r, u.markers[p]) {
      assert w.markers[p] in known || ClearedBy(w.history, r, w.markers[p]);
    }
  }

  lemma StillAccounted(w: World, u: World, e: Event, known: set<Key>, paths: set<nat>, r: nat)
    requires OneEventLater(w, u, e) && Accounted(w, known, paths, r)
    requires forall p :: p in paths && p in u.markers ==> p in w.markers
    ensures Accounted(u, known, paths, r)
  {
    LongerHistory(w.history, e);
    StillReadKept(w, u, e, known, paths, r);
  }

  /** A writer's step: nothing but at most one event, at most one new marker, and the writers' own state. */
  ghost predicate WriterStep(w: World, u: World, e: Event) {
    && OneEventLater(w, u, e) && u.phase == w.phase && !e.Wrote? && !e.Cleared?
    && u.markers == (if e.Marked? then w.markers[e.path := e.key] else w.markers)
    && (e.Marked? ==> e.path == w.next) && u.next == w.next + if e.Marked? then 1 else 0
  }

  lemma WriterStepKeeps(w: World, u: World, e: Event)
    requires Inv(w) && WriterStep(w, u, e)
    ensures Inv(u)
  {
    RecordsKept(w, u, e);
    if w.phase.Checking? {
      StillSinceRead(w, u, e, w.phase.paths, w.phase.readAt);
      StillAccounted(w, u, e, w.phase.byKey.Keys, w.phase.paths, w.phase.readAt);
    } else if w.phase.Unlinking? {
      WriterStepKeepsUnlinking(w, u, e);
    }
    assert LivePaths(u) == LivePaths(w);
  }

  lemma WriterStepKeepsUnlinking(w: World, u: World, e: Event)
    requires Inv(w) && WriterStep(w, u, e) && w.phase.Unlinking?
    ensures SafeToUnlink(u, w.phase.paths)
  {
    var paths := w.phase.paths;
    var r: nat :| r <= |w.history| && OldPaths(w, paths, r) && ReadKept(w, w.entries.Keys, paths, r);
    StillReadKept(w, u, e, w.entries.Keys, paths, r);
    assert OldPaths(u, paths, r);
  }

  /** A change the invariant does not look at. */
  lemma SameFilesKeep(w: World, u: World)
    requires Inv(w) && u.entries == w.entries && u.markers == w.markers && u.next == w.next && u.history == w.history
    requires u.phase == w.phase || (PhaseInv(u) && LivePaths(u) <= LivePaths(w))
    ensures Inv(u)
  {
    forall i | 0 <= i < |u.history| ensures Kept(u, i) { assert Kept(w, i); }
    if u.phase == w.phase { SamePhaseInv(w, u); assert LivePaths(u) == LivePaths(w); }
  }

  lemma SamePhaseInv(w: World, u: World)
    requires u.entries == w.entries && u.markers == w.markers && u.history == w.history && u.phase == w.phase && PhaseInv(w)
    ensures PhaseInv(u)
  {
    if w.phase.Checking? {
      SinceReadSame(w, u, w.phase.paths, w.phase.readAt);
    } else if w.phase.Unlinking? {
      var r: nat :| r <= |w.history| && OldPaths(w, w.phase.paths, r) && ReadKept(w, w.entries.Keys, w.phase.paths, r);
      assert OldPaths(u, w.phase.paths, r) && ReadKept(u, u.entries.Keys, w.phase.paths, r);
    }
  }

  lemma WriterKeeps(w: World, a: Action)
    requires Inv(w) && Enabled(w, a) && ByWriter(a)
    ensures Inv(Next(w, a))
  {
    var u := Next(w, a);
    match a {
      case MakeDir(_, _) => WriterStepKeeps(w, u, MadeDir);
      case WriteTemp(x) => if w.dir { SameFilesKeep(w, u); } else { WriterStepKeeps(w, u, WriteFailed(w.writers[x].todo[0])); }
      case Rename(x) => WriterStepKeeps(w, u, Marked(w.writers[x].todo[0], w.next));
      case WriterDies(_) => SameFilesKeep(w, u);
    }
  }

  predicate ByWriter(a: Action) { a.MakeDir? || a.WriteTemp? || a.Rename? || a.WriterDies? }

  lemma RemoveDirKeeps(w: World)
    requires Inv(w) && Enabled(w, RemoveDir)
    ensures Inv(Next(w, RemoveDir))
  {
    var u := Next(w, RemoveDir);
    assert OldPaths(u, {}, 0) && ReadKept(u, u.entries.Keys, {}, 0);
    assert SafeToUnlink(u, {});
    if w.markers == map[] && w.temps == {} { RecordsKept(w, u, RemovedDir); } else { SameFilesKeep(w, u); }
  }

  lemma ReadMarkersKeeps(w: World)
    requires Inv(w) && Enabled(w, ReadMarkers)
    ensures Inv(Next(w, ReadMarkers))
  {
    hide AllReadable;
    var u := Next(w, ReadMarkers);
    forall i | 0 <= i < |u.history| ensures Kept(u, i) { assert Kept(w, i); }
  }

  lemma CheckKeeps(w: World, key: Key, barrier: Barrier)
    requires Inv(w) && Enabled(w, Check(key, barrier))
    ensures Inv(Next(w, Check(key, barrier)))
  {
    var u := Next(w, Check(key, barrier));
    if barrier.Clear? {
      var r, paths, e := w.phase.readAt, w.phase.paths, Cleared(key, w.phase.readAt);
      RecordsKept(w, u, e);
      StillSinceRead(w, u, e, paths, r);
      StillAccounted(w, u, e, w.phase.byKey.Keys, paths, r);
      assert u.history[|w.history|] == e;
      ForgetCleared(u, w.phase.byKey.Keys, paths, r, key);
      assert u.phase.byKey.Keys == w.phase.byKey.Keys - {key};
    } else {
      forall i | 0 <= i < |u.history| ensures Kept(u, i) { assert Kept(w, i); }
      SinceReadSame(w, u, w.phase.paths, w.phase.readAt);
      assert u.phase.byKey.Keys == w.phase.byKey.Keys + {key};
      AccountedMore(w, u, w.phase.byKey.Keys, w.phase.paths, w.phase.readAt, key);
    }
    assert LivePaths(u) == LivePaths(w);
  }

  lemma ForgetCleared(w: World, known: set<Key>, paths: set<nat>, r: nat, key: Key)
    requires Accounted(w, known, paths, r) && ClearedBy(w.history, r, key)
    ensures Accounted(w, known - {key}, paths, r)
  {
  }

  lemma SinceReadSame(w: World, u: World, paths: set<nat>, r: nat)
    requires u.history == w.history && u.markers == w.markers && SinceRead(w, paths, r)
    ensures SinceRead(u, paths, r)
  {
    forall i | r <= i < |u.history| ensures Untouched(u, paths, u.history[i]) { assert Untouched(w, paths, w.history[i]); }
  }

  lemma AccountedMore(w: World, u: World, known: set<Key>, paths: set<nat>, r: nat, key: Key)
    requires u.history == w.history && u.markers == w.markers && u.entries == w.entries && Accounted(w, known, paths, r)
    ensures Accounted(u, known + {key}, paths, r)
  {
  }

  lemma WriteKeeps(w: World)
    requires Inv(w) && Enabled(w, Write)
    ensures Inv(Next(w, Write))
  {
    var u := Next(w, Write);
    forall i | 0 <= i < |u.history| ensures Kept(u, i) { if i < |w.history| { WriteKeepsRecord(w, i); } }
    WriteIsSafe(w);
    assert LivePaths(u) == LivePaths(w);
  }

  lemma WriteIsSafe(w: World)
    requires Inv(w) && Enabled(w, Write)
    ensures SafeToUnlink(Next(w, Write), w.phase.paths)
  {
    var u := Next(w, Write);
    var byKey, paths, r := w.phase.byKey, w.phase.paths, w.phase.readAt;
    forall i | r <= i < |u.history| && u.history[i].Marked? ensures u.history[i].path !in paths {
      assert Untouched(w, paths, w.history[i]);
    }
    StillReadKept(w, u.(entries := w.entries), Wrote(byKey.Keys), byKey.Keys, paths, r);
    assert OldPaths(u, paths, r) && ReadKept(u, u.entries.Keys, paths, r);
  }

  lemma WriteKeepsRecord(w: World, i: nat)
    requires Inv(w) && Enabled(w, Write) && i < |w.history|
    ensures Kept(Next(w, Write), i)
  {
    var u := Next(w, Write);
    var r := w.phase.readAt;
    assert Kept(w, i);
    LongerHistory(w.history, Wrote(w.phase.byKey.Keys));
    if i >= r {
      assert Untouched(w, w.phase.paths, w.history[i]);
    } else {
      forall k | k in w.entries && k !in u.entries ensures ClearedAfter(u.history, i, k) {
        ClearedByIsAfter(w.history, r, i, k);
      }
    }
  }

  lemma UnlinkKeeps(w: World, path: nat)
    requires Inv(w) && Enabled(w, Unlink(path))
    ensures Inv(Next(w, Unlink(path)))
  {
    var u, paths := Next(w, Unlink(path)), w.phase.paths;
    var r: nat :| r <= |w.history| && OldPaths(w, paths, r) && ReadKept(w, w.entries.Keys, paths, r);
    forall i | 0 <= i < |u.history| ensures Kept(u, i) { UnlinkKeepsRecord(w, path, r, i); }
    assert OldPaths(u, paths - {path}, r) && ReadKept(u, u.entries.Keys, paths - {path}, r);
    assert SafeToUnlink(u, paths - {path});
    assert LivePaths(u) == paths - {path} && u.markers.Keys <= w.markers.Keys;
  }

  lemma UnlinkKeepsRecord(w: World, path: nat, r: nat, i: nat)
    requires w.phase.Unlinking? && path in w.phase.paths && i < |w.history| && Kept(w, i)
    requires OldPaths(w, w.phase.paths, r) && ReadKept(w, w.entries.Keys, w.phase.paths, r)
    ensures Kept(Next(w, Unlink(path)), i)
  {
    var e := w.history[i];
    if e.Marked? && e.path == path && path in w.markers && w.markers[path] == e.key && e.key !in w.entries {
      ClearedByIsAfter(w.history, r, i, e.key);
    }
  }

  lemma NextKeeps(w: World, a: Action)
    requires Inv(w) && Enabled(w, a)
    ensures Inv(Next(w, a))
  {
    if ByWriter(a) { WriterKeeps(w, a); }
    else if a.ReadMarkers? { ReadMarkersKeeps(w); }
    else if a.Check? { CheckKeeps(w, a.key, a.barrier); }
    else if a.Write? { WriteKeeps(w); }
    else if a.Unlink? { UnlinkKeeps(w, a.path); }
    else if a.RemoveDir? { RemoveDirKeeps(w); }
    else { SameFilesKeep(w, Next(w, a)); }
  }

  lemma {:induction false} StepsKeep(w: World, actions: seq<Action>)
    requires Inv(w)
    ensures Inv(Steps(w, actions))
    decreases |actions|
  {
    if actions != [] {
      if Enabled(w, actions[0]) { NextKeeps(w, actions[0]); }
      StepsKeep(if Enabled(w, actions[0]) then Next(w, actions[0]) else w, actions[1..]);
    }
  }

  // ----- No block is lost ------------------------------------------------------------------

  /**
    Whatever the interleaving and wherever passes die: a recorded block is on disk, or a
    check of its key by a pass that read after it was recorded was clear.
    */
  lemma NoBlockIsLost(actions: seq<Action>, i: nat, k: Key)
    requires i < |Steps(INITIAL, actions).history| && Records(Steps(INITIAL, actions).history[i], k)
    ensures var w := Steps(INITIAL, actions);
            OnDisk(w, k) || ClearedAfter(w.history, i, k)
  {
    StepsKeep(INITIAL, actions);
    var w := Steps(INITIAL, actions);
    assert Kept(w, i);
  }

  /** A marker created since the current pass read is still there, and that pass will not unlink it. */
  lemma LateMarkersSurvive(actions: seq<Action>, i: nat)
    requires var w := Steps(INITIAL, actions);
             w.phase.Checking? && w.phase.readAt <= i < |w.history| && w.history[i].Marked?
    ensures var w := Steps(INITIAL, actions);
            && w.history[i].path in w.markers && w.markers[w.history[i].path] == w.history[i].key
            && w.history[i].path !in w.phase.paths
  {
    StepsKeep(INITIAL, actions);
    var w := Steps(INITIAL, actions);
    assert Untouched(w, w.phase.paths, w.history[i]);
  }

  /** Only unlinking removes a marker, and it removes one the pass had read. */
  lemma OnlyUnlinkRemoves(w: World, a: Action, p: nat)
    requires Inv(w) && Enabled(w, a) && p in w.markers && (p !in Next(w, a).markers || Next(w, a).markers[p] != w.markers[p])
    ensures a == Unlink(p) && p in LivePaths(w)
  {
  }

  /** Until the lock is taken again, the pass under way leaves every marker it did not read alone. */
  lemma {:induction false} PassLeavesLateMarkers(w: World, actions: seq<Action>, p: nat)
    requires Inv(w) && p in w.markers && p !in LivePaths(w)
    requires w.phase.Free? || w.phase.Checking? || w.phase.Unlinking?
    requires forall a :: a in actions ==> !a.Acquire?
    ensures p in Steps(w, actions).markers && Steps(w, actions).markers[p] == w.markers[p]
    decreases |actions|
  {
    if actions != [] {
      if Enabled(w, actions[0]) { NextKeeps(w, actions[0]); }
      PassLeavesLateMarkers(if Enabled(w, actions[0]) then Next(w, actions[0]) else w, actions[1..], p);
    }
  }

  // ----- When a lock failure leaves a marker ------------------------------------------------------

  /** Whether the directory exists, read off the history. */
  ghost predicate DirAfter(history: seq<Event>) {
    if history == [] then false
    else
      var last := history[|history| - 1];
      last.MadeDir? || (!last.RemovedDir? && DirAfter(history[..|history| - 1]))
  }

  /** Since the history was n long the directory was removed and not made again. */
  ghost predicate RemovedSince(history: seq<Event>, n: nat) {
    exists j :: n <= j < |history| && history[j].RemovedDir? && forall k :: j < k < |history| ==> !history[k].MadeDir?
  }

  /** A directory that holds a file exists, and the history tells whether it exists now. */
  ghost predicate DirKnown(w: World) {
    (w.markers != map[] || w.temps != {} ==> w.dir) && (w.dir <==> DirAfter(w.history))
  }

  ghost predicate MadeAt(history: seq<Event>, n: nat) { 1 <= n <= |history| && history[n - 1] == MadeDir }

  /** Every writer at work made the directory once. */
  ghost predicate WritersMadeIt(w: World) { forall x :: x in w.writers ==> MadeAt(w.history, w.writers[x].madeAt) }

  ghost predicate DirInv(w: World) { DirKnown(w) && WritersMadeIt(w) }

  lemma DirAfterOneMore(history: seq<Event>, e: Event)
    ensures DirAfter(history + [e]) <==> e.MadeDir? || (!e.RemovedDir? && DirAfter(history))
  {
    assert (history + [e])[..|history|] == history;
  }

  lemma NextKeepsDir(w: World, a: Action)
    requires DirInv(w) && Enabled(w, a)
    ensures DirInv(Next(w, a))
  {
    NextKnowsDir(w, a);
    NextKeepsWriters(w, a);
  }

  lemma NextKnowsDir(w: World, a: Action)
    requires DirKnown(w) && Enabled(w, a)
    ensures DirKnown(Next(w, a))
  {
    var u := Next(w, a);
    if |u.history| > |w.history| {
      var e := u.history[|w.history|];
      assert u.history == w.history + [e];
      DirAfterOneMore(w.history, e);
    }
  }

  lemma StillMade(w: World, a: Action)
    requires Enabled(w, a)
    ensures forall n :: MadeAt(w.history, n) ==> MadeAt(Next(w, a).history, n)
  {
    hide Merged, KeysOf, Verdict;
    var u := Next(w, a);
    assert |w.history| <= |u.history| && u.history[..|w.history|] == w.history;
  }

  lemma JustMade(history: seq<Event>)
    ensures MadeAt(history + [MadeDir], |history| + 1)
  {
  }

  lemma NextKeepsWriters(w: World, a: Action)
    requires WritersMadeIt(w) && Enabled(w, a)
    ensures WritersMadeIt(Next(w, a))
  {
    hide Merged, KeysOf, Verdict, MadeAt;
    var u := Next(w, a);
    StillMade(w, a);
    if a.MakeDir? { assert MadeAt(u.history, |w.history| + 1) by { JustMade(w.history); } }
  }

  lemma {:induction false} StepsKeepDir(w: World, actions: seq<Action>)
    requires DirInv(w)
    ensures DirInv(Steps(w, actions))
    decreases |actions|
  {
    if actions != [] {
      if Enabled(w, actions[0]) { NextKeepsDir(w, actions[0]); }
      StepsKeepDir(if Enabled(w, actions[0]) then Next(w, actions[0]) else w, actions[1..]);
    }
  }

  lemma {:induction false} GoneMeansRemoved(history: seq<Event>, n: nat)
    requires 1 <= n <= |history| && history[n - 1] == MadeDir
    ensures !DirAfter(history) <==> RemovedSince(history, n)
    decreases |history|
  {
    var last := |history| - 1;
    var before := history[..last];
    if n == |history| {
      assert DirAfter(history);
    } else if history[last].RemovedDir? {
      assert RemovedSince(history, n);
    } else {
      assert before[n - 1] == MadeDir;
      GoneMeansRemoved(before, n);
      if RemovedSince(before, n) && !history[last].MadeDir? {
        var j :| n <= j < |before| && before[j].RemovedDir? && forall k :: j < k < |before| ==> !before[k].MadeDir?;
        assert history[j].RemovedDir?;
      }
      if RemovedSince(history, n) {
        var j :| n <= j < |history| && history[j].RemovedDir? && forall k :: j < k < |history| ==> !history[k].MadeDir?;
        assert before[j].RemovedDir?;
      }
    }
  }

  /**
    A writer about to write its next marker fails, and leaves none, exactly when a pass
    removed the directory after the writer had made it and no other writer made it again.
    */
  lemma MarkerFailsIfRemoved(actions: seq<Action>, x: nat)
    requires Enabled(Steps(INITIAL, actions), WriteTemp(x))
    ensures var w := Steps(INITIAL, actions);
            && (Next(w, WriteTemp(x)) == w.(temps := w.temps + {x}) <==> !RemovedSince(w.history, w.writers[x].madeAt))
            && (RemovedSince(w.history, w.writers[x].madeAt) ==>
                  Next(w, WriteTemp(x)).history == w.history + [WriteFailed(w.writers[x].todo[0])])
  {
    StepsKeepDir(INITIAL, actions);
    GoneMeansRemoved(Steps(INITIAL, actions).history, Steps(INITIAL, actions).writers[x].madeAt);
  }

  /** Once its temporary file is written, nothing but the writer's own death keeps the marker from being made. */
  lemma {:induction false} TempHoldsTheDirectory(w: World, actions: seq<Action>, x: nat)
    requires DirInv(w) && Enabled(w, Rename(x))
    requires forall a :: a in actions ==> a != Rename(x) && a != WriterDies(x)
    ensures var u := Steps(w, actions); u.dir && Enabled(u, Rename(x)) && u.writers[x] == w.writers[x]
    decreases |actions|
  {
    if actions != [] {
      var a := actions[0];
      assert a in actions && forall b :: b in actions[1..] ==> b in actions;
      if Enabled(w, a) {
        NextKeepsDir(w, a);
        StillRenames(w, a, x);
      }
      TempHoldsTheDirectory(if Enabled(w, a) then Next(w, a) else w, actions[1..], x);
    }
  }

  lemma StillRenames(w: World, a: Action, x: nat)
    requires Enabled(w, a) && Enabled(w, Rename(x)) && a != Rename(x) && a != WriterDies(x)
    ensures Enabled(Next(w, a), Rename(x)) && Next(w, a).writers[x] == w.writers[x]
  {
  }

  /** A run in which a lock failure leaves no marker: the pass removes the emptied directory just before the write. */
  lemma ALockFailureLeavesNoMarker(j: Key, k: Key) returns (actions: seq<Action>)
    requires j != k && Readable(j) && Named(k)
    ensures var w := Steps(INITIAL, actions);
            w.history != [] && w.history[|w.history| - 1] == WriteFailed(k) && !OnDisk(w, k)
  {
    var marking, reading := [MakeDir(0, [j]), WriteTemp(0), Rename(0)], [Acquire(Refresh), ReadEntries, ReadMarkers];
    var writing, failing := [Check(j, Clear), Write], [Unlink(0), MakeDir(1, [k]), RemoveDir, WriteTemp(1)];
    actions := marking + (reading + (writing + failing));
    StepsConcat(INITIAL, marking, reading + (writing + failing));
    StepsToMarker(j);
    var w := Steps(INITIAL, marking);
    StepsConcat(w, reading, writing + failing);
    StepsToChecking(w, j);
    StepsConcat(Steps(w, reading), writing, failing);
    StepsToUnlinking(Steps(w, reading), j);
    StepsToFailure(Steps(Steps(w, reading), writing), k);
  }

  lemma {:induction false} StepsConcat(w: World, first: seq<Action>, second: seq<Action>)
    ensures Steps(w, first + second) == Steps(Steps(w, first), second)
    decreases |first|
  {
    if first == [] {
      assert first + second == second;
    } else {
      assert (first + second)[0] == first[0] && (first + second)[1..] == first[1..] + second;
      StepsConcat(if Enabled(w, first[0]) then Next(w, first[0]) else w, first[1..], second);
    }
  }

  lemma OneStep(w: World, a: Action, rest: seq<Action>, u: World)
    requires Enabled(w, a) && Next(w, a) == u
    ensures Steps(w, [a] + rest) == Steps(u, rest)
  {
    assert ([a] + rest)[1..] == rest;
  }

  lemma StepsToMarker(j: Key)
    requires Named(j)
    ensures Steps(INITIAL, [MakeDir(0, [j]), WriteTemp(0), Rename(0)])
            == World(map[], map[0 := j], 1, true, {}, map[0 := Writer([], 1)], Free, [MadeDir, Marked(j, 0)])
  {
    var made := World(map[], map[], 0, true, {}, map[0 := Writer([j], 1)], Free, [MadeDir]);
    var marked := World(map[], map[0 := j], 1, true, {}, map[0 := Writer([], 1)], Free, [MadeDir, Marked(j, 0)]);
    OneStep(INITIAL, MakeDir(0, [j]), [WriteTemp(0), Rename(0)], made);
    OneStep(made, WriteTemp(0), [Rename(0)], made.(temps := {0}));
    assert [MadeDir] + [Marked(j, 0)] == [MadeDir, Marked(j, 0)] && [j][1..] == [];
    assert made.writers[0 := Writer([], 1)] == map[0 := Writer([], 1)];
    OneStep(made.(temps := {0}), Rename(0), [], marked);
  }

  lemma StepsToChecking(w: World, j: Key)
    requires Readable(j)
    requires w == World(map[], map[0 := j], 1, true, {}, map[0 := Writer([], 1)], Free, [MadeDir, Marked(j, 0)])
    ensures Steps(w, [Acquire(Refresh), ReadEntries, ReadMarkers])
            == w.(phase := Checking(map[j := LOCK_FAILED], {j}, {0}, 2))
  {
    OneStep(w, Acquire(Refresh), [ReadEntries, ReadMarkers], w.(phase := Entered(Refresh)));
    OneStep(w.(phase := Entered(Refresh)), ReadEntries, [ReadMarkers], w.(phase := HasEntries(Refresh, map[])));
    assert w.markers[0] in w.markers.Values;
    assert Merged(map[], w.markers) == map[j := LOCK_FAILED];
    assert map[j := LOCK_FAILED].Keys == {j} && w.markers.Keys == {0};
    OneStep(w.(phase := HasEntries(Refresh, map[])), ReadMarkers, [], w.(phase := Checking(map[j := LOCK_FAILED], {j}, {0}, 2)));
  }

  /** The pass finds j clear and writes no entries; only the marker is left to unlink. */
  lemma StepsToUnlinking(w: World, j: Key)
    requires w.entries == map[] && w.phase == Checking(map[j := LOCK_FAILED], {j}, {0}, 2)
    ensures Steps(w, [Check(j, Clear), Write])
            == w.(phase := Unlinking({0}, true), history := w.history + [Cleared(j, 2), Wrote({})])
  {
    var checked := w.(phase := Checking(map[], {}, {0}, 2), history := w.history + [Cleared(j, 2)]);
    assert map[j := LOCK_FAILED] - {j} == map[] && {j} - {j} == {};
    OneStep(w, Check(j, Clear), [Write], checked);
    assert w.history + [Cleared(j, 2)] + [Wrote({})] == w.history + [Cleared(j, 2), Wrote({})];
    assert checked.phase.byKey.Keys == {};
    OneStep(checked, Write, [], w.(phase := Unlinking({0}, true), history := w.history + [Cleared(j, 2), Wrote({})]));
  }

  lemma StepsToFailure(w: World, k: Key)
    requires w.entries == map[] && w.markers.Keys == {0} && w.next == 1 && w.dir && w.temps == {}
    requires 1 !in w.writers && w.phase == Unlinking({0}, true) && Named(k)
    ensures var u := Steps(w, [Unlink(0), MakeDir(1, [k]), RemoveDir, WriteTemp(1)]);
            u.history != [] && u.history[|u.history| - 1] == WriteFailed(k) && !OnDisk(u, k)
  {
    var unlinked := w.(markers := map[], phase := Unlinking({}, true));
    assert w.markers - {0} == map[] && {0} - {0} == {};
    OneStep(w, Unlink(0), [MakeDir(1, [k]), RemoveDir, WriteTemp(1)], unlinked);
    var made := Next(unlinked, MakeDir(1, [k]));
    OneStep(unlinked, MakeDir(1, [k]), [RemoveDir, WriteTemp(1)], made);
    var removed := made.(dir := false, phase := Unlinking({}, false), history := made.history + [RemovedDir]);
    OneStep(made, RemoveDir, [WriteTemp(1)], removed);
    OneStep(removed, WriteTemp(1), [], Next(removed, WriteTemp(1)));
  }

  // ----- Markers that cannot be read ------------------------------------------------------------

  ghost predicate PhaseNamed(phase: Phase) {
    match phase
    case Entered(kind) => KindNamed(kind)
    case HasEntries(kind, entries) => KindNamed(kind) && AllNamed(entries.Keys)
    case Checking(byKey, todo, _, _) => AllNamed(byKey.Keys) && AllNamed(todo)
    case _ => true
  }

  ghost predicate MarkersNamed(markers: map<nat, Key>) { forall p :: p in markers ==> Named(markers[p]) }

  ghost predicate WritersNamed(writers: map<nat, Writer>) { forall x :: x in writers ==> AllNamed(set k | k in writers[x].todo) }

  /** Every key names a branch: the entries' reader, which passes over those that name none, passes over none. */
  ghost predicate NamedInv(w: World) {
    AllNamed(w.entries.Keys) && MarkersNamed(w.markers) && WritersNamed(w.writers) && PhaseNamed(w.phase)
  }

  lemma NextKeepsNamed(w: World, a: Action)
    requires NamedInv(w) && Enabled(w, a)
    ensures NamedInv(Next(w, a))
  {
    hide IsBlank, Named;
  }

  lemma {:induction false} StepsKeepNamed(w: World, actions: seq<Action>)
    requires NamedInv(w)
    ensures NamedInv(Steps(w, actions))
    decreases |actions|
  {
    hide NamedInv;
    if actions != [] {
      if Enabled(w, actions[0]) { NextKeepsNamed(w, actions[0]); }
      StepsKeepNamed(if Enabled(w, actions[0]) then Next(w, actions[0]) else w, actions[1..]);
    }
  }

  lemma NamedAtFirst()
    ensures NamedInv(INITIAL)
  {
  }

  ghost predicate SomeBlankSession(markers: map<nat, Key>) { exists p :: p in markers && IsBlank(markers[p].session) }

  lemma ReadableUnlessBlank(w: World)
    requires NamedInv(w)
    ensures AllReadable(w.markers) <==> !SomeBlankSession(w.markers)
  {
    hide IsBlank;
  }

  /** A pass reads the markers that writers made exactly when none of their session ids is blank; else it ends there, and changes nothing. */
  lemma BlankSessionsFailTheRead(actions: seq<Action>)
    requires Enabled(Steps(INITIAL, actions), ReadMarkers)
    ensures var w := Steps(INITIAL, actions);
            var u := Next(w, ReadMarkers);
            if SomeBlankSession(w.markers) || (w.phase.kind.Refresh? && w.entries == map[] && w.markers == map[])
            then u == w.(phase := Free)
            else u == w.(phase := u.phase) && u.phase.Checking? && u.phase.paths == w.markers.Keys
  {
    hide AllReadable, SomeBlankSession, NamedInv;
    StepsKeep(INITIAL, actions);
    NamedAtFirst();
    StepsKeepNamed(INITIAL, actions);
    ReadableUnlessBlank(Steps(INITIAL, actions));
    NothingMerged(Steps(INITIAL, actions));
  }

  lemma NothingMerged(w: World)
    ensures Merged(w.entries, w.markers) == map[] <==> w.entries == map[] && w.markers == map[]
  {
    assert forall k :: k in w.entries ==> k in Merged(w.entries, w.markers);
    assert forall p :: p in w.markers ==> w.markers[p] in Merged(w.entries, w.markers);
  }

  /** No pass is past its read. */
  predicate NotPastRead(w: World) { !w.phase.Checking? && !w.phase.Unlinking? }

  /** Once such a marker is there and no pass is past its read, it stays, no check is made and no entry changes. */
  lemma {:induction false} ABlankMarkerStays(w: World, actions: seq<Action>, p: nat)
    requires p in w.markers && p < w.next && IsBlank(w.markers[p].session) && NotPastRead(w)
    ensures var u := Steps(w, actions);
            p in u.markers && u.markers[p] == w.markers[p] && u.entries == w.entries && NotPastRead(u)
    decreases |actions|
  {
    if actions != [] {
      if Enabled(w, actions[0]) { OneStepStays(w, actions[0], p); }
      ABlankMarkerStays(if Enabled(w, actions[0]) then Next(w, actions[0]) else w, actions[1..], p);
    }
  }

  lemma OneStepStays(w: World, a: Action, p: nat)
    requires p in w.markers && p < w.next && IsBlank(w.markers[p].session) && NotPastRead(w) && Enabled(w, a)
    ensures var u := Next(w, a);
            p in u.markers && u.markers[p] == w.markers[p] && u.entries == w.entries && NotPastRead(u) && p < u.next
  {
    hide IsBlank, Merged;
  }

  /** A session with a blank id that cannot get the lock: whatever happens afterwards, no pass gets past its read. */
  lemma ABlankSessionBlocks(k: Key, later: seq<Action>)
    requires IsBlank(k.session) && Named(k)
    ensures var w := Steps(INITIAL, [MakeDir(0, [k]), WriteTemp(0), Rename(0)] + later);
            0 in w.markers && w.markers[0] == k && w.entries == map[] && NotPastRead(w)
  {
    var marking := [MakeDir(0, [k]), WriteTemp(0), Rename(0)];
    StepsConcat(INITIAL, marking, later);
    StepsToMarker(k);
    ABlankMarkerStays(Steps(INITIAL, marking), later, 0);
  }
}
