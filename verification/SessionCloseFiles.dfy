/**
  The functions that carry out the session-close protocol on the shared directories.

  Each one is a run of the protocol's steps. Between any two of its own steps the other
  processes take theirs: what they do is an argument, one list of steps for every point.
  */
module SessionCloseFiles {
  import opened Basics
  import opened SessionClose
  import StableIds

  ghost predicate Reaches(w: World, u: World) { exists actions :: Steps(w, actions) == u }

  lemma ReachesItself(w: World)
    ensures Reaches(w, w)
  {
    assert Steps(w, []) == w;
  }

  lemma ReachesMore(w: World, u: World, more: seq<Action>)
    requires Reaches(w, u)
    ensures Reaches(w, Steps(u, more))
  {
    var actions :| Steps(w, actions) == u;
    StepsConcat(w, actions, more);
    assert Steps(w, actions + more) == Steps(u, more);
  }

  lemma ReachesNext(w: World, u: World, a: Action)
    requires Reaches(w, u) && Enabled(u, a)
    ensures Reaches(w, Next(u, a))
  {
    OneStep(u, a, [], Next(u, a));
    assert [a] + [] == [a];
    ReachesMore(w, u, [a]);
  }

  // ----- Naming branches --------------------------------------------------------------

  function Stripped(s: string): string { StableIds.Strip(IsSpace, s) }

  /** The branch a marker is made for: as it was given, or "main". */
  function BranchOf(given: string): (branch: string)
    ensures !IsBlank(branch) && if IsBlank(given) then branch == "main" else StableIds.Trimmed(IsSpace, given, branch)
  {
    StrippedIsBlank(given);
    StableIds.StripDecides(IsSpace, given, Stripped(given));
    MainIsNamed();
    if Stripped(given) == "" then "main" else Stripped(given)
  }

  lemma {:induction false} StrippedIsBlank(s: string)
    ensures IsBlank(Stripped(s)) <==> IsBlank(s)
    ensures IsBlank(s) <==> Stripped(s) == ""
    decreases |s|
  {
    if s != "" {
      if IsSpace(s[0]) {
        StrippedIsBlank(s[1..]);
        assert s == [s[0]] + s[1..];
      } else if IsSpace(s[|s| - 1]) {
        StrippedIsBlank(s[..|s| - 1]);
      }
    }
  }

  function MarkerKeys(session: string, branches: seq<string>): (keys: seq<Key>)
    ensures |keys| == |branches| && forall i :: 0 <= i < |keys| ==> keys[i] == Key(session, BranchOf(branches[i]))
  {
    seq(|branches|, i requires 0 <= i < |branches| => Key(session, BranchOf(branches[i])))
  }

  /** A branch this text names. */
  ghost predicate NamedBy(branch: string, text: string) { StableIds.Trimmed(IsSpace, text, branch) }

  /** A branch named by the hook's own payload or by one of the session's turns. */
  ghost predicate Mentioned(branch: string, explicit: string, found: seq<string>) {
    NamedBy(branch, explicit) || exists i :: 0 <= i < |found| && NamedBy(branch, found[i])
  }

  /** The branches an ending session is about: the one it names, then those of its turns; "main" if there are none. */
  method CloseBranches(explicit: string, found: seq<string>) returns (branches: seq<string>)
    ensures forall i, j :: 0 <= i < j < |branches| ==> branches[i] != branches[j]
    ensures forall b :: b in branches ==> !IsBlank(b)
    ensures (exists b :: Mentioned(b, explicit, found)) ==> forall b :: b in branches <==> Mentioned(b, explicit, found)
    ensures (forall b :: !Mentioned(b, explicit, found)) ==> branches == ["main"]
    ensures branches != [] && forall b :: NamedBy(b, explicit) ==> branches[0] == b
  {
    hide NamedBy, IsBlank, Stripped;
    OnlyStripped(explicit);
    branches := if Stripped(explicit) != "" then [Stripped(explicit)] else [];
    for i := 0 to |found|
      invariant forall j, k :: 0 <= j < k < |branches| ==> branches[j] != branches[k]
      invariant forall b :: b in branches <==> Mentioned(b, explicit, found[..i])
      invariant Stripped(explicit) != "" ==> branches != [] && branches[0] == Stripped(explicit)
    {
      var branch := Stripped(found[i]);
      OnlyStripped(found[i]);
      OneMoreMentioned(explicit, found, i);
      if branch != "" && branch !in branches { branches := branches + [branch]; }
    }
    assert found[..|found|] == found;
    MentionedIsNamed(explicit, found);
    assert forall b :: NamedBy(b, explicit) ==> Mentioned(b, explicit, found);
    assert branches != [] ==> branches[0] in branches;
    if branches == [] {
      MainIsNamed();
      branches := ["main"];
    }
  }

  lemma OnlyStripped(text: string)
    ensures forall b :: NamedBy(b, text) <==> b != "" && b == Stripped(text)
  {
    forall b ensures NamedBy(b, text) <==> b != "" && b == Stripped(text) { StableIds.StripDecides(IsSpace, text, b); }
  }

  lemma MainIsNamed()
    ensures !IsBlank("main")
  {
    assert !IsSpace("main"[0]);
  }

  lemma OneMoreMentioned(explicit: string, found: seq<string>, i: nat)
    requires i < |found|
    ensures forall b :: Mentioned(b, explicit, found[..i + 1]) <==> Mentioned(b, explicit, found[..i]) || NamedBy(b, found[i])
  {
    hide NamedBy, StableIds.Trimmed;
    forall b | NamedBy(b, found[i]) ensures Mentioned(b, explicit, found[..i + 1]) { assert found[..i + 1][i] == found[i]; }
    forall b | Mentioned(b, explicit, found[..i]) ensures Mentioned(b, explicit, found[..i + 1]) {
      if !NamedBy(b, explicit) {
        var j :| 0 <= j < i && NamedBy(b, found[..i][j]);
        assert found[..i + 1][j] == found[j];
      }
    }
  }

  lemma MentionedIsNamed(explicit: string, found: seq<string>)
    ensures forall b :: Mentioned(b, explicit, found) ==> !IsBlank(b)
  {
  }

  /** The entry carries the code of the barrier, "pending" if it has none, or "failed" if its check failed. */
  predicate Says(e: Entry, b: Barrier) {
    match b
    case Clear => false
    case Failed => e.code == "failed"
    case Blocking(code) => e.code == if code == "" then "pending" else code
  }

  // ----- What a pass makes of its table -------------------------------------------------

  /** The table after the keys in `todo` were checked: the clear ones are gone, the others carry their verdict. */
  function Settled(byKey: map<Key, Entry>, todo: set<Key>, barrier: string -> Barrier): map<Key, Entry> {
    map k | k in byKey.Keys + todo && !(k in todo && barrier(k.branch).Clear?)
      :: if k in todo then Verdict(barrier(k.branch)) else byKey[k]
  }

  lemma SettleOne(byKey: map<Key, Entry>, done: set<Key>, k: Key, barrier: string -> Barrier)
    requires k !in done
    ensures Settled(byKey, done + {k}, barrier) ==
              if barrier(k.branch).Clear? then Settled(byKey, done, barrier) - {k}
              else Settled(byKey, done, barrier)[k := Verdict(barrier(k.branch))]
  {
  }

  lemma SettleNone(byKey: map<Key, Entry>, barrier: string -> Barrier)
    ensures Settled(byKey, {}, barrier) == byKey
  {
  }

  // ----- What the others do meanwhile -----------------------------------------------------

  /** Another process's steps: more markers, under unused paths, and nothing of the pass's own. */
  ghost predicate Grown(w: World, u: World) {
    && u.entries == w.entries && u.phase == w.phase && w.next <= u.next
    && (forall p :: p in w.markers ==> p in u.markers && u.markers[p] == w.markers[p])
    && (forall p :: p in u.markers ==> p in w.markers || w.next <= p)
    && |w.history| <= |u.history| && u.history[..|w.history|] == w.history
    && (forall i :: |w.history| <= i < |u.history| ==> MarkedSince(u, u.history[i], w.next))
  }

  /** A marker made by this event is there, under a path not below the bound. */
  ghost predicate MarkedSince(w: World, e: Event, bound: nat) {
    e.Marked? ==> bound <= e.path && e.path in w.markers && w.markers[e.path] == e.key
  }

  lemma GrownByOne(w: World, a: Action)
    requires Inv(w) && Enabled(w, a) && ByWriter(a)
    ensures Grown(w, Next(w, a))
  {
  }

  lemma GrownTransitive(w: World, u: World, v: World)
    requires Grown(w, u) && Grown(u, v)
    ensures Grown(w, v)
  {
    forall i | |w.history| <= i < |v.history| ensures MarkedSince(v, v.history[i], w.next) {
      if i < |u.history| { assert v.history[i] == u.history[i] && MarkedSince(u, u.history[i], w.next); }
    }
  }

  lemma {:induction false} WritersGrow(w: World, actions: seq<Action>)
    requires Inv(w) && forall a :: a in actions ==> ByWriter(a)
    ensures Grown(w, Steps(w, actions))
    decreases |actions|
  {
    if actions != [] {
      var u := if Enabled(w, actions[0]) then Next(w, actions[0]) else w;
      assert actions[0] in actions && forall a :: a in actions[1..] ==> a in actions;
      if Enabled(w, actions[0]) {
        NextKeeps(w, actions[0]);
        GrownByOne(w, actions[0]);
      }
      WritersGrow(u, actions[1..]);
      GrownTransitive(w, u, Steps(w, actions));
    }
  }

  /** Where a pass began, and what it read: the markers, when the history was so long, with so many paths used. */
  datatype Reading = Reading(start: World, read: map<nat, Key>, readAt: nat, bound: nat)

  /** The markers are of two kinds: those the pass read, and those made since, which are all there. */
  ghost predicate Since(w: World, g: Reading) {
    && g.readAt <= |w.history| && g.bound <= w.next
    && (forall p :: p in g.read ==> p < g.bound)
    && (forall p :: p in w.markers ==> p in g.read || g.bound <= p)
    && (forall i :: g.readAt <= i < |w.history| ==> MarkedSince(w, w.history[i], g.bound))
  }

  lemma SinceGrows(w: World, u: World, g: Reading)
    requires Since(w, g) && Grown(w, u)
    ensures Since(u, g)
  {
    forall i | g.readAt <= i < |u.history| ensures MarkedSince(u, u.history[i], g.bound) {
      if i < |w.history| { assert u.history[i] == w.history[i] && MarkedSince(w, w.history[i], g.bound); }
    }
  }

  lemma JustRead(w: World, start: World)
    requires Inv(w)
    ensures forall phase :: Since(w.(phase := phase), Reading(start, w.markers, |w.history|, w.next))
  {
  }

  lemma SinceOwnStep(w: World, a: Action, g: Reading)
    requires Since(w, g) && Enabled(w, a)
    requires a.Check? || a.Write? || a.RemoveDir? || a.Release? || (a.Unlink? && a.path in g.read)
    ensures Since(Next(w, a), g)
  {
    var u := Next(w, a);
    forall i | g.readAt <= i < |u.history| ensures MarkedSince(u, u.history[i], g.bound) {
      if i < |w.history| { assert MarkedSince(w, w.history[i], g.bound); }
    }
  }

  /** This writer's own state and temporary file. */
  predicate OfWriter(a: Action, x: nat) {
    (a.MakeDir? || a.WriteTemp? || a.Rename? || a.WriterDies?) && a.writer == x
  }

  /** What no other process touches of a writer at work. */
  ghost predicate LeftAlone(w: World, u: World, x: nat) {
    && x in w.writers && x in u.writers && u.writers[x] == w.writers[x] && (x in u.temps <==> x in w.temps)
    && |w.history| <= |u.history| && u.history[..|w.history|] == w.history
  }

  lemma {:induction false} OthersLeaveAlone(w: World, actions: seq<Action>, x: nat)
    requires x in w.writers && forall a :: a in actions ==> !OfWriter(a, x)
    ensures LeftAlone(w, Steps(w, actions), x)
    decreases |actions|
  {
    if actions != [] {
      var a := actions[0];
      assert a in actions && forall b :: b in actions[1..] ==> b in actions;
      var u := if Enabled(w, a) then Next(w, a) else w;
      assert LeftAlone(w, u, x);
      OthersLeaveAlone(u, actions[1..], x);
      assert Steps(w, actions).history[..|u.history|][..|w.history|] == Steps(w, actions).history[..|w.history|];
    }
  }

  // ----- The functions -------------------------------------------------------------------------

  /** Where the other processes may come in between a pass's own steps. */
  datatype Point = BeforeLock | BeforeEntries | BeforeMarkers | BeforeCheck(key: Key) | BeforeWrite | BeforeUnlink(path: nat) | BeforeSweep

  /** What the writers without the lock do at each point of a pass. */
  type Schedule = Point -> seq<Action>

  ghost predicate ByWriters(others: Schedule) { forall point, a :: a in others(point) ==> ByWriter(a) }

  class SessionCloseDirectory {
    // The pending entries; the marker directory, its markers and temporary files.
    var entries: map<Key, Entry>
    var markers: map<nat, Key>
    var next: nat
    var dir: bool
    var temps: set<nat>

    // What the writers and the holder of the lock have in memory, and what happened so far.
    var writers: map<nat, Writer>
    var phase: Phase
    var history: seq<Event>

    function Now(): World
      reads this
    {
      World(entries, markers, next, dir, temps, writers, phase, history)
    }

    ghost predicate Valid()
      reads this
    {
      Inv(Now()) && DirInv(Now()) && NamedInv(Now())
    }

    constructor ()
      ensures Valid() && Now() == INITIAL
    {
      entries, markers, next, dir, temps := map[], map[], 0, false, {};
      writers, phase, history := map[], Free, [];
    }

    /** Other processes take their steps. */
    method Interlude(actions: seq<Action>)
      requires Valid()
      modifies this
      ensures Valid() && Now() == Steps(old(Now()), actions)
    {
      for i := 0 to |actions|
        invariant Valid() && Steps(Now(), actions[i..]) == Steps(old(Now()), actions)
      {
        if Enabled(Now(), actions[i]) {
          NextKeeps(Now(), actions[i]);
          NextKeepsDir(Now(), actions[i]);
          NextKeepsNamed(Now(), actions[i]);
          Become(Next(Now(), actions[i]));
        }
        assert actions[i..][1..] == actions[i + 1..];
      }
    }

    method Become(w: World)
      modifies this
      ensures Now() == w
    {
      entries, markers, next, dir, temps := w.entries, w.markers, w.next, w.dir, w.temps;
      writers, phase, history := w.writers, w.phase, w.history;
    }

    // ----- A writer without the lock ---------------------------------------------------------

    /** This writer is between two markers. */
    ghost predicate Working(start: World, x: nat, todo: seq<Key>)
      reads this
    {
      && Valid() && Reaches(start, Now())
      && x in writers && writers[x] == Writer(todo, |start.history| + 1) && x !in temps
    }

    /**
      Makes the directory once, then one marker per key: a temporary file, renamed. Stops at
      the first temporary file that cannot be written.
      */
    method WriteMarkers(x: nat, session: string, branches: seq<string>, others: nat -> seq<Action>) returns (created: seq<nat>)
      requires Valid() && x !in writers && x !in temps
      requires forall i, a :: a in others(i) ==> !OfWriter(a, x)
      modifies this
      ensures Valid() && Reaches(old(Now()), Now()) && |created| <= |branches|
      ensures forall i :: 0 <= i < |created| ==> Marked(Key(session, BranchOf(branches[i])), created[i]) in history
      ensures |created| < |branches| ==>
                && RemovedSince(history, |old(history)| + 1)
                && history[|history| - 1] == WriteFailed(Key(session, BranchOf(branches[|created|])))
    {
      hide Inv, DirInv, NamedInv, RemovedSince, BranchOf;
      ghost var start := Now();
      var keys := MarkerKeys(session, branches);
      MakeDirectory(x, keys);
      created := [];
      assert keys[0..] == keys;
      for i := 0 to |keys|
        invariant Working(start, x, keys[i..])
        invariant |created| == i && forall j :: 0 <= j < i ==> Marked(keys[j], created[j]) in history
      {
        HeadAndTail(keys, i);
        var path := WriteNext(x, keys[i], keys[i + 1..], others(2 * i), others(2 * i + 1), start);
        if path.None? { return; }
        created := created + [path.value];
      }
      Own(start, WriterDies(x));
      writers := writers - {x};
    }

    method MakeDirectory(x: nat, keys: seq<Key>)
      requires Valid() && x !in writers && x !in temps && AllNamed(set k | k in keys)
      modifies this
      ensures Working(old(Now()), x, keys)
    {
      ReachesItself(Now());
      Own(Now(), MakeDir(x, keys));
      dir := true;
      writers := writers[x := Writer(keys, |history| + 1)];
      history := history + [MadeDir];
    }

    method WriteNext(x: nat, key: Key, rest: seq<Key>, first: seq<Action>, second: seq<Action>, ghost start: World) returns (path: Option<nat>)
      requires Working(start, x, [key] + rest)
      requires forall a :: a in first || a in second ==> !OfWriter(a, x)
      modifies this
      ensures Valid() && Reaches(start, Now()) && forall e :: e in old(history) ==> e in history
      ensures path.Some? ==> Working(start, x, rest) && Marked(key, path.value) in history
      ensures path.None? ==> RemovedSince(history, |start.history| + 1) && history != [] && history[|history| - 1] == WriteFailed(key)
    {
      hide Inv, DirInv, NamedInv, RemovedSince;
      Around(first, x, start);
      var written := WriteTemporary(x, key, start);
      if !written { return None; }
      Around(second, x, start);
      var renamed := RenameTemporary(x, key, rest, start);
      path := Some(renamed);
    }

    method RenameTemporary(x: nat, key: Key, rest: seq<Key>, ghost start: World) returns (path: nat)
      requires Valid() && Reaches(start, Now())
      requires x in writers && x in temps && writers[x] == Writer([key] + rest, |start.history| + 1)
      modifies this
      ensures Working(start, x, rest) && Marked(key, path) in history && forall e :: e in old(history) ==> e in history
    {
      Own(start, Rename(x));
      assert ([key] + rest)[1..] == rest;
      path := next;
      temps := temps - {x};
      markers := markers[next := key];
      history := history + [Marked(key, next)];
      next := next + 1;
      writers := writers[x := writers[x].(todo := rest)];
    }

    method WriteTemporary(x: nat, key: Key, ghost start: World) returns (written: bool)
      requires Valid() && Reaches(start, Now())
      requires x in writers && x !in temps && writers[x].todo != [] && writers[x].todo[0] == key && writers[x].madeAt == |start.history| + 1
      modifies this
      ensures Valid() && Reaches(start, Now()) && forall e :: e in old(history) ==> e in history
      ensures written ==> writers == old(writers) && x in temps
      ensures !written ==> RemovedSince(history, |start.history| + 1) && history != [] && history[|history| - 1] == WriteFailed(key)
    {
      Own(start, WriteTemp(x));
      if dir {
        temps := temps + {x};
        return true;
      }
      assert MadeAt(history, |start.history| + 1);
      GoneMeansRemoved(history, |start.history| + 1);
      StillRemoved(history, |start.history| + 1, WriteFailed(key));
      writers := writers - {x};
      history := history + [WriteFailed(key)];
      return false;
    }

    /** Other processes at work around a writer. */
    method Around(actions: seq<Action>, x: nat, ghost start: World)
      requires Valid() && Reaches(start, Now()) && x in writers && forall a :: a in actions ==> !OfWriter(a, x)
      modifies this
      ensures Valid() && Reaches(start, Now()) && LeftAlone(old(Now()), Now(), x)
      ensures forall e :: e in old(history) ==> e in history
    {
      OthersLeaveAlone(Now(), actions, x);
      ReachesMore(start, Now(), actions);
      ghost var before := history;
      Interlude(actions);
      assert history[..|before|] == before;
    }

    /** The process's own next step is a step of the protocol. */
    lemma Own(start: World, a: Action)
      requires Valid() && Reaches(start, Now()) && Enabled(Now(), a)
      ensures Inv(Next(Now(), a)) && DirInv(Next(Now(), a)) && NamedInv(Next(Now(), a)) && Reaches(start, Next(Now(), a))
    {
      NextKeeps(Now(), a);
      NextKeepsDir(Now(), a);
      NextKeepsNamed(Now(), a);
      ReachesNext(start, Now(), a);
    }

    // ----- A pass under the lock ---------------------------------------------------------------

    /** A pass under way that read what g says. */
    ghost predicate Going(g: Reading)
      reads this
    {
      Valid() && Reaches(g.start, Now()) && Since(Now(), g)
    }

    /** Other processes at work around a pass. */
    method Between(actions: seq<Action>, ghost g: Reading)
      requires Going(g) && forall a :: a in actions ==> ByWriter(a)
      modifies this
      ensures Going(g) && entries == old(entries) && phase == old(phase) && Grown(old(Now()), Now())
    {
      WritersGrow(Now(), actions);
      SinceGrows(Now(), Steps(Now(), actions), g);
      ReachesMore(g.start, Now(), actions);
      Interlude(actions);
    }

    lemma Pass(g: Reading, a: Action)
      requires Going(g) && Enabled(Now(), a)
      requires a.Check? || a.Write? || a.RemoveDir? || a.Release? || (a.Unlink? && a.path in g.read)
      ensures Inv(Next(Now(), a)) && DirInv(Next(Now(), a)) && NamedInv(Next(Now(), a))
      ensures Reaches(g.start, Next(Now(), a)) && Since(Next(Now(), a), g)
    {
      Own(g.start, a);
      SinceOwnStep(Now(), a, g);
    }

    /** Takes the lock and reads the state: entries first, then markers. A marker of a blank session cannot be read. */
    method ReadState(kind: Kind, others: Schedule) returns (ok: bool, byKey: map<Key, Entry>, paths: set<nat>, ghost g: Reading)
      requires Valid() && phase.Free? && KindNamed(kind) && ByWriters(others)
      modifies this
      ensures Going(g) && g.start == old(Now()) && entries == old(entries) && markers == g.read
      ensures forall p :: p in old(markers) ==> p in g.read && g.read[p] == old(markers)[p]
      ensures ok <==> !SomeBlankSession(g.read)
      ensures byKey == Merged(entries, g.read) && paths == g.read.Keys
      ensures if !ok || (kind.Refresh? && byKey == map[]) then phase.Free?
              else phase == Checking(byKey, if kind.Refresh? then byKey.Keys else KeysOf(kind.session, kind.branches), paths, g.readAt)
    {
      hide Inv, DirInv, NamedInv, KindNamed, SomeBlankSession, AllReadable;
      ghost var start := Now();
      var found := EnterAndRead(kind, others);
      Before(others(BeforeMarkers), start);
      Own(start, ReadMarkers);
      ReadableUnlessBlank(Now());
      ok, byKey, paths := AllReadable(markers), Merged(found, markers), markers.Keys;
      g := Reading(start, markers, |history|, next);
      JustRead(Now(), start);
      phase :=
        if !ok || (kind.Refresh? && byKey == map[]) then Free
        else Checking(byKey, if kind.Refresh? then byKey.Keys else KeysOf(kind.session, kind.branches), paths, |history|);
    }

    /** The first half of that: the lock and the entries. */
    method EnterAndRead(kind: Kind, others: Schedule) returns (found: map<Key, Entry>)
      requires Valid() && phase.Free? && KindNamed(kind) && ByWriters(others)
      modifies this
      ensures Valid() && Reaches(old(Now()), Now()) && entries == old(entries) && found == entries && phase == HasEntries(kind, found)
      ensures forall p :: p in old(markers) ==> p in markers && markers[p] == old(markers)[p]
    {
      hide Inv, DirInv, NamedInv, KindNamed;
      ghost var start := Now();
      ReachesItself(start);
      Before(others(BeforeLock), start);
      Own(start, Acquire(kind));
      phase := Entered(kind);
      Before(others(BeforeEntries), start);
      Own(start, ReadEntries);
      found := entries;
      phase := HasEntries(kind, found);
    }

    /** Other processes at work before the pass has read. */
    method Before(actions: seq<Action>, ghost start: World)
      requires Valid() && Reaches(start, Now()) && forall a :: a in actions ==> ByWriter(a)
      modifies this
      ensures Valid() && Reaches(start, Now()) && entries == old(entries) && phase == old(phase)
      ensures forall p :: p in old(markers) ==> p in markers && markers[p] == old(markers)[p]
    {
      WritersGrow(Now(), actions);
      ReachesMore(start, Now(), actions);
      Interlude(actions);
    }

    method Recheck(todo: set<Key>, byKey: map<Key, Entry>, barrier: string -> Barrier, others: Schedule, ghost g: Reading)
      returns (settled: map<Key, Entry>)
      requires Going(g) && ByWriters(others) && phase.Checking? && phase.byKey == byKey && phase.todo == todo
      modifies this
      ensures Going(g) && settled == Settled(byKey, todo, barrier) && entries == old(entries)
      ensures phase == old(phase).(byKey := settled, todo := {})
    {
      settled := byKey;
      SettleNone(byKey, barrier);
      var left := todo;
      while left != {}
        invariant left <= todo && Going(g) && entries == old(entries)
        invariant settled == Settled(byKey, todo - left, barrier)
        invariant phase == old(phase).(byKey := settled, todo := left)
      {
        var k :| k in left;
        SettleOne(byKey, todo - left, k, barrier);
        assert todo - (left - {k}) == (todo - left) + {k};
        settled := CheckOne(k, left, settled, barrier, others(BeforeCheck(k)), g);
        left := left - {k};
      }
      assert todo - {} == todo;
    }

    method CheckOne(k: Key, left: set<Key>, byKey: map<Key, Entry>, barrier: string -> Barrier, others: seq<Action>, ghost g: Reading)
      returns (settled: map<Key, Entry>)
      requires Going(g) && phase.Checking? && phase.byKey == byKey && phase.todo == left && k in left
      requires forall a :: a in others ==> ByWriter(a)
      modifies this
      ensures Going(g) && entries == old(entries) && phase == old(phase).(byKey := settled, todo := left - {k})
      ensures settled == if barrier(k.branch).Clear? then byKey - {k} else byKey[k := Verdict(barrier(k.branch))]
    {
      Between(others, g);
      var outcome := barrier(k.branch);
      Pass(g, Check(k, outcome));
      settled := if outcome.Clear? then byKey - {k} else byKey[k := Verdict(outcome)];
      if outcome.Clear? { history := history + [Cleared(k, phase.readAt)]; }
      phase := phase.(byKey := settled, todo := left - {k});
    }

    /** Replaces the entries, then consumes the markers that were read. */
    method Commit(retained: map<Key, Entry>, others: Schedule, ghost g: Reading)
      requires Going(g) && ByWriters(others)
      requires phase.Checking? && phase.byKey == retained && phase.todo == {} && phase.paths == g.read.Keys
      modifies this
      ensures Going(g) && phase.Free? && entries == retained && forall p :: p in markers ==> p !in g.read
    {
      hide Inv, DirInv, NamedInv, Since;
      var paths := phase.paths;
      Between(others(BeforeWrite), g);
      Pass(g, Write);
      entries := retained;
      phase := Unlinking(paths, paths != {});
      history := history + [Wrote(retained.Keys)];
      ConsumeMarkers(paths, others, g);
      Pass(g, Release);
      phase := Free;
    }

    /** Unlinks the markers a pass read, passing over those already gone, and removes their directory if it is empty then. */
    method ConsumeMarkers(paths: set<nat>, others: Schedule, ghost g: Reading)
      requires Going(g) && ByWriters(others) && phase == Unlinking(paths, paths != {}) && paths == g.read.Keys
      modifies this
      ensures Going(g) && phase == Unlinking({}, false) && entries == old(entries)
      ensures forall p :: p in markers ==> p !in paths
    {
      var left := paths;
      while left != {}
        invariant Going(g) && phase == Unlinking(left, paths != {}) && left <= paths && entries == old(entries)
        invariant forall p :: p in markers && p in paths ==> p in left
      {
        var p :| p in left;
        Between(others(BeforeUnlink(p)), g);
        Pass(g, Unlink(p));
        left := left - {p};
        markers := markers - {p};
        phase := Unlinking(left, paths != {});
      }
      if paths != {} { Sweep(others, g); }
    }

    method Sweep(others: Schedule, ghost g: Reading)
      requires Going(g) && ByWriters(others) && phase == Unlinking({}, true) && forall p :: p in markers ==> p !in g.read
      modifies this
      ensures Going(g) && phase == Unlinking({}, false) && entries == old(entries) && forall p :: p in markers ==> p !in g.read
    {
      Between(others(BeforeSweep), g);
      Pass(g, RemoveDir);
      if markers == map[] && temps == {} {
        dir := false;
        history := history + [RemovedDir];
      }
      phase := Unlinking({}, false);
    }

    /** What a finished pass leaves of the markers: none it read, and every one made since it read. */
    ghost predicate OnlyLateMarkers(g: Reading)
      reads this
    {
      && (forall p :: p in markers ==> p !in g.read)
      && (forall i :: g.readAt <= i < |history| && history[i].Marked? ==>
            history[i].path in markers && markers[history[i].path] == history[i].key)
    }

    /** A pass that could not read the markers: all of them are still there, and the entries as they were. */
    ghost predicate Refused(g: Reading, before: map<Key, Entry>)
      reads this
    {
      SomeBlankSession(g.read) && markers == g.read && entries == before
    }

    /** Rechecks every pending key: what stays pending is exactly what was, by entry or by marker, and is not clear. */
    method RefreshEntries(barrier: string -> Barrier, others: Schedule) returns (ok: bool, ghost g: Reading)
      requires Valid() && phase.Free? && ByWriters(others)
      modifies this
      ensures Valid() && phase.Free? && Reaches(old(Now()), Now())
      ensures forall p :: p in old(markers) ==> p in g.read && g.read[p] == old(markers)[p]
      ensures ok <==> !SomeBlankSession(g.read)
      ensures !ok ==> Refused(g, old(entries))
      ensures ok ==> forall k: Key :: k in entries <==> (k in old(entries) || k in g.read.Values) && !barrier(k.branch).Clear?
      ensures ok ==> forall k: Key :: k in entries ==> Says(entries[k], barrier(k.branch))
      ensures ok ==> OnlyLateMarkers(g)
    {
      hide SomeBlankSession;
      var byKey, paths;
      ok, byKey, paths, g := ReadState(Refresh, others);
      if !ok { return; }
      if byKey == map[] {
        NothingMerged(Now());
        LateOnly(g);
        return;
      }
      var retained := Recheck(byKey.Keys, byKey, barrier, others, g);
      Commit(retained, others, g);
      LateOnly(g);
    }

    /** Checks the branches of the ending session; every other key stays as it was, by entry or by marker. */
    method EndSession(session: string, explicit: string, found: seq<string>, barrier: string -> Barrier, others: Schedule)
      returns (ok: bool, branches: seq<string>, ghost g: Reading)
      requires Valid() && phase.Free? && ByWriters(others)
      modifies this
      ensures Valid() && phase.Free? && Reaches(old(Now()), Now())
      ensures (exists b :: Mentioned(b, explicit, found)) ==> forall b :: b in branches <==> Mentioned(b, explicit, found)
      ensures (forall b :: !Mentioned(b, explicit, found)) ==> branches == ["main"]
      ensures forall p :: p in old(markers) ==> p in g.read && g.read[p] == old(markers)[p]
      ensures ok <==> !SomeBlankSession(g.read)
      ensures !ok ==> Refused(g, old(entries))
      ensures ok ==> forall k: Key :: k.session == session && k.branch in branches ==>
                (k in entries <==> !barrier(k.branch).Clear?) && (k in entries ==> Says(entries[k], barrier(k.branch)))
      ensures ok ==> forall k: Key :: !(k.session == session && k.branch in branches) ==>
                && (k in entries <==> k in old(entries) || k in g.read.Values)
                && (k in entries ==> entries[k] == if k in g.read.Values then Entry("session_close_lock_failed") else old(entries)[k])
      ensures ok ==> OnlyLateMarkers(g)
    {
      hide SomeBlankSession, Mentioned, IsBlank;
      branches := CloseBranches(explicit, found);
      InKeysOf(session, branches);
      var byKey, paths;
      ok, byKey, paths, g := ReadState(SessionEnd(session, branches), others);
      if !ok { return; }
      var settled := Recheck(KeysOf(session, branches), byKey, barrier, others, g);
      Commit(settled, others, g);
      LateOnly(g);
    }

    lemma LateOnly(g: Reading)
      requires Going(g) && forall p :: p in markers ==> p !in g.read
      ensures OnlyLateMarkers(g)
    {
      assert forall i :: g.readAt <= i < |history| ==> MarkedSince(Now(), history[i], g.bound);
    }
  }

  lemma InKeysOf(session: string, branches: seq<string>)
    ensures forall k: Key :: k in KeysOf(session, branches) <==> k.session == session && k.branch in branches
  {
    forall k: Key | k.session == session && k.branch in branches ensures k in KeysOf(session, branches) {
      assert Key(session, k.branch) == k;
    }
  }

  lemma HeadAndTail(keys: seq<Key>, i: nat)
    requires i < |keys|
    ensures keys[i..] == [keys[i]] + keys[i + 1..]
  {
  }

  lemma StillRemoved(history: seq<Event>, n: nat, e: Event)
    requires RemovedSince(history, n) && !e.MadeDir?
    ensures RemovedSince(history + [e], n)
  {
    var j :| n <= j < |history| && history[j].RemovedDir? && forall k :: j < k < |history| ==> !history[k].MadeDir?;
    assert (history + [e])[j].RemovedDir?;
  }
}
