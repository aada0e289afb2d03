// The sequential directory walk: a depth-first search with a set of visited directories.
module Walk {
  import opened Entries
  import opened FileTree

  /** The walk's state; visits lists the directories opened for reading, in order. */
  datatype Snap = Snap(visited: set<NodeId>, found: seq<Identity>, errors: nat, root: Root, stopped: bool, visits: seq<Visit>)

  ghost function NewVisits(s: Snap, s': Snap): seq<Visit> {
    if |s.visits| <= |s'.visits| then s'.visits[|s.visits|..] else []
  }

  ghost predicate Among(visits: seq<Visit>, d: NodeId) {
    exists i :: 0 <= i < |visits| && visits[i].id == d
  }

  ghost predicate DistinctVisits(visits: seq<Visit>) {
    forall i, j | 0 <= i < j < |visits| :: visits[i].id != visits[j].id
  }

  /** The state only grows; every new visit is of a readable directory not visited before, and a newly visited directory
      is read unless it is on a pseudo file system or cannot be opened. */
  ghost predicate Grew(fs: FileSystem, s: Snap, s': Snap) {
    && s.visited <= s'.visited && s.visits <= s'.visits && s.errors <= s'.errors && s'.root == s.root
    && (s.stopped ==> s'.stopped)
    && (forall i | |s.visits| <= i < |s'.visits| ::
          s'.visits[i].id in s'.visited && s'.visits[i].id !in s.visited && Readable(fs, s'.visits[i].id))
    && DistinctVisits(NewVisits(s, s'))
    && (forall c <- s'.visited :: c in s.visited || !Readable(fs, c) || Among(NewVisits(s, s'), c))
  }

  /** Without stop, whatever an entry of the newly read directories leads to, under a path that is not too long, has been
      visited, however many errors were recorded on the way. */
  ghost predicate Complete(fs: FileSystem, cfg: Config, s: Snap, s': Snap) {
    !s'.stopped ==>
      forall i, w | |s.visits| <= i < |s'.visits| && Step(fs, cfg, s'.root, s'.visits[i], w) :: w.id in s'.visited
  }

  /** Without stop, the files found are those given plus those of the newly read directories. */
  ghost predicate Accounted(fs: FileSystem, cfg: Config, s: Snap, s': Snap, extra: multiset<Identity>) {
    !s'.stopped ==> multiset(s'.found) == multiset(s.found) + extra + FilesUnder(fs, cfg, NewVisits(s, s'))
  }

  /** Without stop, every error is counted: those given, those of the newly read directories, and one for each newly visited
      directory that cannot be opened. */
  ghost predicate Counted(fs: FileSystem, cfg: Config, s: Snap, s': Snap, faults: nat) {
    !s'.stopped ==>
      s'.errors == s.errors + faults + FaultsUnder(fs, cfg, NewVisits(s, s')) + |Unopened(fs, s'.visited - s.visited)|
  }

  lemma NewVisitsJoin(s: Snap, s1: Snap, s2: Snap)
    requires s.visits <= s1.visits <= s2.visits
    ensures NewVisits(s, s2) == NewVisits(s, s1) + NewVisits(s1, s2)
  {
  }

  lemma GrewTrans(fs: FileSystem, s: Snap, s1: Snap, s2: Snap)
    requires Grew(fs, s, s1) && Grew(fs, s1, s2)
    ensures Grew(fs, s, s2)
  {
    NewVisitsJoin(s, s1, s2);
    var a, b, all := NewVisits(s, s1), NewVisits(s1, s2), NewVisits(s, s2);
    forall i | |s.visits| <= i < |s2.visits|
      ensures s2.visits[i].id in s2.visited && s2.visits[i].id !in s.visited && Readable(fs, s2.visits[i].id)
      ensures i < |s1.visits| ==> s2.visits[i] == s1.visits[i]
    {
    }
    forall i, j | 0 <= i < j < |all|
      ensures all[i].id != all[j].id
    {
      if j < |a| {
        assert a[i].id != a[j].id;
      } else if i >= |a| {
        assert b[i - |a|].id != b[j - |a|].id;
      } else {
        assert all[i] == s1.visits[|s.visits| + i] && all[j] == s2.visits[|s.visits| + j];
      }
    }
    forall c | c in s2.visited && c !in s.visited && Readable(fs, c)
      ensures Among(all, c)
    {
      if c in s1.visited {
        assert Among(a, c);
        var i :| 0 <= i < |a| && a[i].id == c;
        assert all[i].id == c;
      } else {
        assert Among(b, c);
        var i :| 0 <= i < |b| && b[i].id == c;
        assert all[|a| + i].id == c;
      }
    }
  }

  lemma CompleteTrans(fs: FileSystem, cfg: Config, s: Snap, s1: Snap, s2: Snap)
    requires Grew(fs, s, s1) && Grew(fs, s1, s2)
    requires Complete(fs, cfg, s, s1) && Complete(fs, cfg, s1, s2)
    ensures Complete(fs, cfg, s, s2)
  {
    if !s2.stopped {
      forall i, w | |s.visits| <= i < |s2.visits| && Step(fs, cfg, s2.root, s2.visits[i], w)
        ensures w.id in s2.visited
      {
        if i < |s1.visits| {
          assert s2.visits[i] == s1.visits[i];
        }
      }
    }
  }

  lemma AccountedTrans(fs: FileSystem, cfg: Config, s: Snap, s1: Snap, s2: Snap, a: multiset<Identity>, b: multiset<Identity>)
    requires Grew(fs, s, s1) && Grew(fs, s1, s2)
    requires Accounted(fs, cfg, s, s1, a) && Accounted(fs, cfg, s1, s2, b)
    ensures Accounted(fs, cfg, s, s2, a + b)
  {
    NewVisitsJoin(s, s1, s2);
    FilesUnderConcat(fs, cfg, NewVisits(s, s1), NewVisits(s1, s2));
  }

  lemma CountedTrans(fs: FileSystem, cfg: Config, s: Snap, s1: Snap, s2: Snap, a: nat, b: nat)
    requires Grew(fs, s, s1) && Grew(fs, s1, s2)
    requires Counted(fs, cfg, s, s1, a) && Counted(fs, cfg, s1, s2, b)
    ensures Counted(fs, cfg, s, s2, a + b)
  {
    NewVisitsJoin(s, s1, s2);
    FaultsUnderConcat(fs, cfg, NewVisits(s, s1), NewVisits(s1, s2));
    assert Unopened(fs, s2.visited - s.visited) == Unopened(fs, s1.visited - s.visited) + Unopened(fs, s2.visited - s1.visited);
  }

  /** A stretch of the walk that contributed the files and errors in extra besides those of the directories it read. */
  ghost predicate Stretch(fs: FileSystem, cfg: Config, s: Snap, s': Snap, extra: Yield) {
    && Grew(fs, s, s') && Complete(fs, cfg, s, s')
    && Accounted(fs, cfg, s, s', extra.files) && Counted(fs, cfg, s, s', extra.faults)
  }

  lemma StretchTrans(fs: FileSystem, cfg: Config, s: Snap, s1: Snap, s2: Snap, a: Yield, b: Yield)
    requires Stretch(fs, cfg, s, s1, a) && Stretch(fs, cfg, s1, s2, b)
    ensures Stretch(fs, cfg, s, s2, Plus(a, b))
  {
    GrewTrans(fs, s, s1, s2);
    CompleteTrans(fs, cfg, s, s1, s2);
    AccountedTrans(fs, cfg, s, s1, s2, a.files, b.files);
    CountedTrans(fs, cfg, s, s1, s2, a.faults, b.faults);
  }

  /** Steps that read no directory. */
  lemma StretchStill(fs: FileSystem, cfg: Config, s: Snap, s': Snap, extra: Yield)
    requires s'.visits == s.visits && s'.visited == s.visited && s'.root == s.root
    requires s.errors <= s'.errors && (s.stopped ==> s'.stopped)
    requires !s'.stopped ==> multiset(s'.found) == multiset(s.found) + extra.files && s'.errors == s.errors + extra.faults
    ensures Stretch(fs, cfg, s, s', extra)
  {
    assert NewVisits(s, s') == [];
    assert Unopened(fs, s'.visited - s.visited) == {};
  }

  /** A directory on a pseudo file system, or one that cannot be opened, is marked but not read. */
  lemma StretchMarked(fs: FileSystem, cfg: Config, s: Snap, s': Snap, c: NodeId)
    requires s' == s.(visited := s.visited + {c}, errors := s.errors + if c in fs.pseudo then 0 else 1)
    requires !Readable(fs, c) && c !in s.visited
    ensures Stretch(fs, cfg, s, s', NOTHING)
  {
    assert NewVisits(s, s') == [];
    assert Unopened(fs, s'.visited - s.visited) == if c in fs.pseudo then {} else {c};
  }

  /** Logging a directory just marked, before any of its entries is handled. */
  lemma LoggedGrew(fs: FileSystem, s: Snap, d: NodeId, path: Path)
    requires Readable(fs, d) && d !in s.visited
    ensures Grew(fs, s, s.(visited := s.visited + {d}, visits := s.visits + [Visit(d, path)]))
  {
    var logged := s.(visited := s.visited + {d}, visits := s.visits + [Visit(d, path)]);
    assert NewVisits(s, logged) == [Visit(d, path)];
    assert NewVisits(s, logged)[0].id == d;
  }

  lemma LoggedAccounted(fs: FileSystem, cfg: Config, s: Snap, logged: Snap, s': Snap, v: Visit)
    requires v.id in fs.dirs && logged.visits == s.visits + [v] && logged.found == s.found && logged.visits <= s'.visits
    requires Accounted(fs, cfg, logged, s', multiset(FilesOf(cfg, v.path, fs.dirs[v.id].entries)))
    ensures Accounted(fs, cfg, s, s', multiset{})
  {
    NewVisitsJoin(s, logged, s');
    assert NewVisits(s, logged) == [v];
    FilesUnderConcat(fs, cfg, [v], NewVisits(logged, s'));
    assert [v][..0] == [];
  }

  lemma LoggedCounted(fs: FileSystem, cfg: Config, s: Snap, logged: Snap, s': Snap, v: Visit)
    requires Readable(fs, v.id) && v.id !in s.visited && logged.visits <= s'.visits
    requires logged == s.(visited := s.visited + {v.id}, visits := s.visits + [v])
    requires Counted(fs, cfg, logged, s', VisitFaults(fs, cfg, v))
    ensures Counted(fs, cfg, s, s', 0)
  {
    NewVisitsJoin(s, logged, s');
    assert NewVisits(s, logged) == [v];
    FaultsUnderConcat(fs, cfg, [v], NewVisits(logged, s'));
    assert [v][..0] == [];
    assert Unopened(fs, s'.visited - s.visited) == Unopened(fs, s'.visited - logged.visited);
  }

  /** What reading the whole directory yields. */
  function ListingYield(fs: FileSystem, cfg: Config, v: Visit): Yield
    requires v.id in fs.dirs
  {
    Plus(EntriesYield(cfg, v.path, fs.dirs[v.id].entries), Yield(multiset{}, EndFault(fs.dirs[v.id])))
  }

  /** From the moment a directory is logged to the end of its listing, and back to before it was marked. */
  lemma StretchDirectory(fs: FileSystem, cfg: Config, s: Snap, logged: Snap, s': Snap, d: NodeId, path: Path)
    requires Readable(fs, d) && d !in s.visited
    requires logged == s.(visited := s.visited + {d}, visits := s.visits + [Visit(d, path)])
    requires Stretch(fs, cfg, logged, s', ListingYield(fs, cfg, Visit(d, path)))
    requires !s'.stopped ==> forall w | Step(fs, cfg, s'.root, Visit(d, path), w) :: w.id in s'.visited
    ensures Stretch(fs, cfg, s, s', NOTHING)
  {
    LoggedGrew(fs, s, d, path);
    GrewTrans(fs, s, logged, s');
    LoggedAccounted(fs, cfg, s, logged, s', Visit(d, path));
    LoggedCounted(fs, cfg, s, logged, s', Visit(d, path));
    if !s'.stopped {
      forall i, w | |s.visits| <= i < |s'.visits| && Step(fs, cfg, s'.root, s'.visits[i], w)
        ensures w.id in s'.visited
      {
        assert i == |s.visits| ==> s'.visits[i] == logged.visits[i] == Visit(d, path);
      }
    }
  }

  /** Every visited directory can be reached from the starts along edges, and was read under a path that names it. */
  ghost predicate Sound(fs: FileSystem, cfg: Config, starts: set<Visit>, s: Snap) {
    && (forall d <- s.visited :: Reachable(fs, cfg, s.root, starts, d))
    && (forall i | 0 <= i < |s.visits| :: Spelled(fs, cfg, s.root, starts, s.visits[i]))
  }

  /** The walk has met something to report: an entry or listing that fails, or a directory that cannot be opened. */
  ghost predicate Faulty(fs: FileSystem, cfg: Config, s: Snap) {
    || (exists i :: 0 <= i < |s.visits| && DirectoryFault(fs, cfg, s.visits[i]))
    || (exists c :: c in s.visited && c !in fs.pseudo && c !in fs.dirs)
  }

  /** No error is recorded and no stop is seen without a cause. signal says which polls find the stop signal set. */
  ghost predicate Blameless(fs: FileSystem, cfg: Config, signal: nat -> bool, s: Snap, s': Snap) {
    && s.visits <= s'.visits && s.visited <= s'.visited && s.errors <= s'.errors
    && (s'.errors > s.errors ==> Faulty(fs, cfg, s'))
    && (s'.stopped ==> s.stopped || exists k: nat :: signal(k))
  }

  lemma FaultyGrows(fs: FileSystem, cfg: Config, s: Snap, s': Snap)
    requires s.visits <= s'.visits && s.visited <= s'.visited && Faulty(fs, cfg, s)
    ensures Faulty(fs, cfg, s')
  {
    if i :| 0 <= i < |s.visits| && DirectoryFault(fs, cfg, s.visits[i]) {
      assert s'.visits[i] == s.visits[i];
    }
  }

  lemma BlamelessTrans(fs: FileSystem, cfg: Config, signal: nat -> bool, s: Snap, s1: Snap, s2: Snap)
    requires Blameless(fs, cfg, signal, s, s1) && Blameless(fs, cfg, signal, s1, s2)
    ensures Blameless(fs, cfg, signal, s, s2)
  {
    if s1.errors > s.errors {
      FaultyGrows(fs, cfg, s1, s2);
    }
  }

  lemma SoundLogged(fs: FileSystem, cfg: Config, starts: set<Visit>, s: Snap, v: Visit)
    requires Sound(fs, cfg, starts, s) && Spelled(fs, cfg, s.root, starts, v)
    ensures Sound(fs, cfg, starts, s.(visits := s.visits + [v]))
  {
  }

  lemma LeadsAlong(fs: FileSystem, cfg: Config, root: Root, v: Visit, i: nat)
    requires Readable(fs, v.id) && i < |fs.dirs[v.id].entries| && Fits(cfg, v.path, fs.dirs[v.id].entries[i].name)
    ensures var e := fs.dirs[v.id].entries[i];
            forall c | LeadsTo(cfg, root, e, c) :: Step(fs, cfg, root, v, Visit(c, Join(v.path, e.name)))
  {
    var e := fs.dirs[v.id].entries[i];
    forall c | LeadsTo(cfg, root, e, c)
      ensures Step(fs, cfg, root, v, Visit(c, Join(v.path, e.name)))
    {
      assert StepBy(cfg, root, v, e, Visit(c, Join(v.path, e.name)));
    }
  }

  /** An input path with its two views. */
  datatype Input = Input(path: Path, own: Stat, target: Stat)

  function LookInput(cfg: Config, input: Input): Stat {
    if cfg.followSymlinks then input.target else input.own
  }

  function TrimSlashes(path: Path): Path {
    if |path| > 1 && path[|path| - 1] == SLASH then TrimSlashes(path[..|path| - 1]) else path
  }

  class Walker {
    const fs: FileSystem
    const cfg: Config
    const signal: nat -> bool
    var visited: set<NodeId>
    var found: seq<Identity>
    var errors: nat
    var root: Root
    var polls: nat
    var stopped: bool
    ghost var visits: seq<Visit>
    ghost var starts: set<Visit>

    ghost function Now(): Snap
      reads this
    {
      Snap(visited, found, errors, root, stopped, visits)
    }

    /** signal says which polls find the stop signal set. */
    constructor (fs: FileSystem, cfg: Config, signal: nat -> bool)
      ensures this.fs == fs && this.cfg == cfg && this.signal == signal
      ensures Now() == Snap({}, [], 0, Unknown, false, []) && starts == {}
    {
      this.fs, this.cfg, this.signal := fs, cfg, signal;
      visited, found, errors, root, polls := {}, [], 0, Unknown, 0;
      stopped, visits, starts := false, [], {};
    }

    method ShouldStop() returns (stop: bool)
      modifies this`polls, this`stopped
      ensures Now() == old(Now()).(stopped := old(stopped) || stop) && polls == old(polls) + 1
      ensures stop <==> signal(old(polls))
    {
      stop := signal(polls);
      polls := polls + 1;
      stopped := stopped || stop;
    }

    method AppendEntry(path: Path, size: nat, id: NodeId)
      modifies this`found
      ensures found == old(found) + if size < cfg.minimumSize then [] else [Identity(path, size, id.device, id.inode)]
    {
      if size < cfg.minimumSize {
        return;
      }
      found := found + [Identity(path, size, id.device, id.inode)];
    }

    method ReportError()
      modifies this`errors
      ensures errors == old(errors) + 1
    {
      errors := errors + 1;
    }

    /** Enters the directory an entry names, unless it is off the device, visited already or pseudo. */
    method DescendChild(e: Dirent, path: Path, ghost parent: Visit)
      requires Sound(fs, cfg, starts, Now())
      requires LeadsToAnywhere(cfg, e)
      requires Reachable(fs, cfg, root, starts, parent.id) && Spelled(fs, cfg, root, starts, parent)
      requires forall c | LeadsTo(cfg, root, e, c) :: Step(fs, cfg, root, parent, Visit(c, path))
      modifies this`visited, this`found, this`errors, this`polls, this`stopped, this`visits
      ensures Stretch(fs, cfg, old(Now()), Now(), NOTHING) && Sound(fs, cfg, starts, Now())
      ensures Blameless(fs, cfg, signal, old(Now()), Now())
      ensures forall c | LeadsTo(cfg, root, e, c) :: c in visited
      decreases fs.dirs.Keys - visited, 1, 0
    {
      ghost var s := Now();
      var stat := Look(cfg, e);
      var c := stat.id;
      if OffDevice(cfg, root, c) {
        StretchStill(fs, cfg, s, Now(), NOTHING);
        return;
      }
      assert LeadsTo(cfg, root, e, c);
      if c in visited {
        StretchStill(fs, cfg, s, Now(), NOTHING);
        return;
      }
      visited := visited + {c};
      assert Step(fs, cfg, root, parent, Visit(c, path));
      ReachableStep(fs, cfg, root, starts, parent.id, c);
      if c in fs.pseudo {
        StretchMarked(fs, cfg, s, Now(), c);
        return;
      }
      if c !in fs.dirs {
        ReportError();
        StretchMarked(fs, cfg, s, Now(), c);
        return;
      }
      SpelledStep(fs, cfg, root, starts, parent, Visit(c, path));
      WalkDirectory(c, path, s);
    }

    /** Everything about an entry short of entering a directory: skips it, reports it, or records a file. */
    method NoteEntry(e: Dirent, path: Path) returns (descend: bool)
      requires !IsDot(e.name)
      modifies this`found, this`errors
      ensures found == old(found) + FileOf(cfg, path, e)
      ensures errors == old(errors) + if EntryFault(cfg, path, e) then 1 else 0
      ensures descend ==> LeadsToAnywhere(cfg, e) && Fits(cfg, path, e.name)
      ensures descend ==> errors == old(errors) && found == old(found) && FileOf(cfg, path, e) == []
      ensures !descend && Fits(cfg, path, e.name) ==> !LeadsToAnywhere(cfg, e)
    {
      if !cfg.includeHidden && e.name != [] && e.name[0] == DOT {
        return false;
      }
      if !Fits(cfg, path, e.name) {
        ReportError();
        return false;
      }
      var stat := Look(cfg, e);
      if stat.Missing? {
        ReportError();
        return false;
      }
      if stat.kind.Regular? {
        if cfg.acceptsFile(e.name) {
          AppendEntry(Join(path, e.name), stat.kind.size, stat.id);
        }
        return false;
      }
      return stat.kind.Directory? && cfg.acceptsDirectory(e.name);
    }

    /** Handles one entry of a directory that is being read. */
    method HandleEntry(d: NodeId, i: nat, path: Path)
      requires Readable(fs, d) && i < |fs.dirs[d].entries| && !IsDot(fs.dirs[d].entries[i].name)
      requires Sound(fs, cfg, starts, Now()) && Visit(d, path) in visits
      requires Reachable(fs, cfg, root, starts, d) && Spelled(fs, cfg, root, starts, Visit(d, path))
      modifies this`visited, this`found, this`errors, this`polls, this`stopped, this`visits
      ensures Stretch(fs, cfg, old(Now()), Now(), EntryYield(cfg, path, fs.dirs[d].entries[i]))
      ensures Sound(fs, cfg, starts, Now()) && Blameless(fs, cfg, signal, old(Now()), Now())
      ensures Followed(cfg, root, fs.dirs[d].entries[i], path, visited)
      decreases fs.dirs.Keys - visited, 2, 0
    {
      ghost var s := Now();
      var e := fs.dirs[d].entries[i];
      var descend := NoteEntry(e, path);
      if descend {
        LeadsAlong(fs, cfg, root, Visit(d, path), i);
        assert Now() == s;
        DescendChild(e, Join(path, e.name), Visit(d, path));
      } else {
        StretchStill(fs, cfg, s, Now(), EntryYield(cfg, path, e));
        BlamelessEntry(fs, cfg, signal, s, Now(), Visit(d, path), i);
      }
    }

    /** Polls the stop signal, then handles one entry unless it is the directory itself or its parent. */
    method StepEntry(d: NodeId, i: nat, path: Path) returns (stop: bool)
      requires Readable(fs, d) && i < |fs.dirs[d].entries|
      requires Sound(fs, cfg, starts, Now()) && Visit(d, path) in visits
      requires Reachable(fs, cfg, root, starts, d) && Spelled(fs, cfg, root, starts, Visit(d, path))
      modifies this`visited, this`found, this`errors, this`polls, this`stopped, this`visits
      ensures Stretch(fs, cfg, old(Now()), Now(), EntryYield(cfg, path, fs.dirs[d].entries[i]))
      ensures Sound(fs, cfg, starts, Now()) && (stop ==> stopped)
      ensures Blameless(fs, cfg, signal, old(Now()), Now())
      ensures !stop ==> Followed(cfg, root, fs.dirs[d].entries[i], path, visited)
      decreases fs.dirs.Keys - visited, 3, 0
    {
      ghost var s := Now();
      stop := ShouldStop();
      ghost var polled, e := Now(), fs.dirs[d].entries[i];
      if stop {
        StretchStill(fs, cfg, s, polled, EntryYield(cfg, path, e));
        return;
      }
      if IsDot(fs.dirs[d].entries[i].name) {
        StretchStill(fs, cfg, s, polled, EntryYield(cfg, path, e));
        return;
      }
      StretchStill(fs, cfg, s, polled, NOTHING);
      HandleEntry(d, i, path);
      BlamelessTrans(fs, cfg, signal, s, polled, Now());
      StretchTrans(fs, cfg, s, polled, Now(), NOTHING, EntryYield(cfg, path, e));
    }

    /** Reads a directory just marked as visited; before is the state without the mark. */
    method WalkDirectory(d: NodeId, path: Path, ghost before: Snap)
      requires Readable(fs, d) && d !in before.visited && Now() == before.(visited := before.visited + {d})
      requires Sound(fs, cfg, starts, Now()) && Spelled(fs, cfg, root, starts, Visit(d, path))
      modifies this`visited, this`found, this`errors, this`polls, this`stopped, this`visits
      ensures Stretch(fs, cfg, before, Now(), NOTHING) && Sound(fs, cfg, starts, Now())
      ensures d in visited && Blameless(fs, cfg, signal, before, Now())
      decreases fs.dirs.Keys - visited, 5, 0
    {
      visits := visits + [Visit(d, path)];
      ghost var logged := Now();
      assert logged == before.(visited := before.visited + {d}, visits := before.visits + [Visit(d, path)]);
      SoundLogged(fs, cfg, starts, before.(visited := visited), Visit(d, path));
      var i, stop := ReadEntries(d, path, logged);
      ghost var s := Now();
      EndListing(d, stop);
      ReadEnd(fs, cfg, before, logged, s, Now(), d, path, i, stop);
      BlamelessEnd(fs, cfg, signal, before, logged, s, Now(), Visit(d, path));
    }

    /** Reports a listing that has ended in error, unless it was left at the stop signal. */
    method EndListing(d: NodeId, stop: bool)
      requires d in fs.dirs
      modifies this`errors
      ensures Now() == old(Now()).(errors := old(errors) + if stop then 0 else EndFault(fs.dirs[d]))
    {
      if !stop && fs.dirs[d].endError != 0 {
        ReportError();
      }
    }

    /** Handles the entries of a directory in the order they are listed, until the stop signal is seen. */
    method ReadEntries(d: NodeId, path: Path, ghost logged: Snap) returns (i: nat, stop: bool)
      requires Readable(fs, d) && d in visited && Now() == logged && Visit(d, path) in visits
      requires Sound(fs, cfg, starts, Now()) && Spelled(fs, cfg, root, starts, Visit(d, path))
      modifies this`visited, this`found, this`errors, this`polls, this`stopped, this`visits
      ensures ReadSoFar(fs, cfg, logged, Now(), path, fs.dirs[d].entries, i, stop) && (stop || i == |fs.dirs[d].entries|)
      ensures Sound(fs, cfg, starts, Now()) && d in visited && Blameless(fs, cfg, signal, logged, Now())
      decreases fs.dirs.Keys - visited, 4, 0
    {
      var es := fs.dirs[d].entries;
      i, stop := 0, false;
      ReadNothing(fs, cfg, logged, path, es);
      while i < |es| && !stop
        invariant Reading(fs, cfg, signal, starts, logged, Now(), Visit(d, path), es, i, stop)
        decreases |es| - i, !stop
      {
        ghost var s := Now();
        stop := StepEntry(d, i, path);
        ReadingStep(fs, cfg, signal, starts, logged, s, Now(), Visit(d, path), es, i, stop);
        i := i + 1;
      }
    }

    /** Enters an input directory, unless it has been visited already. */
    method EnterStart(id: NodeId, path: Path)
      requires id !in fs.pseudo && Sound(fs, cfg, starts, Now())
      requires Reachable(fs, cfg, root, starts, id) && Spelled(fs, cfg, root, starts, Visit(id, path))
      modifies this`visited, this`found, this`errors, this`polls, this`stopped, this`visits
      ensures Stretch(fs, cfg, old(Now()), Now(), NOTHING) && Sound(fs, cfg, starts, Now())
      ensures id in visited && Blameless(fs, cfg, signal, old(Now()), Now())
    {
      ghost var s := Now();
      if id in visited {
        StretchStill(fs, cfg, s, s, NOTHING);
        return;
      }
      visited := visited + {id};
      if id !in fs.dirs {
        ReportError();
        StretchMarked(fs, cfg, s, Now(), id);
        return;
      }
      WalkDirectory(id, path, s);
    }
  }

  lemma BlamelessEntry(fs: FileSystem, cfg: Config, signal: nat -> bool, s: Snap, s': Snap, v: Visit, i: nat)
    requires v in s.visits && v.id in fs.dirs && i < |fs.dirs[v.id].entries|
    requires s' == s.(found := s'.found, errors := s'.errors) && s.errors <= s'.errors
    requires s'.errors > s.errors ==> EntryFault(cfg, v.path, fs.dirs[v.id].entries[i])
    ensures Blameless(fs, cfg, signal, s, s')
  {
    if s'.errors > s.errors {
      assert DirectoryFault(fs, cfg, v);
    }
  }

  lemma BlamelessEnd(fs: FileSystem, cfg: Config, signal: nat -> bool, before: Snap, logged: Snap, s: Snap, s': Snap, v: Visit)
    requires v.id in fs.dirs && logged == before.(visited := before.visited + {v.id}, visits := before.visits + [v])
    requires Blameless(fs, cfg, signal, logged, s) && s' == s.(errors := s'.errors) && s.errors <= s'.errors
    requires s'.errors > s.errors ==> fs.dirs[v.id].endError != 0
    ensures Blameless(fs, cfg, signal, before, s')
  {
    assert s.visits[|before.visits|] == v;
    if s'.errors > s.errors {
      assert DirectoryFault(fs, cfg, s'.visits[|before.visits|]);
    } else if s.errors > logged.errors {
      FaultyGrows(fs, cfg, s, s');
    }
  }

  /** A directory's first i entries have been handled; a stop leaves the counts of files and errors open. */
  ghost predicate ReadSoFar(fs: FileSystem, cfg: Config, logged: Snap, s: Snap, path: Path, es: seq<Dirent>, i: nat, stop: bool) {
    && i <= |es| && Stretch(fs, cfg, logged, s, EntriesYield(cfg, path, es[..i]))
    && (stop ==> s.stopped)
    && (!s.stopped ==> forall j | 0 <= j < i :: Followed(cfg, s.root, es[j], path, s.visited))
  }

  lemma ReadNothing(fs: FileSystem, cfg: Config, logged: Snap, path: Path, es: seq<Dirent>)
    ensures ReadSoFar(fs, cfg, logged, logged, path, es, 0, false)
  {
    StretchStill(fs, cfg, logged, logged, NOTHING);
    assert es[..0] == [];
  }

  lemma ReadStep(fs: FileSystem, cfg: Config, logged: Snap, s: Snap, s': Snap, path: Path, es: seq<Dirent>, i: nat, stop: bool)
    requires i < |es| && ReadSoFar(fs, cfg, logged, s, path, es, i, false)
    requires Stretch(fs, cfg, s, s', EntryYield(cfg, path, es[i])) && (stop ==> s'.stopped)
    requires !stop ==> Followed(cfg, s.root, es[i], path, s'.visited)
    ensures ReadSoFar(fs, cfg, logged, s', path, es, i + 1, stop)
  {
    StretchTrans(fs, cfg, logged, s, s', EntriesYield(cfg, path, es[..i]), EntryYield(cfg, path, es[i]));
    EntriesYieldStep(cfg, path, es, i);
  }

  /** The loop over a directory's entries, with all that it keeps. */
  ghost predicate Reading(fs: FileSystem, cfg: Config, signal: nat -> bool, starts: set<Visit>, logged: Snap, s: Snap, v: Visit,
                          es: seq<Dirent>, i: nat, stop: bool) {
    && ReadSoFar(fs, cfg, logged, s, v.path, es, i, stop) && Blameless(fs, cfg, signal, logged, s)
    && Sound(fs, cfg, starts, s) && v.id in s.visited && v in s.visits
  }

  lemma ReadingStep(fs: FileSystem, cfg: Config, signal: nat -> bool, starts: set<Visit>, logged: Snap, s: Snap, s': Snap, v: Visit,
                    es: seq<Dirent>, i: nat, stop: bool)
    requires i < |es| && Reading(fs, cfg, signal, starts, logged, s, v, es, i, false)
    requires Stretch(fs, cfg, s, s', EntryYield(cfg, v.path, es[i])) && (stop ==> s'.stopped)
    requires Blameless(fs, cfg, signal, s, s') && Sound(fs, cfg, starts, s')
    requires !stop ==> Followed(cfg, s.root, es[i], v.path, s'.visited)
    ensures Reading(fs, cfg, signal, starts, logged, s', v, es, i + 1, stop)
  {
    ReadStep(fs, cfg, logged, s, s', v.path, es, i, stop);
    BlamelessTrans(fs, cfg, signal, logged, s, s');
    assert exists j :: 0 <= j < |s'.visits| && s'.visits[j] == v by {
      var j :| 0 <= j < |s.visits| && s.visits[j] == v;
      assert s'.visits[j] == v;
    }
  }

  lemma ReadEnd(fs: FileSystem, cfg: Config, before: Snap, logged: Snap, s: Snap, s': Snap, d: NodeId, path: Path, i: nat, stop: bool)
    requires Readable(fs, d) && d !in before.visited
    requires logged == before.(visited := before.visited + {d}, visits := before.visits + [Visit(d, path)])
    requires ReadSoFar(fs, cfg, logged, s, path, fs.dirs[d].entries, i, stop)
    requires stop || i == |fs.dirs[d].entries|
    requires s' == s.(errors := s.errors + if stop then 0 else EndFault(fs.dirs[d]))
    ensures Stretch(fs, cfg, before, s', NOTHING)
  {
    var es, end := fs.dirs[d].entries, Yield(multiset{}, EndFault(fs.dirs[d]));
    StretchStill(fs, cfg, s, s', end);
    StretchTrans(fs, cfg, logged, s, s', EntriesYield(cfg, path, es[..i]), end);
    if !stop {
      assert es[..i] == es;
      forall w | !s'.stopped && Step(fs, cfg, s'.root, Visit(d, path), w)
        ensures w.id in s'.visited
      {
        var j :| 0 <= j < |es| && StepBy(cfg, s'.root, Visit(d, path), es[j], w);
        assert Followed(cfg, s'.root, es[j], path, s'.visited);
      }
    }
    StretchDirectory(fs, cfg, before, logged, s', d, path);
  }

  /** If the entry leads to a directory, under a path that is not too long, that directory has been visited. */
  ghost predicate Followed(cfg: Config, root: Root, e: Dirent, directory: Path, visited: set<NodeId>) {
    Fits(cfg, directory, e.name) ==> forall c | LeadsTo(cfg, root, e, c) :: c in visited
  }

  predicate LeadsToAnywhere(cfg: Config, e: Dirent) {
    !Skipped(cfg, e.name) && Look(cfg, e).Found? && Look(cfg, e).kind.Directory? && cfg.acceptsDirectory(e.name)
  }
}
