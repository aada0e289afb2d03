// Discovery over all input paths, and what it finds.
module Discovery {
  import opened Entries
  import opened FileTree
  import opened Walk
  import opened CStrings

  predicate IsStart(fs: FileSystem, cfg: Config, input: Input) {
    LookInput(cfg, input).Found? && LookInput(cfg, input).kind.Directory? && LookInput(cfg, input).id !in fs.pseudo
  }

  function StartOf(cfg: Config, input: Input): Visit
    requires LookInput(cfg, input).Found?
  {
    Visit(LookInput(cfg, input).id, TrimSlashes(input.path))
  }

  /** The directory inputs that are not on a pseudo file system. */
  function StartsOf(fs: FileSystem, cfg: Config, inputs: seq<Input>): set<Visit> {
    if inputs == [] then {}
    else
      var last := inputs[|inputs| - 1];
      StartsOf(fs, cfg, inputs[..|inputs| - 1]) + if IsStart(fs, cfg, last) then {StartOf(cfg, last)} else {}
  }

  /** The first of them decides the device. */
  function RootOf(fs: FileSystem, cfg: Config, inputs: seq<Input>): Root {
    if inputs == [] then Unknown
    else
      var earlier := RootOf(fs, cfg, inputs[..|inputs| - 1]);
      var last := inputs[|inputs| - 1];
      if earlier.Device? || !IsStart(fs, cfg, last) then earlier else Device(LookInput(cfg, last).id.device)
  }

  function InputFile(cfg: Config, input: Input): seq<Identity> {
    match LookInput(cfg, input)
    case Missing(_) => []
    case Found(kind, id) =>
      if kind.Regular? && cfg.minimumSize <= kind.size then [Identity(input.path, kind.size, id.device, id.inode)] else []
  }

  function InputFiles(cfg: Config, inputs: seq<Input>): multiset<Identity> {
    if inputs == [] then multiset{}
    else InputFiles(cfg, inputs[..|inputs| - 1]) + multiset(InputFile(cfg, inputs[|inputs| - 1]))
  }

  /** The input is one that an error is reported for. */
  predicate InputFault(cfg: Config, input: Input) {
    LookInput(cfg, input).Missing? || LookInput(cfg, input).kind.Symlink? || LookInput(cfg, input).kind.Other?
  }

  function InputFaults(cfg: Config, inputs: seq<Input>): nat {
    if inputs == [] then 0
    else InputFaults(cfg, inputs[..|inputs| - 1]) + if InputFault(cfg, inputs[|inputs| - 1]) then 1 else 0
  }

  lemma {:induction false} FaultlessInputs(cfg: Config, inputs: seq<Input>)
    ensures InputFaults(cfg, inputs) == 0 <==> forall k | 0 <= k < |inputs| :: !InputFault(cfg, inputs[k])
  {
    if inputs != [] {
      var init := inputs[..|inputs| - 1];
      FaultlessInputs(cfg, init);
      assert forall k | 0 <= k < |init| :: init[k] == inputs[k];
    }
  }

  /** What an input yields by itself, and what inputs do. */
  function InputYield(cfg: Config, input: Input): Yield {
    Yield(multiset(InputFile(cfg, input)), if InputFault(cfg, input) then 1 else 0)
  }

  function InputsYield(cfg: Config, inputs: seq<Input>): Yield {
    Yield(InputFiles(cfg, inputs), InputFaults(cfg, inputs))
  }

  /** Errors have a cause: in one of the first k inputs or in something the walk has met. */
  ghost predicate Blamed(fs: FileSystem, cfg: Config, inputs: seq<Input>, k: nat, s: Snap) {
    k <= |inputs| && (s.errors > 0 ==> Faulty(fs, cfg, s) || exists j :: 0 <= j < k && InputFault(cfg, inputs[j]))
  }

  lemma BlamedStep(fs: FileSystem, cfg: Config, inputs: seq<Input>, k: nat, s: Snap, s': Snap)
    requires Blamed(fs, cfg, inputs, k, s) && k < |inputs| && s.visits <= s'.visits && s.visited <= s'.visited
    requires s'.errors > s.errors ==> InputFault(cfg, inputs[k]) || Faulty(fs, cfg, s')
    ensures Blamed(fs, cfg, inputs, k + 1, s')
  {
    if s'.errors == s.errors > 0 && Faulty(fs, cfg, s) {
      FaultyGrows(fs, cfg, s, s');
    }
  }

  /** The state discovery starts from, with the device it will settle on. */
  function Origin(root: Root): Snap {
    Snap({}, [], 0, root, false, [])
  }

  /** After the first k inputs. */
  ghost predicate Explored(fs: FileSystem, cfg: Config, inputs: seq<Input>, k: nat, s: Snap, starts: set<Visit>) {
    && k <= |inputs|
    && starts == StartsOf(fs, cfg, inputs[..k]) && s.root == RootOf(fs, cfg, inputs[..k])
    && Stretch(fs, cfg, Origin(s.root), s, InputsYield(cfg, inputs[..k]))
    && Sound(fs, cfg, starts, s)
    && (s.root.Unknown? ==> s.visited == {} && s.visits == [])
    && NodesOf(starts) <= s.visited
    && Blamed(fs, cfg, inputs, k, s)
  }

  /** One input that is not walked. */
  lemma ExploredStep(fs: FileSystem, cfg: Config, inputs: seq<Input>, k: nat, s: Snap, s': Snap, starts: set<Visit>)
    requires Explored(fs, cfg, inputs, k, s, starts) && k < |inputs| && !IsStart(fs, cfg, inputs[k])
    requires Stretch(fs, cfg, s, s', InputYield(cfg, inputs[k])) && s'.visited == s.visited && s'.visits == s.visits
    requires s.errors <= s'.errors && (s'.errors > s.errors ==> InputFault(cfg, inputs[k]))
    ensures Explored(fs, cfg, inputs, k + 1, s', starts)
  {
    OneMore(fs, cfg, inputs, k);
    BlamedStep(fs, cfg, inputs, k, s, s');
    StretchTrans(fs, cfg, Origin(s.root), s, s', InputsYield(cfg, inputs[..k]), InputYield(cfg, inputs[k]));
  }

  /** One input that reads no directory. */
  lemma ExploredStill(fs: FileSystem, cfg: Config, inputs: seq<Input>, k: nat, s: Snap, s': Snap, starts: set<Visit>)
    requires Explored(fs, cfg, inputs, k, s, starts) && k < |inputs| && !IsStart(fs, cfg, inputs[k])
    requires s' == s.(found := s.found + InputFile(cfg, inputs[k]), errors := s.errors + InputYield(cfg, inputs[k]).faults)
    ensures Explored(fs, cfg, inputs, k + 1, s', starts)
  {
    StretchStill(fs, cfg, s, s', InputYield(cfg, inputs[k]));
    ExploredStep(fs, cfg, inputs, k, s, s', starts);
  }

  /** Fixing the device changes nothing as long as no directory has been visited. */
  lemma RootFixed(fs: FileSystem, cfg: Config, s: Snap, root: Root, extra: Yield)
    requires Stretch(fs, cfg, Origin(s.root), s, extra) && s.visited == {} && s.visits == []
    ensures Stretch(fs, cfg, Origin(root), s.(root := root), extra)
  {
  }

  lemma SoundMore(fs: FileSystem, cfg: Config, starts: set<Visit>, starts': set<Visit>, s: Snap)
    requires Sound(fs, cfg, starts, s) && starts <= starts'
    ensures Sound(fs, cfg, starts', s)
  {
    forall d | d in s.visited
      ensures Reachable(fs, cfg, s.root, starts', d)
    {
      ReachableMore(fs, cfg, s.root, starts, starts', d);
    }
    forall i | 0 <= i < |s.visits|
      ensures Spelled(fs, cfg, s.root, starts', s.visits[i])
    {
      SpelledMore(fs, cfg, s.root, starts, starts', s.visits[i]);
    }
  }

  /** An input directory joins the starts before it is walked. */
  lemma StartJoins(fs: FileSystem, cfg: Config, inputs: seq<Input>, k: nat, s: Snap, starts: set<Visit>)
    requires Explored(fs, cfg, inputs, k, s, starts) && k < |inputs| && IsStart(fs, cfg, inputs[k])
    ensures var id := LookInput(cfg, inputs[k]).id;
            var root := if s.root.Unknown? then Device(id.device) else s.root;
            && Stretch(fs, cfg, Origin(root), s.(root := root), InputsYield(cfg, inputs[..k]))
            && Sound(fs, cfg, starts + {StartOf(cfg, inputs[k])}, s.(root := root))
  {
    var id := LookInput(cfg, inputs[k]).id;
    if s.root.Unknown? {
      RootFixed(fs, cfg, s, Device(id.device), InputsYield(cfg, inputs[..k]));
    } else {
      SoundMore(fs, cfg, starts, starts + {StartOf(cfg, inputs[k])}, s);
    }
  }

  lemma OneMore(fs: FileSystem, cfg: Config, inputs: seq<Input>, k: nat)
    requires k < |inputs|
    ensures RootOf(fs, cfg, inputs[..k + 1]) ==
            if RootOf(fs, cfg, inputs[..k]).Device? || !IsStart(fs, cfg, inputs[k]) then RootOf(fs, cfg, inputs[..k])
            else Device(LookInput(cfg, inputs[k]).id.device)
    ensures StartsOf(fs, cfg, inputs[..k + 1]) ==
            StartsOf(fs, cfg, inputs[..k]) + if IsStart(fs, cfg, inputs[k]) then {StartOf(cfg, inputs[k])} else {}
    ensures InputsYield(cfg, inputs[..k + 1]) == Plus(InputsYield(cfg, inputs[..k]), InputYield(cfg, inputs[k]))
  {
    assert inputs[..k + 1][..k] == inputs[..k];
  }

  /** The account of all inputs so far, once an input directory has been walked. */
  lemma StartStretch(fs: FileSystem, cfg: Config, inputs: seq<Input>, k: nat, s: Snap, rooted: Snap, s': Snap, starts: set<Visit>)
    requires Explored(fs, cfg, inputs, k, s, starts) && k < |inputs| && IsStart(fs, cfg, inputs[k])
    requires rooted == s.(root := if s.root.Unknown? then Device(LookInput(cfg, inputs[k]).id.device) else s.root)
    requires Stretch(fs, cfg, rooted, s', NOTHING)
    ensures Stretch(fs, cfg, Origin(s'.root), s', InputsYield(cfg, inputs[..k + 1]))
  {
    OneMore(fs, cfg, inputs, k);
    StartJoins(fs, cfg, inputs, k, s, starts);
    assert InputYield(cfg, inputs[k]) == NOTHING;
    StretchTrans(fs, cfg, Origin(rooted.root), rooted, s', InputsYield(cfg, inputs[..k]), NOTHING);
  }

  lemma StartKnown(fs: FileSystem, cfg: Config, inputs: seq<Input>, k: nat, s: Snap, rooted: Snap, starts: set<Visit>,
                   visited: set<NodeId>)
    requires k < |inputs| && IsStart(fs, cfg, inputs[k])
    requires starts == StartsOf(fs, cfg, inputs[..k]) && s.root == RootOf(fs, cfg, inputs[..k])
    requires rooted == s.(root := if s.root.Unknown? then Device(LookInput(cfg, inputs[k]).id.device) else s.root)
    requires NodesOf(starts) <= visited && LookInput(cfg, inputs[k]).id in visited
    ensures starts + {StartOf(cfg, inputs[k])} == StartsOf(fs, cfg, inputs[..k + 1]) && rooted.root == RootOf(fs, cfg, inputs[..k + 1])
    ensures NodesOf(starts + {StartOf(cfg, inputs[k])}) <= visited && rooted.root.Device?
  {
    OneMore(fs, cfg, inputs, k);
  }

  lemma ExploredStart(fs: FileSystem, cfg: Config, signal: nat -> bool, inputs: seq<Input>, k: nat, s: Snap, rooted: Snap, s': Snap,
                      starts: set<Visit>)
    requires Explored(fs, cfg, inputs, k, s, starts) && k < |inputs| && IsStart(fs, cfg, inputs[k])
    requires var id := LookInput(cfg, inputs[k]).id;
             && rooted == s.(root := if s.root.Unknown? then Device(id.device) else s.root)
             && Stretch(fs, cfg, rooted, s', NOTHING)
             && Sound(fs, cfg, starts + {StartOf(cfg, inputs[k])}, s')
             && id in s'.visited
             && Blameless(fs, cfg, signal, rooted, s')
    ensures Explored(fs, cfg, inputs, k + 1, s', starts + {StartOf(cfg, inputs[k])})
  {
    StartStretch(fs, cfg, inputs, k, s, rooted, s', starts);
    StartKnown(fs, cfg, inputs, k, s, rooted, starts, s'.visited);
    BlamedStep(fs, cfg, inputs, k, s, s');
  }

  /** An input that is no directory to be walked: a regular file is recorded, a directory on a pseudo file system is left
      alone, anything else is an error. */
  method NoteInput(w: Walker, input: Input)
    requires !IsStart(w.fs, w.cfg, input)
    modifies w`found, w`errors
    ensures w.Now() == old(w.Now()).(found := old(w.found) + InputFile(w.cfg, input),
                                     errors := old(w.errors) + if InputFault(w.cfg, input) then 1 else 0)
  {
    var stat := LookInput(w.cfg, input);
    if stat.Missing? {
      w.ReportError();
      return;
    }
    if stat.kind.Symlink? {
      w.ReportError();
      return;
    }
    if stat.kind.Regular? {
      w.AppendEntry(input.path, stat.kind.size, stat.id);
      return;
    }
    if stat.kind.Directory? {
      return;
    }
    w.ReportError();
  }

  /** An input that is not walked. */
  method PassInput(w: Walker, inputs: seq<Input>, k: nat)
    requires k < |inputs| && Explored(w.fs, w.cfg, inputs, k, w.Now(), w.starts) && !IsStart(w.fs, w.cfg, inputs[k])
    modifies w
    ensures w.stopped == old(w.stopped)
    ensures Explored(w.fs, w.cfg, inputs, k + 1, w.Now(), w.starts)
  {
    ghost var s := w.Now();
    NoteInput(w, inputs[k]);
    ExploredStill(w.fs, w.cfg, inputs, k, s, w.Now(), w.starts);
  }

  /** One input path. */
  method ProcessInputPath(w: Walker, inputs: seq<Input>, k: nat)
    requires k < |inputs| && Explored(w.fs, w.cfg, inputs, k, w.Now(), w.starts)
    modifies w
    ensures Explored(w.fs, w.cfg, inputs, k + 1, w.Now(), w.starts)
    ensures w.stopped ==> old(w.stopped) || exists k: nat :: w.signal(k)
  {
    if IsStart(w.fs, w.cfg, inputs[k]) {
      WalkInput(w, inputs, k);
      return;
    }
    PassInput(w, inputs, k);
  }

  /** An input directory is where the walk may start. */
  lemma StartReady(fs: FileSystem, cfg: Config, inputs: seq<Input>, k: nat, s: Snap, rooted: Snap, starts: set<Visit>, start: Visit)
    requires Explored(fs, cfg, inputs, k, s, starts) && k < |inputs| && IsStart(fs, cfg, inputs[k])
    requires start == StartOf(cfg, inputs[k])
    requires rooted == s.(root := if s.root.Unknown? then Device(start.id.device) else s.root)
    ensures Sound(fs, cfg, starts + {start}, rooted)
    ensures Reachable(fs, cfg, rooted.root, starts + {start}, start.id) && Spelled(fs, cfg, rooted.root, starts + {start}, start)
  {
    StartJoins(fs, cfg, inputs, k, s, starts);
    assert start in starts + {start};
    ReachableStart(fs, cfg, rooted.root, starts + {start}, start.id);
    SpelledStart(fs, cfg, rooted.root, starts + {start}, start);
  }

  /** The first directory input settles the device. */
  method SettleRoot(w: Walker, inputs: seq<Input>, k: nat, ghost start: Visit)
    requires k < |inputs| && Explored(w.fs, w.cfg, inputs, k, w.Now(), w.starts) && IsStart(w.fs, w.cfg, inputs[k])
    requires start == StartOf(w.cfg, inputs[k])
    modifies w`root, w`starts
    ensures w.starts == old(w.starts) + {start}
    ensures w.Now() == old(w.Now()).(root := if old(w.root).Unknown? then Device(start.id.device) else old(w.root))
    ensures Sound(w.fs, w.cfg, w.starts, w.Now())
    ensures Reachable(w.fs, w.cfg, w.root, w.starts, start.id) && Spelled(w.fs, w.cfg, w.root, w.starts, start)
  {
    ghost var s, starts := w.Now(), w.starts;
    if w.root.Unknown? {
      w.root := Device(LookInput(w.cfg, inputs[k]).id.device);
    }
    w.starts := w.starts + {start};
    StartReady(w.fs, w.cfg, inputs, k, s, w.Now(), starts, start);
  }

  /** An input that is a directory to be walked. */
  method WalkInput(w: Walker, inputs: seq<Input>, k: nat)
    requires k < |inputs| && Explored(w.fs, w.cfg, inputs, k, w.Now(), w.starts) && IsStart(w.fs, w.cfg, inputs[k])
    modifies w
    ensures Explored(w.fs, w.cfg, inputs, k + 1, w.Now(), w.starts)
    ensures w.stopped ==> old(w.stopped) || exists k: nat :: w.signal(k)
  {
    ghost var s, starts, start := w.Now(), w.starts, StartOf(w.cfg, inputs[k]);
    SettleRoot(w, inputs, k, start);
    ghost var rooted := w.Now();
    w.EnterStart(LookInput(w.cfg, inputs[k]).id, TrimSlashes(inputs[k].path));
    ExploredStart(w.fs, w.cfg, w.signal, inputs, k, s, rooted, w.Now(), starts);
  }

  /** Every directory read is readable and reachable, and was read under a path that names it. */
  ghost predicate ReadRightly(fs: FileSystem, cfg: Config, root: Root, starts: set<Visit>, s: Snap) {
    forall i | 0 <= i < |s.visits| ::
      && Readable(fs, s.visits[i].id) && Reachable(fs, cfg, root, starts, s.visits[i].id)
      && Spelled(fs, cfg, root, starts, s.visits[i])
  }

  /** No entry that leads to a directory is cut off because its path would be too long. */
  ghost predicate NoneTooLong(fs: FileSystem, cfg: Config, root: Root, visits: seq<Visit>) {
    forall i, j, c | 0 <= i < |visits| && visits[i].id in fs.dirs && 0 <= j < |fs.dirs[visits[i].id].entries|
                     && LeadsTo(cfg, root, fs.dirs[visits[i].id].entries[j], c) ::
      Fits(cfg, visits[i].path, fs.dirs[visits[i].id].entries[j].name)
  }

  /** The readable starts have been read, and every readable directory one step from a directory that was. */
  ghost predicate ReadFully(fs: FileSystem, cfg: Config, root: Root, starts: set<Visit>, visits: seq<Visit>) {
    && (forall d | d in NodesOf(starts) && Readable(fs, d) :: Among(visits, d))
    && (forall i, w | 0 <= i < |visits| && Step(fs, cfg, root, visits[i], w) && Readable(fs, w.id) :: Among(visits, w.id))
  }

  /** The directories met are the reachable ones, and the directories read are the readable ones among them. */
  ghost predicate ReadExactly(fs: FileSystem, cfg: Config, root: Root, starts: set<Visit>, s: Snap) {
    forall d ::
      && (d in s.visited <==> Reachable(fs, cfg, root, starts, d))
      && (Among(s.visits, d) <==> Readable(fs, d) && Reachable(fs, cfg, root, starts, d))
  }

  /** What discovery has done: at most one reading per directory, only of readable directories reachable along edges; and,
      unless it was stopped, of all that a step leads to from a directory read, whatever errors were recorded, which are all
      the reachable ones when no path is too long, so in particular when no error was recorded. The files are exactly those
      of the inputs and of the directories read, and the errors are exactly the faults of the inputs and of the directories
      read and the directories met that cannot be opened. */
  ghost predicate Discovered(fs: FileSystem, cfg: Config, inputs: seq<Input>, s: Snap) {
    var root, starts := RootOf(fs, cfg, inputs), StartsOf(fs, cfg, inputs);
    && DistinctVisits(s.visits)
    && ReadRightly(fs, cfg, root, starts, s)
    && (!s.stopped ==>
          && multiset(s.found) == InputFiles(cfg, inputs) + FilesUnder(fs, cfg, s.visits)
          && s.errors == InputFaults(cfg, inputs) + FaultsUnder(fs, cfg, s.visits) + |Unopened(fs, s.visited)|
          && ReadFully(fs, cfg, root, starts, s.visits)
          && (NoneTooLong(fs, cfg, root, s.visits) || s.errors == 0 ==> ReadExactly(fs, cfg, root, starts, s)))
  }

  /** Every readable directory visited was read. */
  lemma VisitedIsRead(fs: FileSystem, cfg: Config, inputs: seq<Input>, s: Snap, starts: set<Visit>)
    requires Explored(fs, cfg, inputs, |inputs|, s, starts)
    ensures forall d | d in s.visited && Readable(fs, d) :: Among(s.visits, d)
  {
    assert NewVisits(Origin(s.root), s) == s.visits;
  }

  /** Errors do not stop the walk: it meets every reachable directory, and reads every readable one, when no path is too
      long. */
  lemma ReachableIsRead(fs: FileSystem, cfg: Config, inputs: seq<Input>, s: Snap, starts: set<Visit>, d: NodeId)
    requires Explored(fs, cfg, inputs, |inputs|, s, starts) && !s.stopped && NoneTooLong(fs, cfg, s.root, s.visits)
    requires Reachable(fs, cfg, s.root, starts, d)
    ensures d in s.visited && (Readable(fs, d) ==> Among(s.visits, d))
  {
    VisitedIsRead(fs, cfg, inputs, s, starts);
    forall x, c | x in s.visited && Edge(fs, cfg, s.root, x, c)
      ensures c in s.visited
    {
      EdgeFollowed(fs, cfg, inputs, s, starts, x, c);
    }
    var nodes :| Trek(fs, cfg, s.root, starts, nodes) && nodes[|nodes| - 1] == d;
    ClosedHoldsTrek(fs, cfg, s.root, starts, s.visited, nodes);
  }

  lemma EdgeFollowed(fs: FileSystem, cfg: Config, inputs: seq<Input>, s: Snap, starts: set<Visit>, x: NodeId, c: NodeId)
    requires Explored(fs, cfg, inputs, |inputs|, s, starts) && !s.stopped && NoneTooLong(fs, cfg, s.root, s.visits)
    requires x in s.visited && Edge(fs, cfg, s.root, x, c)
    ensures c in s.visited
  {
    VisitedIsRead(fs, cfg, inputs, s, starts);
    var i :| 0 <= i < |s.visits| && s.visits[i].id == x;
    var v, es := s.visits[i], fs.dirs[x].entries;
    var j :| 0 <= j < |es| && LeadsTo(cfg, s.root, es[j], c);
    assert Fits(cfg, v.path, es[j].name);
    assert StepBy(cfg, s.root, v, es[j], Visit(c, Join(v.path, es[j].name)));
    assert Step(fs, cfg, s.root, v, Visit(c, Join(v.path, es[j].name)));
  }

  lemma ExploredFully(fs: FileSystem, cfg: Config, inputs: seq<Input>, s: Snap, starts: set<Visit>)
    requires Explored(fs, cfg, inputs, |inputs|, s, starts) && !s.stopped
    ensures ReadFully(fs, cfg, s.root, starts, s.visits)
  {
    VisitedIsRead(fs, cfg, inputs, s, starts);
    forall i, w | 0 <= i < |s.visits| && Step(fs, cfg, s.root, s.visits[i], w) && Readable(fs, w.id)
      ensures Among(s.visits, w.id)
    {
      assert w.id in s.visited;
    }
  }

  lemma ExploredAll(fs: FileSystem, cfg: Config, inputs: seq<Input>, s: Snap, starts: set<Visit>)
    requires Explored(fs, cfg, inputs, |inputs|, s, starts)
    ensures Discovered(fs, cfg, inputs, s)
  {
    assert inputs[..|inputs|] == inputs;
    assert NewVisits(Origin(s.root), s) == s.visits;
    ExploredPart(fs, cfg, inputs, |inputs|, s, starts);
    if !s.stopped {
      ExploredFully(fs, cfg, inputs, s, starts);
      ExploredCount(fs, cfg, inputs, s, starts);
      if NoneTooLong(fs, cfg, s.root, s.visits) || s.errors == 0 {
        ExploredExactly(fs, cfg, inputs, s, starts);
      }
    }
  }

  lemma ExploredExactly(fs: FileSystem, cfg: Config, inputs: seq<Input>, s: Snap, starts: set<Visit>)
    requires Explored(fs, cfg, inputs, |inputs|, s, starts) && !s.stopped
    requires NoneTooLong(fs, cfg, s.root, s.visits) || s.errors == 0
    ensures ReadExactly(fs, cfg, s.root, starts, s)
  {
    if s.errors == 0 {
      ExploredCount(fs, cfg, inputs, s, starts);
      FaultlessVisits(fs, cfg, s.visits);
      FaultlessFits(fs, cfg, s.root, s.visits);
    }
    forall d
      ensures d in s.visited <==> Reachable(fs, cfg, s.root, starts, d)
      ensures Among(s.visits, d) <==> Readable(fs, d) && Reachable(fs, cfg, s.root, starts, d)
    {
      ReadIsReachable(fs, cfg, inputs, s, starts, d);
      if Reachable(fs, cfg, s.root, starts, d) {
        ReachableIsRead(fs, cfg, inputs, s, starts, d);
      }
    }
  }

  lemma ReadIsReachable(fs: FileSystem, cfg: Config, inputs: seq<Input>, s: Snap, starts: set<Visit>, d: NodeId)
    requires Explored(fs, cfg, inputs, |inputs|, s, starts)
    ensures d in s.visited ==> Reachable(fs, cfg, s.root, starts, d)
    ensures Among(s.visits, d) ==> d in s.visited && Readable(fs, d)
  {
    assert NewVisits(Origin(s.root), s) == s.visits;
  }

  lemma ExploredCount(fs: FileSystem, cfg: Config, inputs: seq<Input>, s: Snap, starts: set<Visit>)
    requires Explored(fs, cfg, inputs, |inputs|, s, starts) && !s.stopped
    ensures s.errors == InputFaults(cfg, inputs) + FaultsUnder(fs, cfg, s.visits) + |Unopened(fs, s.visited)|
  {
    assert inputs[..|inputs|] == inputs;
    assert NewVisits(Origin(s.root), s) == s.visits;
    assert s.visited - Origin(s.root).visited == s.visited;
  }

  /** A path that is too long is a fault of the directory it was to be joined in. */
  lemma FaultlessFits(fs: FileSystem, cfg: Config, root: Root, visits: seq<Visit>)
    requires forall i | 0 <= i < |visits| :: !DirectoryFault(fs, cfg, visits[i])
    ensures NoneTooLong(fs, cfg, root, visits)
  {
    forall i, j, c | 0 <= i < |visits| && visits[i].id in fs.dirs && 0 <= j < |fs.dirs[visits[i].id].entries|
                     && LeadsTo(cfg, root, fs.dirs[visits[i].id].entries[j], c)
      ensures Fits(cfg, visits[i].path, fs.dirs[visits[i].id].entries[j].name)
    {
      assert !DirectoryFault(fs, cfg, visits[i]);
    }
  }

  /** Without a stop no error is recorded exactly when there is none to record: every input is a file or a directory, every
      directory reachable from the inputs opens unless it is on a pseudo file system, and every directory read has entries
      that can be looked at, paths that are not too long, and an end. */
  lemma ErrorFreeIff(fs: FileSystem, cfg: Config, inputs: seq<Input>, s: Snap)
    requires Discovered(fs, cfg, inputs, s) && !s.stopped
    ensures s.errors == 0 <==>
            && (forall k | 0 <= k < |inputs| :: !InputFault(cfg, inputs[k]))
            && (forall i | 0 <= i < |s.visits| :: !DirectoryFault(fs, cfg, s.visits[i]))
            && (forall d | Reachable(fs, cfg, RootOf(fs, cfg, inputs), StartsOf(fs, cfg, inputs), d) :: d in fs.dirs || d in fs.pseudo)
  {
    var root, starts := RootOf(fs, cfg, inputs), StartsOf(fs, cfg, inputs);
    FaultlessInputs(cfg, inputs);
    FaultlessVisits(fs, cfg, s.visits);
    if forall i | 0 <= i < |s.visits| :: !DirectoryFault(fs, cfg, s.visits[i]) {
      FaultlessFits(fs, cfg, root, s.visits);
      AllOpen(fs, cfg, root, starts, s);
    }
  }

  lemma AllOpen(fs: FileSystem, cfg: Config, root: Root, starts: set<Visit>, s: Snap)
    requires ReadExactly(fs, cfg, root, starts, s)
    ensures |Unopened(fs, s.visited)| == 0 <==> forall d | Reachable(fs, cfg, root, starts, d) :: d in fs.dirs || d in fs.pseudo
  {
    if forall d | Reachable(fs, cfg, root, starts, d) :: d in fs.dirs || d in fs.pseudo {
      forall d
        ensures d !in Unopened(fs, s.visited)
      {
      }
    } else {
      var d :| Reachable(fs, cfg, root, starts, d) && d !in fs.dirs && d !in fs.pseudo;
      assert d in Unopened(fs, s.visited);
    }
  }

  lemma {:induction false} PrefixRoot(fs: FileSystem, cfg: Config, inputs: seq<Input>, k: nat)
    requires k <= |inputs|
    ensures StartsOf(fs, cfg, inputs[..k]) <= StartsOf(fs, cfg, inputs)
    ensures RootOf(fs, cfg, inputs[..k]).Device? ==> RootOf(fs, cfg, inputs) == RootOf(fs, cfg, inputs[..k])
  {
    if k == |inputs| {
      assert inputs[..k] == inputs;
    } else {
      PrefixRoot(fs, cfg, inputs[..|inputs| - 1], k);
      assert inputs[..|inputs| - 1][..k] == inputs[..k];
    }
  }

  /** A stopped discovery has read only what a full one may read. */
  lemma ExploredPart(fs: FileSystem, cfg: Config, inputs: seq<Input>, k: nat, s: Snap, starts: set<Visit>)
    requires Explored(fs, cfg, inputs, k, s, starts)
    ensures DistinctVisits(s.visits)
    ensures ReadRightly(fs, cfg, RootOf(fs, cfg, inputs), StartsOf(fs, cfg, inputs), s)
  {
    assert NewVisits(Origin(s.root), s) == s.visits;
    PrefixRoot(fs, cfg, inputs, k);
    SoundMore(fs, cfg, starts, StartsOf(fs, cfg, inputs), s);
    forall i | 0 <= i < |s.visits|
      ensures Readable(fs, s.visits[i].id) && s.visits[i].id in s.visited
    {
    }
  }

  lemma ExploredPolled(fs: FileSystem, cfg: Config, inputs: seq<Input>, k: nat, s: Snap, stop: bool, starts: set<Visit>)
    requires Explored(fs, cfg, inputs, k, s, starts)
    ensures Explored(fs, cfg, inputs, k, s.(stopped := s.stopped || stop), starts)
  {
    var s' := s.(stopped := s.stopped || stop);
    StretchStill(fs, cfg, s, s', NOTHING);
    StretchTrans(fs, cfg, Origin(s.root), s, s', InputsYield(cfg, inputs[..k]), NOTHING);
    if s.errors > 0 && Faulty(fs, cfg, s) {
      FaultyGrows(fs, cfg, s, s');
    }
  }

  lemma BlamedAll(fs: FileSystem, cfg: Config, inputs: seq<Input>, k: nat, s: Snap, starts: set<Visit>)
    requires Explored(fs, cfg, inputs, k, s, starts)
    ensures Blamed(fs, cfg, inputs, |inputs|, s)
  {
  }

  /** Discovery over the input paths, in order, until the stop signal is seen. */
  method Expand(fs: FileSystem, cfg: Config, inputs: seq<Input>, signal: nat -> bool)
    returns (found: seq<Identity>, stopped: bool, ghost s: Snap)
    ensures found == s.found && stopped == s.stopped && Discovered(fs, cfg, inputs, s)
    ensures stopped ==> exists k: nat :: signal(k)
    ensures Blamed(fs, cfg, inputs, |inputs|, s)
  {
    var w := new Walker(fs, cfg, signal);
    StretchStill(fs, cfg, Origin(Unknown), w.Now(), NOTHING);
    var k, stop := 0, false;
    while k < |inputs| && !stop
      invariant w.fs == fs && w.cfg == cfg && w.signal == signal && fresh(w)
      invariant w.stopped ==> exists k: nat :: signal(k)
      invariant k <= |inputs| && Explored(fs, cfg, inputs, k, w.Now(), w.starts)
      invariant stop ==> w.stopped
      decreases |inputs| - k, !stop
    {
      ghost var before := w.Now();
      stop := w.ShouldStop();
      ExploredPolled(fs, cfg, inputs, k, before, stop, w.starts);
      if !stop {
        ProcessInputPath(w, inputs, k);
        k := k + 1;
      }
    }
    s := w.Now();
    BlamedAll(fs, cfg, inputs, k, s, w.starts);
    found, stopped := w.found, w.stopped;
    if !stop {
      ExploredAll(fs, cfg, inputs, s, w.starts);
    } else {
      ExploredPart(fs, cfg, inputs, k, s, w.starts);
    }
  }

  /** Confined to one file system, the walk measures every directory against the device of the first directory input:
      below a directory input on another device nothing on that device is entered. */
  lemma OtherDevicesAreShallow(fs: FileSystem, cfg: Config, root: Root, starts: set<Visit>, d: NodeId)
    requires cfg.oneFileSystem && root.Device? && d.device != root.device
    ensures Reachable(fs, cfg, root, starts, d) <==> d in NodesOf(starts)
  {
    if d in NodesOf(starts) {
      ReachableStart(fs, cfg, root, starts, d);
    }
    if Reachable(fs, cfg, root, starts, d) {
      var nodes :| Trek(fs, cfg, root, starts, nodes) && nodes[|nodes| - 1] == d;
      forall j | 0 < j < |nodes|
        ensures !OffDevice(cfg, root, nodes[j])
      {
        assert Edge(fs, cfg, root, nodes[j - 1], nodes[j - 1 + 1]);
      }
    }
  }

  // ---------------------------------------------------------------- found paths are C strings

  predicate NulFree(path: Path) {
    NUL !in path
  }

  /** No input path and no entry name holds a NUL. */
  ghost predicate CStringNames(fs: FileSystem, inputs: seq<Input>) {
    && (forall k | 0 <= k < |inputs| :: NulFree(inputs[k].path))
    && (forall d, i | d in fs.dirs && 0 <= i < |fs.dirs[d].entries| :: NulFree(fs.dirs[d].entries[i].name))
  }

  lemma {:induction false} FilesOfNulFree(cfg: Config, directory: Path, es: seq<Dirent>)
    requires NulFree(directory) && forall i | 0 <= i < |es| :: NulFree(es[i].name)
    ensures forall id <- FilesOf(cfg, directory, es) :: NulFree(id.path)
  {
    if es != [] {
      FilesOfNulFree(cfg, directory, es[..|es| - 1]);
      assert NulFree(es[|es| - 1].name);
    }
  }

  lemma {:induction false} FilesUnderNulFree(fs: FileSystem, cfg: Config, inputs: seq<Input>, visits: seq<Visit>)
    requires CStringNames(fs, inputs) && forall i | 0 <= i < |visits| :: NulFree(visits[i].path)
    ensures forall id <- FilesUnder(fs, cfg, visits) :: NulFree(id.path)
  {
    if visits != [] {
      var v := visits[|visits| - 1];
      FilesUnderNulFree(fs, cfg, inputs, visits[..|visits| - 1]);
      if v.id in fs.dirs {
        FilesOfNulFree(cfg, v.path, fs.dirs[v.id].entries);
      }
    }
  }

  lemma {:induction false} TrimNulFree(path: Path)
    requires NulFree(path)
    ensures NulFree(TrimSlashes(path))
  {
    if |path| > 1 && path[|path| - 1] == SLASH {
      TrimNulFree(path[..|path| - 1]);
    }
  }

  lemma {:induction false} InputsNulFree(fs: FileSystem, cfg: Config, inputs: seq<Input>)
    requires forall k | 0 <= k < |inputs| :: NulFree(inputs[k].path)
    ensures forall id <- InputFiles(cfg, inputs) :: NulFree(id.path)
    ensures forall v <- StartsOf(fs, cfg, inputs) :: NulFree(v.path)
  {
    if inputs != [] {
      var last := inputs[|inputs| - 1];
      InputsNulFree(fs, cfg, inputs[..|inputs| - 1]);
      TrimNulFree(last.path);
    }
  }

  lemma VisitsNulFree(fs: FileSystem, cfg: Config, inputs: seq<Input>, s: Snap, i: nat)
    requires Discovered(fs, cfg, inputs, s) && CStringNames(fs, inputs) && i < |s.visits|
    ensures NulFree(s.visits[i].path)
  {
    var root, starts := RootOf(fs, cfg, inputs), StartsOf(fs, cfg, inputs);
    InputsNulFree(fs, cfg, inputs);
    assert Spelled(fs, cfg, root, starts, s.visits[i]);
    var steps :| Spelling(fs, cfg, root, starts, steps) && steps[|steps| - 1] == s.visits[i];
    SpelledPaths(fs, cfg, root, starts, steps, NulFree);
  }

  /** The paths of all files found, built by joining names, are C strings when the names are. */
  lemma FoundNulFree(fs: FileSystem, cfg: Config, inputs: seq<Input>, s: Snap)
    requires Discovered(fs, cfg, inputs, s) && !s.stopped && CStringNames(fs, inputs)
    ensures forall i | 0 <= i < |s.found| :: NulFree(s.found[i].path)
  {
    InputsNulFree(fs, cfg, inputs);
    forall i: nat | i < |s.visits|
      ensures NulFree(s.visits[i].path)
    {
      VisitsNulFree(fs, cfg, inputs, s, i);
    }
    FilesUnderNulFree(fs, cfg, inputs, s.visits);
    forall i | 0 <= i < |s.found|
      ensures NulFree(s.found[i].path)
    {
      assert s.found[i] in multiset(s.found);
    }
  }
}
