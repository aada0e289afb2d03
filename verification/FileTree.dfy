// The file system a walk sees, the edges it may follow, and reachability along them.
module FileTree {
  import opened Entries

  type Name = seq<Byte>
  type Path = seq<Byte>

  const DOT: Byte := 46
  const SLASH: Byte := 47

  datatype NodeId = NodeId(device: nat, inode: nat)

  datatype Kind = Regular(size: nat) | Directory | Symlink | Other

  datatype Stat = Found(kind: Kind, id: NodeId) | Missing(errno: int)

  /** A directory entry, as seen without and with following a symbolic link. */
  datatype Dirent = Dirent(name: Name, own: Stat, target: Stat)

  /** What reading a directory yields; endError is the errno left by the last read, zero at a clean end. */
  datatype Listing = Listing(entries: seq<Dirent>, endError: int)

  /** A file system at rest. A directory that cannot be opened has no listing. */
  datatype FileSystem = FileSystem(dirs: map<NodeId, Listing>, pseudo: set<NodeId>)

  datatype Config = Config(
    includeHidden: bool,
    followSymlinks: bool,
    oneFileSystem: bool,
    minimumSize: nat,
    maxPath: nat,
    acceptsFile: Name -> bool,
    acceptsDirectory: Name -> bool)

  /** A directory read under a path. */
  datatype Visit = Visit(id: NodeId, path: Path)

  /** The device the walk is confined to, once the first directory input is known. */
  datatype Root = Unknown | Device(device: nat)

  function Look(cfg: Config, e: Dirent): Stat {
    if cfg.followSymlinks then e.target else e.own
  }

  predicate IsDot(name: Name) {
    name == [DOT] || name == [DOT, DOT]
  }

  predicate Skipped(cfg: Config, name: Name) {
    IsDot(name) || (!cfg.includeHidden && name != [] && name[0] == DOT)
  }

  function Join(directory: Path, name: Name): Path {
    if directory != [] && directory[|directory| - 1] == SLASH then directory + name else directory + [SLASH] + name
  }

  predicate Fits(cfg: Config, directory: Path, name: Name) {
    |Join(directory, name)| < cfg.maxPath
  }

  predicate OffDevice(cfg: Config, root: Root, id: NodeId) {
    cfg.oneFileSystem && root.Device? && id.device != root.device
  }

  /** The directory that an entry leads the walk to, if any. */
  predicate LeadsTo(cfg: Config, root: Root, e: Dirent, c: NodeId) {
    && !Skipped(cfg, e.name)
    && Look(cfg, e) == Found(Directory, c)
    && cfg.acceptsDirectory(e.name)
    && !OffDevice(cfg, root, c)
  }

  predicate Readable(fs: FileSystem, d: NodeId) {
    d in fs.dirs && d !in fs.pseudo
  }

  /** From directory d the walk may enter directory c. */
  ghost predicate Edge(fs: FileSystem, cfg: Config, root: Root, d: NodeId, c: NodeId) {
    Readable(fs, d) && exists i :: 0 <= i < |fs.dirs[d].entries| && LeadsTo(cfg, root, fs.dirs[d].entries[i], c)
  }

  function NodesOf(starts: set<Visit>): set<NodeId> {
    set v | v in starts :: v.id
  }

  /** A path of readable directories along edges, from one of the starts to its last node. */
  ghost predicate Trek(fs: FileSystem, cfg: Config, root: Root, starts: set<Visit>, nodes: seq<NodeId>) {
    && nodes != [] && nodes[0] in NodesOf(starts)
    && (forall i | 0 <= i < |nodes| - 1 :: Edge(fs, cfg, root, nodes[i], nodes[i + 1]))
  }

  ghost predicate Reachable(fs: FileSystem, cfg: Config, root: Root, starts: set<Visit>, d: NodeId) {
    exists nodes :: Trek(fs, cfg, root, starts, nodes) && nodes[|nodes| - 1] == d
  }

  lemma ReachableStart(fs: FileSystem, cfg: Config, root: Root, starts: set<Visit>, d: NodeId)
    requires d in NodesOf(starts)
    ensures Reachable(fs, cfg, root, starts, d)
  {
    assert Trek(fs, cfg, root, starts, [d]);
  }

  lemma ReachableStep(fs: FileSystem, cfg: Config, root: Root, starts: set<Visit>, d: NodeId, c: NodeId)
    requires Reachable(fs, cfg, root, starts, d) && Edge(fs, cfg, root, d, c)
    ensures Reachable(fs, cfg, root, starts, c)
  {
    var nodes :| Trek(fs, cfg, root, starts, nodes) && nodes[|nodes| - 1] == d;
    assert Trek(fs, cfg, root, starts, nodes + [c]);
  }

  lemma ReachableMore(fs: FileSystem, cfg: Config, root: Root, starts: set<Visit>, starts': set<Visit>, d: NodeId)
    requires starts <= starts' && Reachable(fs, cfg, root, starts, d)
    ensures Reachable(fs, cfg, root, starts', d)
  {
    var nodes :| Trek(fs, cfg, root, starts, nodes) && nodes[|nodes| - 1] == d;
    assert Trek(fs, cfg, root, starts', nodes);
  }

  /** A set that holds the starts and every successor of its readable members holds everything reachable. */
  lemma {:induction false} ClosedHoldsTrek(fs: FileSystem, cfg: Config, root: Root, starts: set<Visit>, closed: set<NodeId>,
                                           nodes: seq<NodeId>)
    requires NodesOf(starts) <= closed && Trek(fs, cfg, root, starts, nodes)
    requires forall d, c | d in closed && Edge(fs, cfg, root, d, c) :: c in closed
    ensures nodes[|nodes| - 1] in closed
  {
    if |nodes| > 1 {
      ClosedHoldsTrek(fs, cfg, root, starts, closed, nodes[..|nodes| - 1]);
      assert Edge(fs, cfg, root, nodes[|nodes| - 2], nodes[|nodes| - 1]);
    }
  }

  /** An entry of the directory v leads to the directory w under the joined path. */
  ghost predicate Step(fs: FileSystem, cfg: Config, root: Root, v: Visit, w: Visit) {
    Readable(fs, v.id) && exists i :: 0 <= i < |fs.dirs[v.id].entries| && StepBy(cfg, root, v, fs.dirs[v.id].entries[i], w)
  }

  predicate StepBy(cfg: Config, root: Root, v: Visit, e: Dirent, w: Visit) {
    LeadsTo(cfg, root, e, w.id) && Fits(cfg, v.path, e.name) && w.path == Join(v.path, e.name)
  }

  ghost predicate Spelling(fs: FileSystem, cfg: Config, root: Root, starts: set<Visit>, steps: seq<Visit>) {
    && steps != [] && steps[0] in starts
    && (forall i | 0 <= i < |steps| - 1 :: Step(fs, cfg, root, steps[i], steps[i + 1]))
  }

  /** The path names the directory: it is an input path followed by the names of the entries that lead there. */
  ghost predicate Spelled(fs: FileSystem, cfg: Config, root: Root, starts: set<Visit>, v: Visit) {
    exists steps :: Spelling(fs, cfg, root, starts, steps) && steps[|steps| - 1] == v
  }

  lemma SpelledStart(fs: FileSystem, cfg: Config, root: Root, starts: set<Visit>, v: Visit)
    requires v in starts
    ensures Spelled(fs, cfg, root, starts, v)
  {
    assert Spelling(fs, cfg, root, starts, [v]);
  }

  lemma SpelledStep(fs: FileSystem, cfg: Config, root: Root, starts: set<Visit>, v: Visit, w: Visit)
    requires Spelled(fs, cfg, root, starts, v) && Step(fs, cfg, root, v, w)
    ensures Spelled(fs, cfg, root, starts, w)
  {
    var steps :| Spelling(fs, cfg, root, starts, steps) && steps[|steps| - 1] == v;
    assert Spelling(fs, cfg, root, starts, steps + [w]);
  }

  lemma SpelledMore(fs: FileSystem, cfg: Config, root: Root, starts: set<Visit>, starts': set<Visit>, v: Visit)
    requires starts <= starts' && Spelled(fs, cfg, root, starts, v)
    ensures Spelled(fs, cfg, root, starts', v)
  {
    var steps :| Spelling(fs, cfg, root, starts, steps) && steps[|steps| - 1] == v;
    assert Spelling(fs, cfg, root, starts', steps);
  }

  /** What holds of the start paths and survives joining a name holds of every spelled path. */
  lemma {:induction false} SpelledPaths(fs: FileSystem, cfg: Config, root: Root, starts: set<Visit>, steps: seq<Visit>,
                                        good: Path -> bool)
    requires Spelling(fs, cfg, root, starts, steps)
    requires forall v | v in starts :: good(v.path)
    requires forall d, i, p | d in fs.dirs && 0 <= i < |fs.dirs[d].entries| && good(p) ::
               good(Join(p, fs.dirs[d].entries[i].name))
    ensures good(steps[|steps| - 1].path)
  {
    if |steps| > 1 {
      var v, w := steps[|steps| - 2], steps[|steps| - 1];
      SpelledPaths(fs, cfg, root, starts, steps[..|steps| - 1], good);
      assert Step(fs, cfg, root, v, w);
    }
  }

  /** The entry that a directory entry contributes. */
  function FileOf(cfg: Config, directory: Path, e: Dirent): seq<Identity> {
    if Skipped(cfg, e.name) || !Fits(cfg, directory, e.name) then []
    else match Look(cfg, e)
      case Missing(_) => []
      case Found(kind, id) =>
        if kind.Regular? && cfg.acceptsFile(e.name) && cfg.minimumSize <= kind.size
        then [Identity(Join(directory, e.name), kind.size, id.device, id.inode)]
        else []
  }

  /** The entry is one the walk reports an error for. */
  predicate EntryFault(cfg: Config, directory: Path, e: Dirent) {
    !Skipped(cfg, e.name) && (!Fits(cfg, directory, e.name) || Look(cfg, e).Missing?)
  }

  /** Reading the directory under this path meets an error. */
  ghost predicate DirectoryFault(fs: FileSystem, cfg: Config, v: Visit) {
    v.id in fs.dirs && (fs.dirs[v.id].endError != 0
                        || exists i :: 0 <= i < |fs.dirs[v.id].entries| && EntryFault(cfg, v.path, fs.dirs[v.id].entries[i]))
  }

  function FilesOf(cfg: Config, directory: Path, es: seq<Dirent>): seq<Identity> {
    if es == [] then [] else FilesOf(cfg, directory, es[..|es| - 1]) + FileOf(cfg, directory, es[|es| - 1])
  }

  function FilesUnder(fs: FileSystem, cfg: Config, visits: seq<Visit>): multiset<Identity> {
    if visits == [] then multiset{}
    else
      var v := visits[|visits| - 1];
      FilesUnder(fs, cfg, visits[..|visits| - 1])
      + if v.id in fs.dirs then multiset(FilesOf(cfg, v.path, fs.dirs[v.id].entries)) else multiset{}
  }

  lemma {:induction false} FilesUnderConcat(fs: FileSystem, cfg: Config, a: seq<Visit>, b: seq<Visit>)
    ensures FilesUnder(fs, cfg, a + b) == FilesUnder(fs, cfg, a) + FilesUnder(fs, cfg, b)
  {
    if b == [] {
      assert a + b == a;
    } else {
      assert (a + b)[..|a + b| - 1] == a + b[..|b| - 1];
      FilesUnderConcat(fs, cfg, a, b[..|b| - 1]);
    }
  }

  // ---------------------------------------------------------------- what there is to find and to report

  function FaultOf(cfg: Config, directory: Path, e: Dirent): nat {
    if EntryFault(cfg, directory, e) then 1 else 0
  }

  function FaultsOf(cfg: Config, directory: Path, es: seq<Dirent>): nat {
    if es == [] then 0 else FaultsOf(cfg, directory, es[..|es| - 1]) + FaultOf(cfg, directory, es[|es| - 1])
  }

  function EndFault(listing: Listing): nat {
    if listing.endError != 0 then 1 else 0
  }

  /** The errors to report for the directories read: one for each entry that fails, one for each listing that ends in error. */
  function FaultsUnder(fs: FileSystem, cfg: Config, visits: seq<Visit>): nat {
    if visits == [] then 0
    else FaultsUnder(fs, cfg, visits[..|visits| - 1]) + VisitFaults(fs, cfg, visits[|visits| - 1])
  }

  function VisitFaults(fs: FileSystem, cfg: Config, v: Visit): nat {
    if v.id in fs.dirs then FaultsOf(cfg, v.path, fs.dirs[v.id].entries) + EndFault(fs.dirs[v.id]) else 0
  }

  lemma {:induction false} FaultsUnderConcat(fs: FileSystem, cfg: Config, a: seq<Visit>, b: seq<Visit>)
    ensures FaultsUnder(fs, cfg, a + b) == FaultsUnder(fs, cfg, a) + FaultsUnder(fs, cfg, b)
  {
    if b == [] {
      assert a + b == a;
    } else {
      assert (a + b)[..|a + b| - 1] == a + b[..|b| - 1];
      FaultsUnderConcat(fs, cfg, a, b[..|b| - 1]);
    }
  }

  lemma {:induction false} FaultlessEntries(cfg: Config, directory: Path, es: seq<Dirent>)
    ensures FaultsOf(cfg, directory, es) == 0 <==> forall i | 0 <= i < |es| :: !EntryFault(cfg, directory, es[i])
  {
    if es != [] {
      var init := es[..|es| - 1];
      FaultlessEntries(cfg, directory, init);
      assert forall i | 0 <= i < |init| :: init[i] == es[i];
    }
  }

  lemma FaultlessVisit(fs: FileSystem, cfg: Config, v: Visit)
    ensures VisitFaults(fs, cfg, v) == 0 <==> !DirectoryFault(fs, cfg, v)
  {
    if v.id in fs.dirs {
      FaultlessEntries(cfg, v.path, fs.dirs[v.id].entries);
    }
  }

  lemma {:induction false} FaultlessVisits(fs: FileSystem, cfg: Config, visits: seq<Visit>)
    ensures FaultsUnder(fs, cfg, visits) == 0 <==> forall i | 0 <= i < |visits| :: !DirectoryFault(fs, cfg, visits[i])
  {
    if visits != [] {
      var init := visits[..|visits| - 1];
      FaultlessVisits(fs, cfg, init);
      FaultlessVisit(fs, cfg, visits[|visits| - 1]);
      assert forall i | 0 <= i < |init| :: init[i] == visits[i];
    }
  }

  /** The directories among these that are there but cannot be opened, and are not passed over unopened. */
  function Unopened(fs: FileSystem, ids: set<NodeId>): set<NodeId> {
    set c | c in ids && c !in fs.pseudo && c !in fs.dirs
  }

  /** What a stretch of the walk finds and reports: files, and the number of errors. */
  datatype Yield = Yield(files: multiset<Identity>, faults: nat)

  const NOTHING := Yield(multiset{}, 0)

  function Plus(a: Yield, b: Yield): Yield {
    Yield(a.files + b.files, a.faults + b.faults)
  }

  function EntryYield(cfg: Config, directory: Path, e: Dirent): Yield {
    Yield(multiset(FileOf(cfg, directory, e)), FaultOf(cfg, directory, e))
  }

  function EntriesYield(cfg: Config, directory: Path, es: seq<Dirent>): Yield {
    Yield(multiset(FilesOf(cfg, directory, es)), FaultsOf(cfg, directory, es))
  }

  lemma EntriesYieldStep(cfg: Config, directory: Path, es: seq<Dirent>, i: nat)
    requires i < |es|
    ensures EntriesYield(cfg, directory, es[..i + 1]) == Plus(EntriesYield(cfg, directory, es[..i]), EntryYield(cfg, directory, es[i]))
  {
    assert es[..i + 1][..i] == es[..i];
  }
}
