// A whole run: discovery, the stages, and the report, from a file tree to the text that is written.
module Application {
  import opened Entries
  import opened Sequences
  import opened CStrings
  import opened FileTree
  import opened Walk
  import opened KeyClasses
  import opened GroupingBySize
  import opened Pipeline
  import opened Projections
  import opened Content
  import opened Guarantees
  import opened Independence
  import opened JsonReport
  import Discovery
  import FullPass
  import FastPass

  /** A stop after discovery, a ring driven into undefined behaviour, nothing to report, or the report's text. */
  datatype Ending = Interrupted | Undefined | Silent | Printed(text: seq<Byte>)

  /** The entries array as the discovered files fill it. */
  ghost predicate Loaded(t: Trail, s: Snap) {
    t.discovered == seq(|s.found|, i requires 0 <= i < |s.found| => Entries.Discovered(s.found[i]))
  }

  ghost predicate FoundAreCStrings(s: Snap) {
    forall i | 0 <= i < |s.found| :: NUL !in s.found[i].path
  }

  lemma KeptPathsAreCStrings(t: Trail, env: Environment, matchHardlinks: bool, algorithm: Algorithm, s: Snap)
    requires Staged(t, env, matchHardlinks, algorithm) && Loaded(t, s) && FoundAreCStrings(s)
    ensures forall k | 0 <= k < |t.groups| :: t.groups[k].End() <= |t.final| && Printable(t.final, t.groups[k])
  {
    IdentitiesConserved(t, env, matchHardlinks, algorithm);
    GroupsInside(t.final, t.kept, StoredKey(DigestSize(algorithm)), t.groups);
    forall i | 0 <= i < t.kept
      ensures NUL !in t.final[i].path
    {
      KeptIsFound(t, matchHardlinks, s, i);
    }
  }

  /** Every entry that is still there at the end is one of the files found. */
  lemma KeptIsFound(t: Trail, matchHardlinks: bool, s: Snap, i: nat)
    requires SizeStage(t, matchHardlinks) && Loaded(t, s) && i < t.kept <= |t.final|
    requires multiset(Ids(t.final[..t.kept])) == multiset(Ids(t.sized[..t.kept]))
    ensures IdOf(t.final[i]) in s.found
  {
    var a, b := Ids(t.final[..t.kept]), Ids(t.sized[..t.kept]);
    assert a[i] == IdOf(t.final[i]);
    assert a[i] in multiset(a);
    assert a[i] in multiset(b);
    var j :| 0 <= j < |b| && b[j] == a[i];
    KeptAreDiscovered(t, matchHardlinks, j);
    var m :| 0 <= m < |t.discovered| && t.discovered[m] == t.sized[j];
    assert IdOf(t.discovered[m]) == s.found[m];
  }

  method Load(found: seq<Identity>) returns (entries: array<FileEntry>)
    ensures fresh(entries)
    ensures entries[..] == seq(|found|, i requires 0 <= i < |found| => Entries.Discovered(found[i]))
  {
    entries := new FileEntry[|found|](i requires 0 <= i < |found| => Entries.Discovered(found[i]));
  }

  method WriteText(algorithm: Algorithm, entries: array<FileEntry>, groups: seq<Group>, totals: Totals)
    returns (text: seq<Byte>)
    requires forall k | 0 <= k < |groups| :: groups[k].End() <= entries.Length && Printable(entries[..], groups[k])
    ensures text == ReportText(algorithm, totals, ShownAll(entries[..], groups))
  {
    var writer := new Writer();
    writer.WriteReport(algorithm, entries, groups, totals);
    text := writer.out;
  }

  /** What a run leaves behind that has printed a text: the text reads back as the groups, and the totals are in it. */
  ghost predicate Reported(t: Trail, env: Environment, matchHardlinks: bool, algorithm: Algorithm, scheduleFor: nat -> seq<nat>,
                           dispatch: FullPass.Dispatch, wallMs: nat, text: seq<Byte>) {
    && Staged(t, env, matchHardlinks, algorithm) && RanAs(t, scheduleFor, dispatch)
    && (forall k | 0 <= k < |t.groups| :: t.groups[k].End() <= |t.final|)
    && (FairRun(t, env, algorithm) ==> t.trusted)
    && Recover(text) == Some(ShownAll(t.final, t.groups))
    && (exists st :: Tallied(t, st) && text == ReportText(algorithm, Totals(st, 0, 0, wallMs), ShownAll(t.final, t.groups)))
  }

  /** The run of the application. interrupted says whether the stop signal has arrived by the end of discovery. */
  method Scan(fs: FileSystem, cfg: Config, inputs: seq<Input>, signal: nat -> bool, interrupted: bool, matchHardlinks: bool,
              algorithm: Algorithm, slots: seq<FullPass.WorkerSlot>, scheduleFor: nat -> seq<nat>, dispatch: FullPass.Dispatch,
              env: Environment, wallMs: nat)
    returns (ending: Ending, ghost s: Snap, ghost t: Trail)
    requires FullPass.Crew(slots) && FullPass.AllQuiet(slots) && FullPass.Dispatchable(dispatch, |slots|)
    requires FastPass.Schedulable(scheduleFor)
    requires Discovery.CStringNames(fs, inputs)
    modifies FullPass.FootprintOfAll(slots)
    ensures Discovery.Discovered(fs, cfg, inputs, s)
    ensures ending.Interrupted? ==> interrupted || exists k: nat :: signal(k)
    ensures ending.Printed? || ending.Silent? ==> !s.stopped && Loaded(t, s)
    ensures ending.Printed? ==>
              Reported(t, env, matchHardlinks, algorithm, scheduleFor, dispatch, wallMs, ending.text)
    ensures ending.Silent? ==> t.sizeGroups == [] && SizeStage(t, matchHardlinks)
    ensures ending.Undefined? ==> !FairRun(t, env, algorithm)
  {
    var found, stopped;
    found, stopped, s := Discovery.Expand(fs, cfg, inputs, signal);
    if stopped || interrupted {
      t := NewTrail([], [], 0, []);
      return Interrupted, s, t;
    }
    Discovery.FoundNulFree(fs, cfg, inputs, s);
    ending, t := Process(found, matchHardlinks, algorithm, slots, scheduleFor, dispatch, env, wallMs, s);
  }

  /** The part of a run that follows discovery. */
  method Process(found: seq<Identity>, matchHardlinks: bool, algorithm: Algorithm, slots: seq<FullPass.WorkerSlot>,
                 scheduleFor: nat -> seq<nat>, dispatch: FullPass.Dispatch, env: Environment, wallMs: nat, ghost s: Snap)
    returns (ending: Ending, ghost t: Trail)
    requires FullPass.Crew(slots) && FullPass.AllQuiet(slots) && FullPass.Dispatchable(dispatch, |slots|)
    requires FastPass.Schedulable(scheduleFor)
    requires found == s.found && FoundAreCStrings(s)
    modifies FullPass.FootprintOfAll(slots)
    ensures !ending.Interrupted?
    ensures ending.Printed? || ending.Silent? ==> Loaded(t, s)
    ensures ending.Printed? ==>
              Reported(t, env, matchHardlinks, algorithm, scheduleFor, dispatch, wallMs, ending.text)
    ensures ending.Silent? ==> t.sizeGroups == [] && SizeStage(t, matchHardlinks)
    ensures ending.Undefined? ==> !FairRun(t, env, algorithm)
  {
    var entries := Load(found);
    if |found| == 0 {
      t := NewTrail(entries[..], entries[..], 0, []);
      assert SizeStage(t, matchHardlinks);
      return Silent, t;
    }
    FullPass.EntriesApart(slots, entries);
    ending, t := Finish(entries, matchHardlinks, algorithm, slots, scheduleFor, dispatch, env, wallMs, s);
  }

  /** The stages and the report, once the entries are loaded. */
  method Finish(entries: array<FileEntry>, matchHardlinks: bool, algorithm: Algorithm, slots: seq<FullPass.WorkerSlot>,
                scheduleFor: nat -> seq<nat>, dispatch: FullPass.Dispatch, env: Environment, wallMs: nat, ghost s: Snap)
    returns (ending: Ending, ghost t: Trail)
    requires FullPass.Crew(slots) && FullPass.AllQuiet(slots) && FullPass.Dispatchable(dispatch, |slots|)
    requires FastPass.Schedulable(scheduleFor)
    requires entries[..] == seq(|s.found|, i requires 0 <= i < |s.found| => Entries.Discovered(s.found[i])) && FoundAreCStrings(s)
    modifies entries, FullPass.FootprintOfAll(slots)
    ensures !ending.Interrupted?
    ensures ending.Printed? || ending.Silent? ==> Loaded(t, s)
    ensures ending.Printed? ==>
              Reported(t, env, matchHardlinks, algorithm, scheduleFor, dispatch, wallMs, ending.text)
    ensures ending.Silent? ==> t.sizeGroups == [] && SizeStage(t, matchHardlinks)
    ensures ending.Undefined? ==> !FairRun(t, env, algorithm)
  {
    var outcome;
    outcome, t := Run(entries, matchHardlinks, algorithm, slots, scheduleFor, dispatch, env);
    match outcome
    case NoReport =>
      ending := Silent;
    case Undefined =>
      ending := Ending.Undefined;
    case Report(groups, statistics) =>
      KeptPathsAreCStrings(t, env, matchHardlinks, algorithm, s);
      var text := WriteText(algorithm, entries, groups, Totals(statistics, 0, 0, wallMs));
      ReportRecovered(algorithm, Totals(statistics, 0, 0, wallMs), ShownAll(t.final, t.groups));
      ending := Printed(text);
  }

  // ---------------------------------------------------------------- what the text says about the file tree

  /** A link stands for the file behind it; when hard links are matched it stands for itself alone. */
  ghost predicate StandsFor(a: Identity, b: Identity, matchHardlinks: bool) {
    if matchHardlinks then a == b else FileKeyOfId(a) == FileKeyOfId(b)
  }

  /** Two of the files found, a file found twice included; when hard links are collapsed, not two links to one file. */
  ghost predicate TwoFiles(found: multiset<Identity>, a: Identity, b: Identity, matchHardlinks: bool) {
    if matchHardlinks then multiset{a, b} <= found else a in found && b in found && FileKeyOfId(a) != FileKeyOfId(b)
  }

  /** All links found to one file of one size serve one content. */
  ghost predicate LinksServeOne(found: multiset<Identity>, content: Contents) {
    forall a, b | a in found && b in found && FileKeyOfId(a) == FileKeyOfId(b) :: content(a.path) == content(b.path)
  }

  /** The group lists files that were found, none more often than it was found, at least two, all of its size and of one
      content; when hard links are collapsed, no file twice. */
  ghost predicate Homogeneous(found: multiset<Identity>, d: Duplicates, content: Contents, matchHardlinks: bool) {
    && 2 <= |d.paths|
    && (exists ids :: Lists(d, ids) && multiset(ids) <= found && (matchHardlinks || Distinct(Map(FileKeyOfId, ids))))
    && (forall i, j | 0 <= i < j < |d.paths| :: content(d.paths[i]) == content(d.paths[j]))
  }

  ghost predicate Lists(d: Duplicates, ids: seq<Identity>) {
    |ids| == |d.paths| && forall i | 0 <= i < |ids| :: ids[i].path == d.paths[i] && ids[i].size == d.size
  }

  /** One group lists both files, in two places, each through a link that was found. */
  ghost predicate Together(found: multiset<Identity>, ds: seq<Duplicates>, a: Identity, b: Identity, matchHardlinks: bool) {
    exists k, i, j :: 0 <= k < |ds| && 0 <= i < |ds[k].paths| && 0 <= j < |ds[k].paths| && i != j
      && Shows(found, ds[k].paths[i], a, matchHardlinks) && Shows(found, ds[k].paths[j], b, matchHardlinks)
  }

  ghost predicate Shows(found: multiset<Identity>, path: seq<Byte>, a: Identity, matchHardlinks: bool) {
    exists id :: id in found && id.path == path && StandsFor(id, a, matchHardlinks)
  }

  ghost predicate Apart(d: Duplicates, e: Duplicates, content: Contents) {
    forall i, j | 0 <= i < |d.paths| && 0 <= j < |e.paths| :: content(d.paths[i]) != content(e.paths[j])
  }

  /** The report is right about the files found: what it groups is equal, what is equal it groups, and no content is
      reported twice. */
  ghost predicate RightAbout(found: multiset<Identity>, ds: seq<Duplicates>, content: Contents, matchHardlinks: bool) {
    && (forall k | 0 <= k < |ds| :: Homogeneous(found, ds[k], content, matchHardlinks))
    && (forall a, b | TwoFiles(found, a, b, matchHardlinks) && content(a.path) == content(b.path) ::
          Together(found, ds, a, b, matchHardlinks))
    && (forall k, l | 0 <= k < l < |ds| :: Apart(ds[k], ds[l], content))
  }

  /** What the size stage keeps of the files found: all of them, or one link of each. */
  ghost predicate Represents(order: seq<Identity>, found: multiset<Identity>, matchHardlinks: bool) {
    && multiset(order) <= found
    && (matchHardlinks ==> multiset(order) == found)
    && (!matchHardlinks ==> Distinct(Map(FileKeyOfId, order)) && forall a | a in found :: HasLink(order, a))
  }

  ghost predicate HasLink(order: seq<Identity>, a: Identity) {
    exists i :: 0 <= i < |order| && FileKeyOfId(order[i]) == FileKeyOfId(a)
  }

  lemma KeptRepresents(t: Trail, s: Snap, matchHardlinks: bool, order: seq<Identity>)
    requires SizeStage(t, matchHardlinks) && Loaded(t, s) && multiset(order) == multiset(Ids(t.sized[..t.kept]))
    ensures Represents(order, multiset(s.found), matchHardlinks)
  {
    assert Ids(t.discovered) == s.found;
    if matchHardlinks {
      MapPermutation(IdOf, t.sized[..t.kept], t.discovered);
    } else {
      KeysStayDistinct(t.sized[..t.kept], order);
      forall x
        ensures multiset(order)[x] <= multiset(s.found)[x]
      {
        DrawnOnce(t, s, order, x);
      }
      forall a | a in multiset(s.found)
        ensures HasLink(order, a)
      {
        FoundHasLink(t, s, order, a);
      }
    }
  }

  lemma KeysStayDistinct(d: seq<FileEntry>, order: seq<Identity>)
    requires multiset(order) == multiset(Ids(d)) && forall i, j | 0 <= i < j < |d| :: FileKeyOf(d[i]) != FileKeyOf(d[j])
    ensures Distinct(Map(FileKeyOfId, order))
  {
    MapPermutation(FileKeyOfId, order, Ids(d));
    forall i, j | 0 <= i < j < |d|
      ensures Map(FileKeyOfId, Ids(d))[i] != Map(FileKeyOfId, Ids(d))[j]
    {
      assert FileKeyOf(d[i]) != FileKeyOf(d[j]);
    }
    DrawnDistinct(Map(FileKeyOfId, Ids(d)), Map(FileKeyOfId, order));
  }

  lemma DrawnOnce(t: Trail, s: Snap, order: seq<Identity>, x: Identity)
    requires SizeStage(t, false) && Loaded(t, s) && multiset(order) == multiset(Ids(t.sized[..t.kept]))
    requires Distinct(Map(FileKeyOfId, order))
    ensures multiset(order)[x] <= multiset(s.found)[x]
  {
    forall i, j | 0 <= i < j < |order|
      ensures order[i] != order[j]
    {
      assert Map(FileKeyOfId, order)[i] != Map(FileKeyOfId, order)[j];
    }
    Once(order, x);
    if x in order {
      assert x in multiset(Ids(t.sized[..t.kept]));
      var i :| 0 <= i < t.kept && Ids(t.sized[..t.kept])[i] == x;
      KeptAreDiscovered(t, false, i);
      var m :| 0 <= m < |t.discovered| && t.discovered[m] == t.sized[i];
      assert s.found[m] == x;
    }
  }

  lemma FoundHasLink(t: Trail, s: Snap, order: seq<Identity>, a: Identity)
    requires SizeStage(t, false) && Loaded(t, s) && multiset(order) == multiset(Ids(t.sized[..t.kept])) && a in s.found
    ensures HasLink(order, a)
  {
    var m :| 0 <= m < |s.found| && s.found[m] == a;
    assert t.discovered[m] in t.discovered;
    assert LinkIn(t.sized[..t.kept], t.discovered[m]);
    var j :| 0 <= j < t.kept && FileKeyOf(t.sized[..t.kept][j]) == FileKeyOf(t.discovered[m]);
    var b := Ids(t.sized[..t.kept])[j];
    assert b in multiset(order);
    var i :| 0 <= i < |order| && order[i] == b;
  }

  /** Two files with equal content have places in the kept order, through links that serve the same content. */
  lemma TwoLinks(order: seq<Identity>, found: multiset<Identity>, content: Contents, a: Identity, b: Identity, matchHardlinks: bool)
    returns (p: nat, q: nat)
    requires Represents(order, found, matchHardlinks) && TwoFiles(found, a, b, matchHardlinks)
    requires !matchHardlinks ==> LinksServeOne(found, content)
    ensures p < |order| && q < |order| && p != q
    ensures StandsFor(order[p], a, matchHardlinks) && StandsFor(order[q], b, matchHardlinks)
    ensures order[p] in found && order[q] in found
    ensures content(order[p].path) == content(a.path) && content(order[q].path) == content(b.path)
  {
    if matchHardlinks {
      p, q := TwoPlaces(order, a, b);
    } else {
      assert HasLink(order, a) && HasLink(order, b);
      p :| 0 <= p < |order| && FileKeyOfId(order[p]) == FileKeyOfId(a);
      q :| 0 <= q < |order| && FileKeyOfId(order[q]) == FileKeyOfId(b);
    }
    assert order[p] in multiset(order) && order[q] in multiset(order);
  }

  lemma EqualFilesTogether(t: Trail, found: multiset<Identity>, content: Contents, a: Identity, b: Identity, matchHardlinks: bool)
    requires t.kept <= |t.final| && Represents(Ids(t.final[..t.kept]), found, matchHardlinks)
    requires !matchHardlinks ==> LinksServeOne(found, content)
    requires TwoFiles(found, a, b, matchHardlinks) && content(a.path) == content(b.path)
    requires Classes(t.final, 0, t.kept, ContentOf(content), t.groups)
    requires forall k | 0 <= k < |t.groups| :: t.groups[k].End() <= |t.final|
    ensures Together(found, ShownAll(t.final, t.groups), a, b, matchHardlinks)
  {
    var order := Ids(t.final[..t.kept]);
    var p, q := TwoLinks(order, found, content, a, b, matchHardlinks);
    assert order[p] == IdOf(t.final[p]) && order[q] == IdOf(t.final[q]);
    assert ContentOf(content)(t.final[p]) == ContentOf(content)(t.final[q]);
    assert p < q ==> SharedWindow(t.groups, p, q);
    assert q < p ==> SharedWindow(t.groups, q, p);
    var k :| 0 <= k < |t.groups| && t.groups[k].Holds(p) && t.groups[k].Holds(q);
    ShownTogether(t, found, a, b, matchHardlinks, p, q, k);
  }

  lemma ShownTogether(t: Trail, found: multiset<Identity>, a: Identity, b: Identity, matchHardlinks: bool, p: nat, q: nat, k: nat)
    requires p < |t.final| && q < |t.final| && p != q && k < |t.groups| && t.groups[k].Holds(p) && t.groups[k].Holds(q)
    requires IdOf(t.final[p]) in found && StandsFor(IdOf(t.final[p]), a, matchHardlinks)
    requires IdOf(t.final[q]) in found && StandsFor(IdOf(t.final[q]), b, matchHardlinks)
    requires forall k | 0 <= k < |t.groups| :: t.groups[k].End() <= |t.final|
    ensures Together(found, ShownAll(t.final, t.groups), a, b, matchHardlinks)
  {
    var d := ShownAll(t.final, t.groups)[k];
    var i, j := p - t.groups[k].start, q - t.groups[k].start;
    assert d.paths[i] == IdOf(t.final[p]).path && d.paths[j] == IdOf(t.final[q]).path;
    assert Shows(found, d.paths[i], a, matchHardlinks) && Shows(found, d.paths[j], b, matchHardlinks);
  }

  lemma WindowsRight(t: Trail, found: multiset<Identity>, content: Contents, matchHardlinks: bool)
    requires t.kept <= |t.final| && Represents(Ids(t.final[..t.kept]), found, matchHardlinks)
    requires !matchHardlinks ==> LinksServeOne(found, content)
    requires Classes(t.final, 0, t.kept, ContentOf(content), t.groups) && Sized(t.final, t.groups)
    requires forall k | 0 <= k < |t.groups| :: t.groups[k].End() <= |t.final|
    ensures RightAbout(found, ShownAll(t.final, t.groups), content, matchHardlinks)
  {
    var ds := ShownAll(t.final, t.groups);
    forall k | 0 <= k < |ds|
      ensures Homogeneous(found, ds[k], content, matchHardlinks)
    {
      WindowHomogeneous(t, found, content, matchHardlinks, k);
    }
    forall a, b | TwoFiles(found, a, b, matchHardlinks) && content(a.path) == content(b.path)
      ensures Together(found, ds, a, b, matchHardlinks)
    {
      EqualFilesTogether(t, found, content, a, b, matchHardlinks);
    }
    forall k, l | 0 <= k < l < |ds|
      ensures Apart(ds[k], ds[l], content)
    {
      WindowsApart(t, content, k, l);
    }
  }

  lemma WindowsApart(t: Trail, content: Contents, k: nat, l: nat)
    requires t.kept <= |t.final| && k < l < |t.groups| && Classes(t.final, 0, t.kept, ContentOf(content), t.groups)
    requires t.groups[k].End() <= |t.final| && t.groups[l].End() <= |t.final|
    ensures Apart(Shown(t.final, t.groups[k]), Shown(t.final, t.groups[l]), content)
  {
    var g, h := t.groups[k], t.groups[l];
    assert WholeClass(t.final, 0, t.kept, ContentOf(content), g);
    assert WholeClass(t.final, 0, t.kept, ContentOf(content), h);
    var d, e := Shown(t.final, g), Shown(t.final, h);
    forall i, j | 0 <= i < |d.paths| && 0 <= j < |e.paths|
      ensures content(d.paths[i]) != content(e.paths[j])
    {
      assert g.Holds(g.start + i) && !g.Holds(h.start + j);
      assert ContentOf(content)(t.final[g.start + i]) == ContentOf(content)(t.final[g.start]);
      assert ContentOf(content)(t.final[h.start + j]) != ContentOf(content)(t.final[g.start]);
    }
  }

  lemma WindowHomogeneous(t: Trail, found: multiset<Identity>, content: Contents, matchHardlinks: bool, k: nat)
    requires t.kept <= |t.final| && Represents(Ids(t.final[..t.kept]), found, matchHardlinks) && k < |t.groups|
    requires Classes(t.final, 0, t.kept, ContentOf(content), t.groups) && Sized(t.final, t.groups)
    requires t.groups[k].End() <= |t.final|
    ensures Homogeneous(found, Shown(t.final, t.groups[k]), content, matchHardlinks)
  {
    var g, order := t.groups[k], Ids(t.final[..t.kept]);
    var d := Shown(t.final, g);
    assert WholeClass(t.final, 0, t.kept, ContentOf(content), g);
    var ids := order[g.start..g.End()];
    forall i | 0 <= i < |d.paths|
      ensures ids[i].path == d.paths[i] && ids[i].size == d.size
      ensures content(d.paths[i]) == ContentOf(content)(t.final[g.start])
    {
      assert g.Holds(g.start + i);
      assert order[g.start + i] == IdOf(t.final[g.start + i]);
    }
    PartOf(order, g.start, g.End());
    assert Lists(d, ids);
  }

  lemma PartOf(order: seq<Identity>, lo: nat, hi: nat)
    requires lo <= hi <= |order|
    ensures multiset(order[lo..hi]) <= multiset(order)
    ensures Distinct(Map(FileKeyOfId, order)) ==> Distinct(Map(FileKeyOfId, order[lo..hi]))
  {
    assert order == order[..lo] + order[lo..hi] + order[hi..];
    forall i, j | 0 <= i < j < hi - lo && Distinct(Map(FileKeyOfId, order))
      ensures Map(FileKeyOfId, order[lo..hi])[i] != Map(FileKeyOfId, order[lo..hi])[j]
    {
      assert Map(FileKeyOfId, order)[lo + i] != Map(FileKeyOfId, order)[lo + j];
    }
  }

  /** From the file tree to the text: on a file system at rest, without errors, stops or digest collisions, the groups a
      reader recovers from the text are right about the files in the inputs and in all directories read, whether hard links
      are matched or collapsed. With Discovery.Discovered, those are all the readable directories that are reachable
      from the inputs, as long as no path is too long, and so whenever no error was recorded. */
  lemma ReportIsRight(fs: FileSystem, cfg: Config, inputs: seq<Input>, s: Snap, t: Trail, env: Environment, matchHardlinks: bool,
                      algorithm: Algorithm, content: Contents)
    requires Discovery.Discovered(fs, cfg, inputs, s) && !s.stopped && Loaded(t, s)
    requires Staged(t, env, matchHardlinks, algorithm) && AtRest(t, env, content)
    requires NoErrors(t) && DigestSeparates(t, env, algorithm, content)
    requires forall k | 0 <= k < |t.groups| :: t.groups[k].End() <= |t.final|
    requires !matchHardlinks ==> LinksServeOne(Discovery.InputFiles(cfg, inputs) + FilesUnder(fs, cfg, s.visits), content)
    ensures RightAbout(Discovery.InputFiles(cfg, inputs) + FilesUnder(fs, cfg, s.visits), ShownAll(t.final, t.groups), content,
                       matchHardlinks)
  {
    GroupsAreContentClasses(t, env, matchHardlinks, algorithm, content);
    Guarantees.GroupsSized(t, env, matchHardlinks, algorithm);
    IdentitiesConserved(t, env, matchHardlinks, algorithm);
    KeptRepresents(t, s, matchHardlinks, Ids(t.final[..t.kept]));
    WindowsRight(t, multiset(s.found), content, matchHardlinks);
  }

  /** Without size groups all kept files differ in size, and so in content. */
  lemma NoTwoAlike(t: Trail, content: Contents, matchHardlinks: bool, p: nat, q: nat)
    requires SizeStage(t, matchHardlinks) && t.sizeGroups == [] && p < q < t.kept
    requires forall e <- t.discovered :: |content(e.path)| == e.size
    ensures content(t.sized[p].path) != content(t.sized[q].path)
  {
    KeptAreDiscovered(t, matchHardlinks, p);
    KeptAreDiscovered(t, matchHardlinks, q);
    assert !SharedWindow(t.sizeGroups, p, q);
    assert SizeOf(t.sized[p]) != SizeOf(t.sized[q]);
  }

  /** A run that stays silent is right too: no two files found have the same content. */
  lemma SilenceIsRight(fs: FileSystem, cfg: Config, inputs: seq<Input>, s: Snap, t: Trail, matchHardlinks: bool, content: Contents)
    requires Discovery.Discovered(fs, cfg, inputs, s) && !s.stopped && Loaded(t, s)
    requires SizeStage(t, matchHardlinks) && t.sizeGroups == []
    requires forall e <- t.discovered :: |content(e.path)| == e.size
    requires !matchHardlinks ==> LinksServeOne(Discovery.InputFiles(cfg, inputs) + FilesUnder(fs, cfg, s.visits), content)
    ensures RightAbout(Discovery.InputFiles(cfg, inputs) + FilesUnder(fs, cfg, s.visits), [], content, matchHardlinks)
  {
    var order, found := Ids(t.sized[..t.kept]), multiset(s.found);
    KeptRepresents(t, s, matchHardlinks, order);
    forall a, b | TwoFiles(found, a, b, matchHardlinks)
      ensures content(a.path) != content(b.path)
    {
      var p, q := TwoLinks(order, found, content, a, b, matchHardlinks);
      assert order[p] == IdOf(t.sized[p]) && order[q] == IdOf(t.sized[q]);
      NoTwoAlike(t, content, matchHardlinks, if p < q then p else q, if p < q then q else p);
    }
  }
}
