/** The walk that does not follow links: it lists the real tree in order, each entry once and each directory
    that cannot be listed once more with the error, up to the first broken link. */
module WalkPlain {
  import opened Options
  import opened WalkSpec
  import opened WalkProofs

  /** No link is broken, in this directory and below, as far as directories can be listed. A link is broken if
      resolving it is an error, as for a link to itself. */
  predicate Unbroken(node: Node) {
    match node
    case Link(target) => !target.Broken?
    case Dir(readable, entries) => readable ==> UnbrokenIn(entries)
    case File => true
  }

  predicate UnbrokenIn(entries: seq<Entry>) {
    entries == [] || (Unbroken(entries[0].node) && UnbrokenIn(entries[1..]))
  }

  /** No directory lists a name twice. */
  predicate Sound(node: Node) {
    match node
    case Dir(_, entries) => SoundIn(entries)
    case _ => true
  }

  predicate SoundIn(entries: seq<Entry>) {
    entries == [] || (entries[0].name !in Names(entries[1..]) && Sound(entries[0].node) && SoundIn(entries[1..]))
  }

  /** A path that walkFn was called with, and whether with an error. */
  datatype Report = Report(path: Path, failed: bool)

  /** The entries, a directory before what is in it, or before its error; up to the first broken link. */
  function Listing(node: Node, path: Path): seq<Report> {
    match node
    case File => [Report(path, false)]
    case Link(target) => if target.Broken? then [] else [Report(path, false)]
    case Dir(readable, entries) =>
      [Report(path, false)] + if readable then ListingIn(entries, path) else [Report(path, true)]
  }

  function ListingIn(entries: seq<Entry>, path: Path): seq<Report> {
    if entries == [] then []
    else
      var first := Listing(entries[0].node, path + [entries[0].name]);
      if Unbroken(entries[0].node) then first + ListingIn(entries[1..], path) else first
  }

  /** The node at a location, if it can be got to through directories that can be listed. */
  function Seen(node: Node, loc: Loc): Option<Node>
    decreases |loc|
  {
    if loc == [] then Some(node)
    else if !node.Dir? || !node.readable then None
    else match Find(node.entries, loc[0])
      case None => None
      case Some(child) => Seen(child, loc[1..])
  }

  /** A report that ought to be there: of an entry, or of a directory that cannot be listed. */
  predicate Due(node: Node, loc: Loc, failed: bool) {
    Seen(node, loc).Some? && (failed ==> Seen(node, loc).value.Dir? && !Seen(node, loc).value.readable)
  }

  // ------------------------------------------------------------ what the listing contains

  lemma {:induction false} FindName(entries: seq<Entry>, name: Name)
    ensures Find(entries, name).Some? <==> name in Names(entries)
  {
    if entries != [] && entries[0].name != name {
      FindName(entries[1..], name);
    }
  }

  lemma {:induction false} SoundFind(entries: seq<Entry>, name: Name)
    requires SoundIn(entries) && Find(entries, name).Some?
    ensures Sound(Find(entries, name).value)
  {
    if entries[0].name != name {
      SoundFind(entries[1..], name);
    }
  }

  /** Every report listed is due. */
  lemma {:induction false} ListedDue(node: Node, path: Path, p: Report)
    requires Sound(node) && p in Listing(node, path)
    ensures path <= p.path && Due(node, p.path[|path|..], p.failed)
    decreases node, 1, 0
  {
    if p.path == path {
      assert p.path[|path|..] == [];
      if node.Dir? && node.readable && p.failed {
        ListedDueIn(node.entries, path, p);
      }
    } else {
      ListedDueIn(node.entries, path, p);
    }
  }

  lemma {:induction false} ListedDueIn(entries: seq<Entry>, path: Path, p: Report)
    requires SoundIn(entries) && p in ListingIn(entries, path)
    ensures path < p.path && p.path[|path|] in Names(entries)
    ensures Due(Dir(true, entries), p.path[|path|..], p.failed)
    decreases entries, 0
  {
    var child := path + [entries[0].name];
    if p in Listing(entries[0].node, child) {
      ListedDue(entries[0].node, child, p);
      assert p.path[|child|..] == p.path[|path|..][1..];
      assert p.path[|path|] == child[|path|];
    } else {
      ListedDueIn(entries[1..], path, p);
      var rest := p.path[|path|..];
      assert rest[0] != entries[0].name;
      assert Seen(Dir(true, entries[1..]), rest) == Seen(Dir(true, entries), rest);
    }
  }

  /** Without broken links every report that is due is listed. */
  lemma {:induction false} DueListed(node: Node, path: Path, loc: Loc, failed: bool)
    requires Unbroken(node) && Due(node, loc, failed)
    ensures Report(path + loc, failed) in Listing(node, path)
    decreases node, 1, 0
  {
    if loc == [] {
      assert path + loc == path;
    } else {
      var name := loc[0];
      assert path + loc == path + [name] + loc[1..];
      DueListedIn(node.entries, path, name, loc[1..], failed);
    }
  }

  lemma {:induction false} DueListedIn(entries: seq<Entry>, path: Path, name: Name, loc: Loc, failed: bool)
    requires UnbrokenIn(entries) && Find(entries, name).Some? && Due(Find(entries, name).value, loc, failed)
    ensures Report(path + [name] + loc, failed) in ListingIn(entries, path)
    decreases entries, 0
  {
    if entries[0].name == name {
      DueListed(entries[0].node, path + [name], loc, failed);
    } else {
      DueListedIn(entries[1..], path, name, loc, failed);
    }
  }

  ghost predicate NoRepeats(reports: seq<Report>) {
    forall i, j :: 0 <= i < j < |reports| ==> reports[i] != reports[j]
  }

  lemma JoinNoRepeats(a: seq<Report>, b: seq<Report>)
    requires NoRepeats(a) && NoRepeats(b) && forall p :: p in a ==> p !in b
    ensures NoRepeats(a + b)
  {
    forall i, j | 0 <= i < j < |a + b|
      ensures (a + b)[i] != (a + b)[j]
    {
      if i < |a| <= j {
        assert a[i] in a && b[j - |a|] in b;
      }
    }
  }

  /** Nothing is listed twice. */
  lemma {:induction false} ListedOnce(node: Node, path: Path)
    requires Sound(node)
    ensures NoRepeats(Listing(node, path))
    decreases node, 1, 0
  {
    if node.Dir? && node.readable {
      ListedOnceIn(node.entries, path);
      forall p | p in ListingIn(node.entries, path)
        ensures p.path != path
      {
        ListedDueIn(node.entries, path, p);
      }
      JoinNoRepeats([Report(path, false)], ListingIn(node.entries, path));
    }
  }

  lemma {:induction false} ListedOnceIn(entries: seq<Entry>, path: Path)
    requires SoundIn(entries)
    ensures NoRepeats(ListingIn(entries, path))
    decreases entries, 0
  {
    if entries != [] {
      var child := path + [entries[0].name];
      var first, rest := Listing(entries[0].node, child), ListingIn(entries[1..], path);
      ListedOnce(entries[0].node, child);
      ListedOnceIn(entries[1..], path);
      forall p | p in first
        ensures p !in rest
      {
        ListedDue(entries[0].node, child, p);
        assert p.path[|path|] == child[|path|];
        if p in rest {
          ListedDueIn(entries[1..], path, p);
        }
      }
      JoinNoRepeats(first, rest);
    }
  }

  // ------------------------------------------------------------ the walk makes the listing

  function Reports(log: seq<Visit>): seq<Report> {
    if log == [] then []
    else
      var v := log[|log| - 1];
      Reports(log[..|log| - 1]) + [Report(v.path, v.error.Some?)]
  }

  lemma ReportsCall(fn: WalkFn, w: Walked, v: Visit)
    ensures Reports(Call(fn, w, v).0.log) == Reports(w.log) + [Report(v.path, v.error.Some?)]
  {
    assert (w.log + [v])[..|w.log|] == w.log;
  }

  /** The walk from `w` to `r` made these calls of walkFn, and came through exactly if `ok`. */
  ghost predicate Listed(w: Walked, r: Result, reports: seq<Report>, ok: bool) {
    Reports(r.0.log) == Reports(w.log) + reports && (if ok then r.1 == Continue else r.1.Fail?)
  }

  lemma JoinListed(w: Walked, w1: Walked, r: Result, a: seq<Report>, b: seq<Report>, ok: bool)
    requires Listed(w, (w1, Continue), a, true) && Listed(w1, r, b, ok)
    ensures Listed(w, r, a + b, ok)
  {
    assert Reports(w.log) + a + b == Reports(w.log) + (a + b);
  }

  lemma {:induction false} DirListed(fs: FileSystem, fn: WalkFn, path: Path, info: Info, w: Walked)
    requires Agreeable(fn) && Fits(fs, path, info) && info.isDir && Sound(At(fs.tree, info.loc).value)
    ensures var dir := At(fs.tree, info.loc).value;
      Listed(w, WalkAt(fs, fn, false, path, info, w), Listing(dir, path), Unbroken(dir))
    decreases Unvisited(fs, w.visited), InfoHeight(fs, info), 1, 0
  {
    var dir := At(fs.tree, info.loc).value;
    var v := Visit(path, Some(info), None);
    var w', r := Call(fn, w, v).0, WalkAt(fs, fn, false, path, info, w);
    ReportsCall(fn, w, v);
    if dir.readable {
      EntriesFound(dir.entries);
      NamesListed(fs, fn, path, info, dir.entries, w');
      assert r == WalkNames(fs, fn, false, path, info, Names(dir.entries), w');
      JoinListed(w, w', r, [Report(path, false)], ListingIn(dir.entries, path), UnbrokenIn(dir.entries));
    } else {
      ReportsCall(fn, w', Visit(path, Some(info), Some(PERMISSION_DENIED)));
      JoinListed(w, w', r, [Report(path, false)], [Report(path, true)], true);
    }
  }

  /** In a sound directory looking up a name finds the entry that carries it. */
  ghost predicate AllFound(entries: seq<Entry>, some: seq<Entry>) {
    forall i :: 0 <= i < |some| ==>
      Find(entries, some[i].name) == Option.Some(some[i].node) && Sound(some[i].node)
  }

  lemma {:induction false} EntriesFound(entries: seq<Entry>)
    requires SoundIn(entries)
    ensures AllFound(entries, entries)
  {
    if entries != [] {
      EntriesFound(entries[1..]);
      forall i | 1 <= i < |entries|
        ensures Find(entries, entries[i].name) == Some(entries[i].node) && Sound(entries[i].node)
      {
        assert entries[i] == entries[1..][i - 1];
        FindName(entries[1..], entries[i].name);
      }
    }
  }

  lemma {:induction false} NamesListed(fs: FileSystem, fn: WalkFn, path: Path, info: Info, entries: seq<Entry>, w: Walked)
    requires Agreeable(fn) && Fits(fs, path, info) && info.isDir
    requires AllFound(At(fs.tree, info.loc).value.entries, entries)
    ensures Listed(w, WalkNames(fs, fn, false, path, info, Names(entries), w),
                   ListingIn(entries, path), UnbrokenIn(entries))
    decreases Unvisited(fs, w.visited), InfoHeight(fs, info), 0, |entries|
  {
    if entries != [] {
      var r := NameListed(fs, fn, path, info, entries, w);
      if Unbroken(entries[0].node) {
        assert forall i :: 0 <= i < |entries[1..]| ==> entries[1..][i] == entries[i + 1];
        NamesListed(fs, fn, path, info, entries[1..], r.0);
        JoinListed(w, r.0, WalkNames(fs, fn, false, path, info, Names(entries[1..]), r.0),
                   Listing(entries[0].node, path + [entries[0].name]), ListingIn(entries[1..], path), UnbrokenIn(entries[1..]));
      }
    }
  }

  /** One turn of the loop. */
  lemma {:induction false} NameListed(fs: FileSystem, fn: WalkFn, path: Path, info: Info, entries: seq<Entry>, w: Walked)
    returns (r: Result)
    requires Agreeable(fn) && Fits(fs, path, info) && info.isDir && entries != []
    requires AllFound(At(fs.tree, info.loc).value.entries, entries)
    ensures Listed(w, r, Listing(entries[0].node, path + [entries[0].name]), Unbroken(entries[0].node))
    ensures Unvisited(fs, r.0.visited) <= Unvisited(fs, w.visited)
    ensures WalkNames(fs, fn, false, path, info, Names(entries), w) ==
      if Unbroken(entries[0].node) then WalkNames(fs, fn, false, path, info, Names(entries[1..]), r.0) else r
    decreases Unvisited(fs, w.visited), InfoHeight(fs, info), 0, |entries|, 0
  {
    var e := entries[0];
    var fileInfo := Info(info.loc + [e.name], e.node.Dir?);
    ChildFacts(fs, path, info, e.name);
    ChildStat(fs, path, info, e);
    ChildMeasure(fs, false, path, info, e.name, fileInfo, w.visited);
    r := WalkAt(fs, fn, false, path + [e.name], fileInfo, w);
    UnvisitedMonotone(fs, w.visited, r.0.visited);
    if e.node.Dir? {
      DirListed(fs, fn, path + [e.name], fileInfo, w);
    } else {
      LeafListed(fs, fn, path, info, e, w);
    }
  }

  lemma ChildStat(fs: FileSystem, path: Path, info: Info, e: Entry)
    requires Fits(fs, path, info) && info.isDir
    requires Find(At(fs.tree, info.loc).value.entries, e.name) == Some(e.node)
    ensures Lstat(fs, path + [e.name]) == Found(Info(info.loc + [e.name], e.node.Dir?))
    ensures Eval(fs, path + [e.name]).Failed? <==> !Unbroken(e.node) && !e.node.Dir?
    ensures e.node.Link? && e.node.target.Broken? ==> Eval(fs, path + [e.name]) == Failed(e.node.target.error)
  {
    assert (path + [e.name])[..|path|] == path;
    AtStep(fs.tree, info.loc, e.name);
  }

  lemma LeafListed(fs: FileSystem, fn: WalkFn, path: Path, info: Info, e: Entry, w: Walked)
    requires Agreeable(fn) && Fits(fs, path, info) && info.isDir && !e.node.Dir?
    requires Find(At(fs.tree, info.loc).value.entries, e.name) == Some(e.node)
    ensures var file := path + [e.name]; var fileInfo := Info(info.loc + [e.name], false);
      Listed(w, WalkAt(fs, fn, false, file, fileInfo, w), Listing(e.node, file), Unbroken(e.node))
  {
    ChildStat(fs, path, info, e);
    ReportsCall(fn, w, Visit(path + [e.name], Some(Info(info.loc + [e.name], false)), None));
  }

  lemma ListingExact(dir: Node, root: Path)
    requires Sound(dir)
    ensures NoRepeats(Listing(dir, root)) && Reports([]) + Listing(dir, root) == Listing(dir, root)
    ensures forall p :: p in Listing(dir, root) ==> root <= p.path && Due(dir, p.path[|root|..], p.failed)
    ensures Unbroken(dir) ==> forall loc, failed :: Due(dir, loc, failed) ==> Report(root + loc, failed) in Listing(dir, root)
  {
    ListedOnce(dir, root);
    forall p | p in Listing(dir, root)
      ensures root <= p.path && Due(dir, p.path[|root|..], p.failed)
    {
      ListedDue(dir, root, p);
    }
    if Unbroken(dir) {
      forall loc, failed | Due(dir, loc, failed)
        ensures Report(root + loc, failed) in Listing(dir, root)
      {
        DueListed(dir, root, loc, failed);
      }
    }
  }

  /** When walkFn never objects, Walk without following links calls walkFn along the listing of the real tree
      and returns nil if and only if no link in it is broken. No call is made twice. Without broken links
      the calls are exactly those due: one for every entry that can be got to, and one more, with the
      error, for every directory that cannot be listed. Otherwise the walk stops in front of the first
      broken link with an error and without calling walkFn for it. */
  lemma PlainWalkLists(fs: FileSystem, fn: WalkFn, root: Path, info: Info)
    requires Agreeable(fn) && Stat(fs, root) == Found(info) && info.isDir && Sound(At(fs.tree, info.loc).value)
    ensures var r := Walk(fs, fn, false, root); var dir := At(fs.tree, info.loc).value;
      && Reports(r.0.log) == Listing(dir, root) && NoRepeats(Reports(r.0.log))
      && (r.1 == Continue <==> Unbroken(dir)) && (r.1 == Continue || r.1.Fail?)
      && (forall p :: p in Reports(r.0.log) ==> root <= p.path && Due(dir, p.path[|root|..], p.failed))
      && (Unbroken(dir) ==> forall loc, failed :: Due(dir, loc, failed) ==> Report(root + loc, failed) in Reports(r.0.log))
  {
    DirListed(fs, fn, root, info, Walked({}, []));
    ListingExact(At(fs.tree, info.loc).value, root);
  }
}
