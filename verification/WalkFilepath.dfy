/** The comment on Walk compares it with filepath.Walk of the standard library. Here is that function, and
    when the walk that does not follow links agrees with it. */
module WalkFilepath {
  import opened Options
  import opened WalkSpec
  import opened WalkProofs
  import opened WalkPlain

  /** What filepath.Walk returns, and its calls of walkFn. */
  type Outcome = (seq<Visit>, Verdict)

  function CallPlain(fn: WalkFn, log: seq<Visit>, v: Visit): Outcome {
    (log + [v], fn(log + [v]))
  }

  /** The walk of path/filepath: links are never resolved, and a directory is listed before it is
      reported. */
  function PlainAt(fs: FileSystem, fn: WalkFn, path: Path, info: Info, log: seq<Visit>): Outcome
    requires Fits(fs, path, info)
    decreases InfoHeight(fs, info), 1, 0
  {
    if !info.isDir then CallPlain(fn, log, Visit(path, Some(info), None))
    else
      var dir := At(fs.tree, info.loc).value;
      var (log', verdict) := CallPlain(fn, log, Visit(path, Some(info), if dir.readable then None else Some(PERMISSION_DENIED)));
      if !dir.readable || !verdict.Continue? then (log', verdict)
      else PlainNames(fs, fn, path, info, Names(dir.entries), log')
  }

  function PlainNames(fs: FileSystem, fn: WalkFn, path: Path, info: Info, names: seq<Name>, log: seq<Visit>): Outcome
    requires Fits(fs, path, info) && info.isDir
    decreases InfoHeight(fs, info), 0, |names|
  {
    if names == [] then (log, Continue)
    else
      var file := path + [names[0]];
      match Lstat(fs, file)
      case Error(e) =>
        var (log', verdict) := CallPlain(fn, log, Visit(file, None, Some(e)));
        if verdict.Continue? || verdict.LibrarySkipDir? then PlainNames(fs, fn, path, info, names[1..], log')
        else (log', verdict)
      case Found(fileInfo) =>
        LowerChild(fs, path, info, names[0], fileInfo);
        var (log', verdict) := PlainAt(fs, fn, file, fileInfo, log);
        if verdict.Continue? || (fileInfo.isDir && verdict.LibrarySkipDir?) then
          PlainNames(fs, fn, path, info, names[1..], log')
        else (log', verdict)
  }

  lemma LowerChild(fs: FileSystem, path: Path, info: Info, name: Name, fileInfo: Info)
    requires Fits(fs, path, info) && info.isDir && Lstat(fs, path + [name]) == Found(fileInfo)
    ensures Fits(fs, path + [name], fileInfo) && InfoHeight(fs, fileInfo) < InfoHeight(fs, info)
  {
    ChildFacts(fs, path, info, name);
  }

  /** filepath.Walk. */
  function FilepathWalk(fs: FileSystem, fn: WalkFn, root: Path): Outcome {
    match Lstat(fs, root)
    case Error(e) => Settle(CallPlain(fn, [], Visit(root, None, Some(e))))
    case Found(info) => Settle(PlainAt(fs, fn, root, info, []))
  }

  /** Asking to skip the root, or the rest, is no error. */
  function Settle(r: Outcome): Outcome {
    if r.1.LibrarySkipDir? || r.1.LibrarySkipAll? then (r.0, Continue) else r
  }

  // ------------------------------------------------------------ the same calls

  /** Every directory here and below can be listed. */
  predicate AllReadable(node: Node) {
    match node
    case Dir(readable, entries) => readable && AllReadableIn(entries)
    case _ => true
  }

  predicate AllReadableIn(entries: seq<Entry>) {
    entries == [] || (AllReadable(entries[0].node) && AllReadableIn(entries[1..]))
  }

  /** The standard library's word for each answer. */
  function ToLibrary(v: Verdict): Verdict {
    if v.SkipDir? then LibrarySkipDir else v
  }

  /** `lib` answers filepath.Walk as `fn` answers Walk: each asks to skip a directory in the walk's own terms.
      A function that never asks to skip matches itself. */
  ghost predicate Matching(fn: WalkFn, lib: WalkFn) {
    forall log :: !fn(log).LibrarySkipDir? && !fn(log).LibrarySkipAll? && lib(log) == ToLibrary(fn(log))
  }

  /** `r` and `q` are the same up to a directory that asked to be skipped: walk hides it, filepath's walk
      leaves that to its caller. */
  predicate SameOutcome(isDir: bool, r: Result, q: Outcome) {
    && r.0.log == q.0
    && !r.1.LibrarySkipDir? && !r.1.LibrarySkipAll?
    && (q.1 == ToLibrary(r.1) || (isDir && r.1.Continue? && q.1.LibrarySkipDir?))
  }

  lemma {:induction false} SameAt(fs: FileSystem, fn: WalkFn, lib: WalkFn, path: Path, info: Info, w: Walked)
    requires Matching(fn, lib) && Fits(fs, path, info)
    requires if info.isDir then
               var dir := At(fs.tree, info.loc).value; Unbroken(dir) && AllReadable(dir) && Sound(dir)
             else !Eval(fs, path).Failed?
    ensures SameOutcome(info.isDir, WalkAt(fs, fn, false, path, info, w), PlainAt(fs, lib, path, info, w.log))
    decreases Unvisited(fs, w.visited), InfoHeight(fs, info), 1, 0
  {
    var (w', verdict) := Call(fn, w, Visit(path, Some(info), None));
    assert lib(w'.log) == ToLibrary(verdict);
    if info.isDir {
      var dir := At(fs.tree, info.loc).value;
      if verdict.Continue? {
        EntriesFound(dir.entries);
        SameNames(fs, fn, lib, path, info, dir.entries, w');
      }
    }
  }

  lemma {:induction false} SameNames(fs: FileSystem, fn: WalkFn, lib: WalkFn, path: Path, info: Info, entries: seq<Entry>,
                                     w: Walked)
    requires Matching(fn, lib) && Fits(fs, path, info) && info.isDir && UnbrokenIn(entries) && AllReadableIn(entries)
    requires AllFound(At(fs.tree, info.loc).value.entries, entries)
    ensures SameOutcome(false, WalkNames(fs, fn, false, path, info, Names(entries), w),
                        PlainNames(fs, lib, path, info, Names(entries), w.log))
    decreases Unvisited(fs, w.visited), InfoHeight(fs, info), 0, |entries|
  {
    if entries != [] {
      var e := entries[0];
      var file, fileInfo := path + [e.name], Info(info.loc + [e.name], e.node.Dir?);
      ChildFacts(fs, path, info, e.name);
      ChildStat(fs, path, info, e);
      LowerChild(fs, path, info, e.name, fileInfo);
      SameAt(fs, fn, lib, file, fileInfo, w);
      var r := WalkAt(fs, fn, false, file, fileInfo, w);
      UnvisitedMonotone(fs, w.visited, r.0.visited);
      if r.1.Continue? || (fileInfo.isDir && r.1.SkipDir?) {
        assert forall i :: 0 <= i < |entries[1..]| ==> entries[1..][i] == entries[i + 1];
        SameNames(fs, fn, lib, path, info, entries[1..], r.0);
      }
    }
  }

  /** The directory Walk starts in, if there is one, has no broken link in it as far as it can be listed, and
      can be listed with all that is below. */
  predicate UnbrokenRoot(fs: FileSystem, root: Path) {
    Stat(fs, root).Found? && Stat(fs, root).info.isDir ==> Unbroken(At(fs.tree, Stat(fs, root).info.loc).value)
  }

  predicate ReadableRoot(fs: FileSystem, root: Path) {
    Stat(fs, root).Found? && Stat(fs, root).info.isDir ==> AllReadable(At(fs.tree, Stat(fs, root).info.loc).value)
  }

  /** For any walkFn, also one that skips or fails: if the root is not a link, and below it no link is broken and
      every directory can be listed, Walk makes the same calls as filepath.Walk with the matching function
      and returns the same, except that it does not forgive a request to skip that gets as far as the
      root. */
  lemma SameAsFilepath(fs: FileSystem, fn: WalkFn, lib: WalkFn, root: Path)
    requires Matching(fn, lib) && Sound(fs.tree)
    requires !IsLink(fs, root) && UnbrokenRoot(fs, root) && ReadableRoot(fs, root)
    ensures var r := Walk(fs, fn, false, root);
      FilepathWalk(fs, lib, root) == (r.0.log, if r.1.SkipDir? then Continue else r.1)
  {
    match Stat(fs, root) {
      case Found(info) =>
        if info.isDir {
          SoundAt(fs.tree, info.loc);
        }
        SameAt(fs, fn, lib, root, info, Walked({}, []));
      case Error(e) =>
        assert lib([] + [Visit(root, None, Some(e))]) == ToLibrary(fn([] + [Visit(root, None, Some(e))]));
    }
  }

  lemma {:induction false} SoundAt(node: Node, loc: Loc)
    requires Sound(node) && At(node, loc).Some?
    ensures Sound(At(node, loc).value)
    decreases |loc|
  {
    if loc != [] {
      SoundFind(node.entries, loc[0]);
      SoundAt(Find(node.entries, loc[0]).value, loc[1..]);
    }
  }

  // ------------------------------------------------------------ exactly when

  /** filepath.Walk returns nil when walkFn never objects. */
  lemma {:induction false} PlainContinues(fs: FileSystem, fn: WalkFn, path: Path, info: Info, log: seq<Visit>)
    requires Agreeable(fn) && Fits(fs, path, info)
    ensures PlainAt(fs, fn, path, info, log).1 == Continue
    decreases InfoHeight(fs, info), 1, 0
  {
    if info.isDir {
      var dir := At(fs.tree, info.loc).value;
      PlainNamesContinue(fs, fn, path, info, Names(dir.entries), log + [Visit(path, Some(info), None)]);
    }
  }

  lemma {:induction false} PlainNamesContinue(fs: FileSystem, fn: WalkFn, path: Path, info: Info, names: seq<Name>, log: seq<Visit>)
    requires Agreeable(fn) && Fits(fs, path, info) && info.isDir
    ensures PlainNames(fs, fn, path, info, names, log).1 == Continue
    decreases InfoHeight(fs, info), 0, |names|
  {
    if names != [] {
      var file := path + [names[0]];
      match Lstat(fs, file) {
        case Error(e) =>
          PlainNamesContinue(fs, fn, path, info, names[1..], log + [Visit(file, None, Some(e))]);
        case Found(fileInfo) =>
          LowerChild(fs, path, info, names[0], fileInfo);
          PlainContinues(fs, fn, file, fileInfo, log);
          PlainNamesContinue(fs, fn, path, info, names[1..], PlainAt(fs, fn, file, fileInfo, log).0);
      }
    }
  }

  /** Links lead to what is there and is not a link. */
  ghost predicate LinksResolve(node: Node) {
    forall l :: At(node, l).Some? && At(node, l).value.Link? && At(node, l).value.target.To? ==>
      var t := At(node, At(node, l).value.target.loc); t.Some? && !t.value.Link?
  }

  ghost predicate WellFormed(fs: FileSystem) {
    fs.tree.Dir? && Sound(fs.tree) && LinksResolve(fs.tree)
      && At(fs.tree, Origin(fs.start).loc).Some? && !At(fs.tree, Origin(fs.start).loc).value.Link?
  }

  /** When the root is a link, Walk's first report is about its target or an error, and filepath.Walk's
      only one is about the link. */
  lemma {:induction false} LinkedRoot(fs: FileSystem, fn: WalkFn, root: Path)
    requires WellFormed(fs) && Agreeable(fn) && IsLink(fs, root)
    ensures var link := Visit(root, Some(Info(EntryLoc(fs, root).place.loc, false)), None);
      FilepathWalk(fs, fn, root) == ([link], Continue)
      && Walk(fs, fn, false, root).0.log != [] && Walk(fs, fn, false, root).0.log[0] != link
  {
    var link := Visit(root, Some(Info(EntryLoc(fs, root).place.loc, false)), None);
    assert [] + [link] == [link];
    AtStep(fs.tree, Eval(fs, root[..|root| - 1]).place.loc, root[|root| - 1]);
    if Stat(fs, root).Found? {
      FirstCall(fs, fn, root, Stat(fs, root).info);
    }
  }

  // How many calls each walk makes.

  /** The entries that can be got to, and the directories among them that cannot be listed. */
  function Entries(node: Node): (count: nat)
    ensures count >= 1
  {
    match node
    case Dir(readable, entries) => 1 + if readable then EntriesIn(entries) else 0
    case _ => 1
  }

  function EntriesIn(entries: seq<Entry>): nat {
    if entries == [] then 0 else Entries(entries[0].node) + EntriesIn(entries[1..])
  }

  function Unreadable(node: Node): nat {
    match node
    case Dir(readable, entries) => if readable then UnreadableIn(entries) else 1
    case _ => 0
  }

  function UnreadableIn(entries: seq<Entry>): nat {
    if entries == [] then 0 else Unreadable(entries[0].node) + UnreadableIn(entries[1..])
  }

  lemma {:induction false} NoneUnreadable(node: Node)
    ensures Unreadable(node) == 0 <==> AllReadable(node)
    decreases node, 1, 0
  {
    if node.Dir? {
      NoneUnreadableIn(node.entries);
    }
  }

  lemma {:induction false} NoneUnreadableIn(entries: seq<Entry>)
    ensures UnreadableIn(entries) == 0 <==> AllReadableIn(entries)
    decreases entries, 0
  {
    if entries != [] {
      NoneUnreadable(entries[0].node);
      NoneUnreadableIn(entries[1..]);
    }
  }

  /** Walk's listing: each entry once, and each directory that cannot be listed once more. */
  lemma {:induction false} ListingLength(node: Node, path: Path)
    requires Unbroken(node)
    ensures |Listing(node, path)| == Entries(node) + Unreadable(node)
    decreases node, 1, 0
  {
    if node.Dir? && node.readable {
      ListingLengthIn(node.entries, path);
    }
  }

  lemma {:induction false} ListingLengthIn(entries: seq<Entry>, path: Path)
    requires UnbrokenIn(entries)
    ensures |ListingIn(entries, path)| == EntriesIn(entries) + UnreadableIn(entries)
    decreases entries, 0
  {
    if entries != [] {
      ListingLength(entries[0].node, path + [entries[0].name]);
      ListingLengthIn(entries[1..], path);
    }
  }

  lemma {:induction false} ReportsLength(log: seq<Visit>)
    ensures |Reports(log)| == |log|
  {
    if log != [] {
      ReportsLength(log[..|log| - 1]);
    }
  }

  /** filepath.Walk: each entry once. */
  lemma {:induction false} PlainLength(fs: FileSystem, fn: WalkFn, path: Path, info: Info, log: seq<Visit>)
    requires Agreeable(fn) && Fits(fs, path, info) && info.isDir && Sound(At(fs.tree, info.loc).value)
    ensures |PlainAt(fs, fn, path, info, log).0| == |log| + Entries(At(fs.tree, info.loc).value)
    decreases InfoHeight(fs, info), 1, 0
  {
    var dir := At(fs.tree, info.loc).value;
    if dir.readable {
      EntriesFound(dir.entries);
      PlainNamesLength(fs, fn, path, info, dir.entries, log + [Visit(path, Some(info), None)]);
    }
  }

  lemma {:induction false} PlainNamesLength(fs: FileSystem, fn: WalkFn, path: Path, info: Info, entries: seq<Entry>,
                                            log: seq<Visit>)
    requires Agreeable(fn) && Fits(fs, path, info) && info.isDir
    requires AllFound(At(fs.tree, info.loc).value.entries, entries)
    ensures |PlainNames(fs, fn, path, info, Names(entries), log).0| == |log| + EntriesIn(entries)
    decreases InfoHeight(fs, info), 0, |entries|
  {
    if entries != [] {
      var e := entries[0];
      var file, fileInfo := path + [e.name], Info(info.loc + [e.name], e.node.Dir?);
      ChildFacts(fs, path, info, e.name);
      ChildStat(fs, path, info, e);
      LowerChild(fs, path, info, e.name, fileInfo);
      PlainContinues(fs, fn, file, fileInfo, log);
      if e.node.Dir? {
        PlainLength(fs, fn, file, fileInfo, log);
      }
      assert forall i :: 0 <= i < |entries[1..]| ==> entries[1..][i] == entries[i + 1];
      PlainNamesLength(fs, fn, path, info, entries[1..], PlainAt(fs, fn, file, fileInfo, log).0);
    }
  }

  /** The two walks from a root that is not a link: their results, and how many calls they make. */
  lemma {:induction false} RootFacts(fs: FileSystem, fn: WalkFn, root: Path)
    requires WellFormed(fs) && Agreeable(fn) && !IsLink(fs, root)
    ensures FilepathWalk(fs, fn, root).1 == Continue
    ensures if UnbrokenRoot(fs, root) then Walk(fs, fn, false, root).1 == Continue else Walk(fs, fn, false, root).1.Fail?
    ensures UnbrokenRoot(fs, root) && !ReadableRoot(fs, root) ==>
      |Walk(fs, fn, false, root).0.log| > |FilepathWalk(fs, fn, root).0|
  {
    if Stat(fs, root).Found? {
      var info := Stat(fs, root).info;
      PlainContinues(fs, fn, root, info, []);
      if info.isDir {
        var dir := At(fs.tree, info.loc).value;
        SoundAt(fs.tree, info.loc);
        PlainWalkLists(fs, fn, root, info);
        PlainLength(fs, fn, root, info, []);
        if Unbroken(dir) {
          ListingLength(dir, root);
          ReportsLength(Walk(fs, fn, false, root).0.log);
          NoneUnreadable(dir);
        }
      }
    }
  }

  /** The comment on Walk, without the links: for a walkFn that never objects the calls and the result are those
      of filepath.Walk if and only if the root is not itself a link, no link below it is broken, and every
      directory there can be listed. */
  lemma SameAsFilepathIff(fs: FileSystem, fn: WalkFn, root: Path)
    requires WellFormed(fs) && Agreeable(fn)
    ensures var r := Walk(fs, fn, false, root);
      (r.0.log, r.1) == FilepathWalk(fs, fn, root) <==>
        !IsLink(fs, root) && UnbrokenRoot(fs, root) && ReadableRoot(fs, root)
  {
    if IsLink(fs, root) {
      LinkedRoot(fs, fn, root);
    } else {
      RootFacts(fs, fn, root);
      if UnbrokenRoot(fs, root) && ReadableRoot(fs, root) {
        SameAsFilepath(fs, fn, fn, root);
      }
    }
  }

  function Paths(log: seq<Visit>): (paths: seq<Path>)
    ensures |paths| == |log|
  {
    if log == [] then [] else Paths(log[..|log| - 1]) + [log[|log| - 1].path]
  }

  /** Looking at the paths only, and not at what is reported for them: the paths and the result are those of
      filepath.Walk if and only if below the directory Walk starts in no link is broken and every directory
      can be listed, and a root that is a link to a directory leads to an empty one. */
  lemma SamePathsIff(fs: FileSystem, fn: WalkFn, root: Path)
    requires WellFormed(fs) && Agreeable(fn)
    ensures var r, q := Walk(fs, fn, false, root), FilepathWalk(fs, fn, root);
      Paths(r.0.log) == Paths(q.0) && r.1 == q.1 <==>
        UnbrokenRoot(fs, root) && ReadableRoot(fs, root) && !EntersLinkedRoot(fs, root)
  {
    if IsLink(fs, root) {
      LinkedRoot(fs, fn, root);
      PathsOne(Visit(root, Some(Info(EntryLoc(fs, root).place.loc, false)), None));
      LinkedRootPaths(fs, fn, root);
    } else {
      RootFacts(fs, fn, root);
      if UnbrokenRoot(fs, root) && ReadableRoot(fs, root) {
        SameAsFilepath(fs, fn, fn, root);
      }
    }
  }

  /** The root is a link to a directory that has entries. */
  predicate EntersLinkedRoot(fs: FileSystem, root: Path) {
    && IsLink(fs, root)
    && Stat(fs, root).Found? && Stat(fs, root).info.isDir
    && At(fs.tree, Stat(fs, root).info.loc).value.entries != []
  }

  lemma PathsOne(v: Visit)
    ensures Paths([v]) == [v.path] && Paths([] + [v]) == [v.path]
  {
    assert [v][..0] == [] && [] + [v] == [v];
  }

  lemma {:induction false} LinkedRootPaths(fs: FileSystem, fn: WalkFn, root: Path)
    requires WellFormed(fs) && Agreeable(fn) && IsLink(fs, root)
    ensures var r := Walk(fs, fn, false, root);
      Paths(r.0.log) == [root] && r.1 == Continue <==>
        UnbrokenRoot(fs, root) && ReadableRoot(fs, root) && !EntersLinkedRoot(fs, root)
  {
    match Stat(fs, root) {
      case Error(e) => PathsOne(Visit(root, None, Some(e)));
      case Found(info) =>
        var first := Visit(root, Some(info), None);
        PathsOne(first);
        if info.isDir {
          LinkedDirPaths(fs, fn, root, info, first);
        }
    }
  }

  lemma {:induction false} FirstCall(fs: FileSystem, fn: WalkFn, root: Path, info: Info)
    requires Stat(fs, root) == Found(info)
    ensures var log := Walk(fs, fn, false, root).0.log; log != [] && log[0] == Visit(root, Some(info), None)
    ensures var log := Walk(fs, fn, false, root).0.log; |log| == 1 ==> log == [Visit(root, Some(info), None)]
  {
    var w' := Call(fn, Walked({}, []), Visit(root, Some(info), None)).0;
    assert w'.log == [Visit(root, Some(info), None)];
    assert w'.log <= WalkAt(fs, fn, false, root, info, Walked({}, [])).0.log;
  }

  lemma {:induction false} LinkedDirPaths(fs: FileSystem, fn: WalkFn, root: Path, info: Info, first: Visit)
    requires WellFormed(fs) && Agreeable(fn) && Stat(fs, root) == Found(info) && info.isDir
    requires first == Visit(root, Some(info), None) && Paths([first]) == [root]
    ensures var r, dir := Walk(fs, fn, false, root), At(fs.tree, info.loc).value;
      Paths(r.0.log) == [root] && r.1 == Continue <==> Unbroken(dir) && AllReadable(dir) && dir.entries == []
  {
    var r, dir := Walk(fs, fn, false, root), At(fs.tree, info.loc).value;
    SoundAt(fs.tree, info.loc);
    PlainWalkLists(fs, fn, root, info);
    ReportsLength(r.0.log);
    NoneUnreadable(dir);
    if Unbroken(dir) {
      ListingLength(dir, root);
      assert |r.0.log| == 1 <==> AllReadable(dir) && dir.entries == [];
      FirstCall(fs, fn, root, info);
      assert |Paths(r.0.log)| == |r.0.log|;
    }
  }

  // ------------------------------------------------------------ instances

  lemma OneStepDown(entries: seq<Entry>, l: Loc)
    requires l != []
    ensures l == [l[0]] + l[1..]
    ensures At(Dir(true, entries), l) ==
      match Find(entries, l[0])
      case None => None
      case Some(child) => At(child, l[1..])
    ensures forall child: Node :: !child.Dir? && At(child, l[1..]).Some? ==> l[1..] == []
  {}

  /** A directory whose only entry is a link to itself: filepath.Walk reports it, Walk fails. */
  lemma SelfLink(fn: WalkFn)
    requires forall log :: fn(log) == Continue
    ensures var fs := FileSystem(Dir(true, [Entry("l", Link(Broken("too many links")))]), Root);
      Walk(fs, fn, false, []).1.Fail? && FilepathWalk(fs, fn, []).1 == Continue
  {
    var entries := [Entry("l", Link(Broken("too many links")))];
    var fs := FileSystem(Dir(true, entries), Root);
    assert entries[1..] == [] && Names([]) == [] && At(fs.tree, []) == Some(fs.tree);
    forall d | At(fs.tree, d).Some?
      ensures d == [] || d == ["l"]
    {
      if d != [] {
        OneStepDown(entries, d);
        assert d[0] == "l" && d[1..] == [];
      }
    }
    assert Origin(fs.start).loc == [] && At(fs.tree, ["l"]).Some? ==> At(fs.tree, ["l"]).value == entries[0].node by {
      OneStepDown(entries, ["l"]);
    }
    assert !UnbrokenIn(entries);
    RootFacts(fs, fn, []);
  }

  lemma {:induction false} RootLinkFacts(fs: FileSystem, entries: seq<Entry>, inner: Node)
    requires inner == Dir(true, [Entry("f", File)])
    requires entries == [Entry("l", Link(To(["d"], Absolute))), Entry("d", inner)]
    requires fs == FileSystem(Dir(true, entries), Root)
    ensures WellFormed(fs) && IsLink(fs, ["l"]) && EntryLoc(fs, ["l"]) == Real(Place(Absolute, ["l"]))
    ensures Stat(fs, ["l"]) == Found(Info(["d"], true)) && At(fs.tree, ["d"]) == Some(inner) && Sound(inner)
  {
    assert entries[1..] == [Entry("d", inner)] && [Entry("d", inner)][1..] == [] && inner.entries[1..] == [];
    assert ["l"][..0] == [] && ["l"][1..] == [] && ["d"][1..] == [];
    assert Origin(fs.start).loc == [] && At(fs.tree, []) == Some(fs.tree);
    assert Names([Entry("d", inner)]) == ["d"] && "l" !in ["d"] && Names([]) == [];
    assert SoundIn(inner.entries) && SoundIn([Entry("d", inner)]) && SoundIn(entries);
    OneStepDown(entries, ["l"]);
    OneStepDown(entries, ["d"]);
    forall l | At(fs.tree, l).Some?
      ensures At(fs.tree, l).value.Link? ==> l == ["l"]
    {
      SmallTree(fs.tree, entries, inner, l);
    }
  }

  lemma SmallTree(tree: Node, entries: seq<Entry>, inner: Node, l: Loc)
    requires inner == Dir(true, [Entry("f", File)])
    requires entries == [Entry("l", Link(To(["d"], Absolute))), Entry("d", inner)]
    requires tree == Dir(true, entries) && At(tree, l).Some?
    ensures At(tree, l).value.Link? ==> l == ["l"]
  {
    if l != [] {
      var rest := l[1..];
      OneStepDown(entries, l);
      assert entries[1..] == [Entry("d", inner)] && inner.entries[1..] == [];
      if l[0] == "d" && rest != [] {
        assert At(inner, rest) == if rest[0] == "f" then At(File, rest[1..]) else None;
      }
    }
  }

  /** A root that is a link to a directory with a file: Walk goes in, filepath.Walk does not. */
  lemma RootLink(fn: WalkFn)
    requires forall log :: fn(log) == Continue
    ensures var d := Entry("d", Dir(true, [Entry("f", File)]));
      var fs := FileSystem(Dir(true, [Entry("l", Link(To(["d"], Absolute))), d]), Root);
      Paths(Walk(fs, fn, false, ["l"]).0.log) == [["l"], ["l", "f"]]
      && Paths(FilepathWalk(fs, fn, ["l"]).0) == [["l"]]
  {
    var inner := Dir(true, [Entry("f", File)]);
    var entries := [Entry("l", Link(To(["d"], Absolute))), Entry("d", inner)];
    var fs := FileSystem(Dir(true, entries), Root);
    RootLinkFacts(fs, entries, inner);
    LinkedRoot(fs, fn, ["l"]);
    PathsOne(Visit(["l"], Some(Info(["l"], false)), None));
    RootLinkListed(fs, fn, inner);
    PathsReported(Walk(fs, fn, false, ["l"]).0.log);
  }

  lemma {:induction false} RootLinkListed(fs: FileSystem, fn: WalkFn, inner: Node)
    requires Agreeable(fn) && inner == Dir(true, [Entry("f", File)]) && Sound(inner)
    requires Stat(fs, ["l"]) == Found(Info(["d"], true)) && At(fs.tree, ["d"]) == Some(inner)
    ensures Reports(Walk(fs, fn, false, ["l"]).0.log) == [Report(["l"], false), Report(["l", "f"], false)]
  {
    PlainWalkLists(fs, fn, ["l"], Info(["d"], true));
    assert inner.entries[1..] == [] && ["l"] + ["f"] == ["l", "f"];
    assert ListingIn(inner.entries, ["l"]) == [Report(["l", "f"], false)];
  }

  lemma {:induction false} PathsReported(log: seq<Visit>)
    ensures |Reports(log)| == |log| && forall i :: 0 <= i < |log| ==> Reports(log)[i].path == Paths(log)[i]
  {
    if log != [] {
      PathsReported(log[..|log| - 1]);
    }
  }

  /** A directory that cannot be listed: Walk calls walkFn for it without and then with the error, filepath.Walk
      once with the error. */
  lemma UnreadableDirectory(fn: WalkFn)
    requires Agreeable(fn)
    ensures var fs := FileSystem(Dir(true, [Entry("d", Dir(false, []))]), Root);
      Paths(Walk(fs, fn, false, []).0.log) == [[], ["d"], ["d"]] && Paths(FilepathWalk(fs, fn, []).0) == [[], ["d"]]
  {
    var entries := [Entry("d", Dir(false, []))];
    var fs := FileSystem(Dir(true, entries), Root);
    UnreadableListed(fs, fn, entries);
    PathsReported(Walk(fs, fn, false, []).0.log);
    UnreadablePlain(fs, fn, entries);
  }

  lemma {:induction false} UnreadableFacts(fs: FileSystem, entries: seq<Entry>)
    requires entries == [Entry("d", Dir(false, []))] && fs == FileSystem(Dir(true, entries), Root)
    ensures entries[1..] == [] && Names(entries) == ["d"] && SoundIn(entries)
    ensures Stat(fs, []) == Found(Info([], true)) && At(fs.tree, []) == Some(fs.tree) && At(fs.tree, ["d"]) == Some(Dir(false, []))
    ensures Lstat(fs, []) == Found(Info([], true)) && Lstat(fs, ["d"]) == Found(Info(["d"], true))
  {
    var none: Path := [];
    assert entries[1..] == [] && Names([]) == [] && none + ["d"] == ["d"];
    assert SoundIn([]) && Sound(entries[0].node) && SoundIn(entries[1..]) && entries[0].name !in Names(entries[1..]);
    OneStepDown(entries, ["d"]);
    ChildStat(fs, [], Info([], true), entries[0]);
  }

  lemma {:induction false} UnreadableListed(fs: FileSystem, fn: WalkFn, entries: seq<Entry>)
    requires Agreeable(fn) && entries == [Entry("d", Dir(false, []))] && fs == FileSystem(Dir(true, entries), Root)
    ensures Reports(Walk(fs, fn, false, []).0.log) == [Report([], false), Report(["d"], false), Report(["d"], true)]
  {
    UnreadableFacts(fs, entries);
    PlainWalkLists(fs, fn, [], Info([], true));
    var none: Path := [];
    assert none + ["d"] == ["d"];
    assert ListingIn(entries, []) == [Report(["d"], false), Report(["d"], true)];
  }

  /** A directory with a single entry. */
  lemma {:induction false} OneName(fs: FileSystem, fn: WalkFn, path: Path, info: Info, name: Name, fileInfo: Info, log: seq<Visit>)
    requires Agreeable(fn) && Fits(fs, path, info) && info.isDir && Lstat(fs, path + [name]) == Found(fileInfo)
    ensures Fits(fs, path + [name], fileInfo)
    ensures PlainNames(fs, fn, path, info, [name], log).0 == PlainAt(fs, fn, path + [name], fileInfo, log).0
  {
    LowerChild(fs, path, info, name, fileInfo);
    PlainContinues(fs, fn, path + [name], fileInfo, log);
    assert [name][1..] == [];
  }

  lemma {:induction false} UnreadablePlain(fs: FileSystem, fn: WalkFn, entries: seq<Entry>)
    requires Agreeable(fn) && entries == [Entry("d", Dir(false, []))] && fs == FileSystem(Dir(true, entries), Root)
    ensures Paths(FilepathWalk(fs, fn, []).0) == [[], ["d"]]
  {
    var info, none: Path := Info([], true), [];
    UnreadableFacts(fs, entries);
    assert none + ["d"] == ["d"];
    var v, u := Visit([], Some(info), None), Visit(["d"], Some(Info(["d"], true)), Some(PERMISSION_DENIED));
    OneName(fs, fn, none, info, "d", Info(["d"], true), [v]);
    assert PlainAt(fs, fn, ["d"], Info(["d"], true), [v]).0 == [v] + [u];
    assert [] + [v] == [v] && PlainAt(fs, fn, [], info, []).0 == PlainNames(fs, fn, [], info, Names(entries), [v]).0;
    assert FilepathWalk(fs, fn, []).0 == [v] + [u];
    assert ([v] + [u])[..1] == [v] && [v][..0] == [];
  }

  /** A walkFn that answers with the standard library's SkipDir: filepath.Walk takes it as a request to skip,
      Walk as an error. */
  lemma ForeignSentinel(fs: FileSystem, fn: WalkFn, root: Path)
    requires WellFormed(fs) && !IsLink(fs, root) && Stat(fs, root).Found? && Stat(fs, root).info.isDir
    requires forall log :: fn(log) == LibrarySkipDir
    ensures Walk(fs, fn, false, root).1 == LibrarySkipDir && FilepathWalk(fs, fn, root).1 == Continue
  {}
}
