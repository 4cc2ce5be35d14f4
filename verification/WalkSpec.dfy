/** A static file system and the symlink-following walk over it. */
module WalkSpec {
  import opened Options

  type Name = string
  type Err = string

  /** A real location: names from the root of the file system, through real directories only. */
  type Loc = seq<Name>

  /** A path as the caller writes it: it may lead through links. */
  type Path = seq<Name>

  /** How a resolved path is written: from the root, or relative to the working directory, with as many
      ".." as it takes to get up to its ancestor at this depth. */
  datatype Spelling = Absolute | Relative(depth: nat)

  /** A resolved path as text: two places are the same text exactly if they are equal. */
  datatype Place = Place(spelling: Spelling, loc: Loc)

  /** Where a link leads in the end: to a real location that is not a link, nowhere, or to an error
      such as too many links. `via` is Absolute if an absolute link is on the way, and otherwise the depth
      of the highest directory that the relative links on the way climb to. */
  datatype Target = To(loc: Loc, via: Spelling) | Missing | Broken(error: Err)

  /** A directory lists its entries in the order of readDirNames. */
  datatype Node = File | Link(target: Target) | Dir(readable: bool, entries: seq<Entry>)
  datatype Entry = Entry(name: Name, node: Node)

  /** What the names of a path start from: the root, or the working directory or an ancestor of it. */
  datatype Start = Root | From(dir: Loc)

  datatype FileSystem = FileSystem(tree: Node, start: Start)

  // ------------------------------------------------------------ looking things up

  function Find(entries: seq<Entry>, name: Name): (node: Option<Node>)
    ensures node.Some? ==> exists i :: 0 <= i < |entries| && entries[i] == Entry(name, node.value)
    ensures node.Some? ==> Highest(entries) >= Height(node.value)
  {
    if entries == [] then None
    else if entries[0].name == name then Some(entries[0].node)
    else Find(entries[1..], name)
  }

  function At(node: Node, loc: Loc): Option<Node>
    decreases |loc|
  {
    if loc == [] then Some(node)
    else if !node.Dir? then None
    else match Find(node.entries, loc[0])
      case None => None
      case Some(child) => At(child, loc[1..])
  }

  function Height(node: Node): nat {
    match node
    case Dir(_, entries) => 1 + Highest(entries)
    case _ => 0
  }

  function Highest(entries: seq<Entry>): nat {
    if entries == [] then 0
    else
      var h := Height(entries[0].node);
      var r := Highest(entries[1..]);
      if h > r then h else r
  }

  lemma {:induction false} AtStep(node: Node, d: Loc, name: Name)
    ensures At(node, d + [name]) ==
      match At(node, d)
      case Some(Dir(_, entries)) => Find(entries, name)
      case _ => None
  {
    if d == [] {
      assert (d + [name])[1..] == [];
    } else {
      assert (d + [name])[1..] == d[1..] + [name];
      if node.Dir? {
        match Find(node.entries, d[0]) {
          case None =>
          case Some(child) => AtStep(child, d[1..], name);
        }
      }
    }
  }

  // ------------------------------------------------------------ links

  /** The locations of all links below a node that is at `prefix`. */
  function Links(node: Node, prefix: Loc): set<Loc> {
    match node
    case File => {}
    case Link(_) => {prefix}
    case Dir(_, entries) => LinksIn(entries, prefix)
  }

  function LinksIn(entries: seq<Entry>, prefix: Loc): set<Loc> {
    if entries == [] then {}
    else Links(entries[0].node, prefix + [entries[0].name]) + LinksIn(entries[1..], prefix)
  }

  lemma {:induction false} LinksHave(node: Node, prefix: Loc, loc: Loc)
    requires At(node, loc).Some? && At(node, loc).value.Link?
    ensures prefix + loc in Links(node, prefix)
    decreases |loc|
  {
    if loc == [] {
      assert prefix + loc == prefix;
    } else {
      var child := Find(node.entries, loc[0]).value;
      LinksHave(child, prefix + [loc[0]], loc[1..]);
      assert prefix + [loc[0]] + loc[1..] == prefix + loc;
      LinksInHave(node.entries, prefix, loc[0], prefix + loc);
    }
  }

  lemma {:induction false} LinksInHave(entries: seq<Entry>, prefix: Loc, name: Name, l: Loc)
    requires Find(entries, name).Some? && l in Links(Find(entries, name).value, prefix + [name])
    ensures l in LinksIn(entries, prefix)
  {
    if entries[0].name != name {
      LinksInHave(entries[1..], prefix, name, l);
    }
  }

  // ------------------------------------------------------------ the queries of the walk

  datatype Resolved = Real(place: Place) | NotFound | Failed(error: Err)

  const NOT_A_DIRECTORY := "not a directory"
  const PERMISSION_DENIED := "permission denied"
  const NOT_EXIST := "no such file or directory"

  function Origin(start: Start): Place {
    match start
    case Root => Place(Absolute, [])
    case From(dir) => Place(Relative(|dir|), dir)
  }

  /** The spelling after a link: an absolute one is for good, and ".." is never taken back. */
  function Respell(s: Spelling, via: Spelling): Spelling {
    if s.Absolute? || via.Absolute? then Absolute
    else if via.depth < s.depth then via
    else s
  }

  /** filepath.EvalSymlinks. */
  function Eval(fs: FileSystem, path: Path): Resolved {
    if path == [] then Real(Origin(fs.start))
    else match Eval(fs, path[..|path| - 1])
      case Real(d) =>
        (match At(fs.tree, d.loc)
         case Some(Dir(_, entries)) =>
           (match Find(entries, path[|path| - 1])
            case None => NotFound
            case Some(Link(To(t, via))) => Real(Place(Respell(d.spelling, via), t))
            case Some(Link(Missing)) => NotFound
            case Some(Link(Broken(e))) => Failed(e)
            case Some(_) => Real(d.(loc := d.loc + [path[|path| - 1]])))
         case _ => Failed(NOT_A_DIRECTORY))
      case other => other
  }

  /** evalPathOfSymlink: the place of the entry the path names, the entry itself not followed. */
  function EntryLoc(fs: FileSystem, path: Path): Resolved {
    if path == [] then Real(Origin(fs.start))
    else match Eval(fs, path[..|path| - 1])
      case Real(d) => Real(d.(loc := d.loc + [path[|path| - 1]]))
      case other => other
  }

  /** The spellings that can come up. */
  function Spellings(start: Start): set<Spelling> {
    match start
    case Root => {Absolute}
    case From(dir) => {Absolute} + set b | 0 <= b <= |dir| :: Relative(b)
  }

  lemma {:induction false} EvalSpelling(fs: FileSystem, path: Path)
    ensures Eval(fs, path).Real? ==> Eval(fs, path).place.spelling in Spellings(fs.start)
    ensures EntryLoc(fs, path).Real? ==> EntryLoc(fs, path).place.spelling in Spellings(fs.start)
  {
    if path != [] {
      EvalSpelling(fs, path[..|path| - 1]);
    }
  }

  /** os.FileInfo: which real entry, and whether a directory. */
  datatype Info = Info(loc: Loc, isDir: bool)
  datatype Stated = Found(info: Info) | Error(error: Err)

  predicate IsDirAt(fs: FileSystem, loc: Loc) {
    At(fs.tree, loc).Some? && At(fs.tree, loc).value.Dir?
  }

  /** IsPathSymlink. */
  predicate IsLink(fs: FileSystem, path: Path) {
    && EntryLoc(fs, path).Real?
    && At(fs.tree, EntryLoc(fs, path).place.loc).Some?
    && At(fs.tree, EntryLoc(fs, path).place.loc).value.Link?
  }

  /** os.Stat. */
  function Stat(fs: FileSystem, path: Path): Stated {
    match Eval(fs, path)
    case Real(place) => Found(Info(place.loc, IsDirAt(fs, place.loc)))
    case NotFound => Error(NOT_EXIST)
    case Failed(e) => Error(e)
  }

  /** os.Lstat. */
  function Lstat(fs: FileSystem, path: Path): Stated {
    if IsLink(fs, path) then Found(Info(EntryLoc(fs, path).place.loc, false)) else Stat(fs, path)
  }

  // ------------------------------------------------------------ the walk

  /** What walkFn returns: nil, ErrSkipDir, the standard library's SkipDir or SkipAll, which mean nothing to
      walk, or another error. */
  datatype Verdict = Continue | SkipDir | LibrarySkipDir | LibrarySkipAll | Fail(error: Err)

  /** One call of walkFn. */
  datatype Visit = Visit(path: Path, info: Option<Info>, error: Option<Err>)

  /** walkFn may keep state: its answer is a function of all its calls so far. */
  type WalkFn = seq<Visit> -> Verdict

  /** visitedDirSymlinks, whose keys are texts, and the calls of walkFn so far. */
  datatype Walked = Walked(visited: set<Place>, log: seq<Visit>)

  /** What walk returns, with Continue for nil. */
  type Result = (Walked, Verdict)

  function Call(fn: WalkFn, w: Walked, v: Visit): Result {
    (w.(log := w.log + [v]), fn(w.log + [v]))
  }

  /** The path is a link to a directory. */
  predicate IsDirLink(fs: FileSystem, path: Path) {
    IsLink(fs, path) && Eval(fs, path).Real? && IsDirAt(fs, Eval(fs, path).place.loc)
  }

  /** The visited set as walk leaves it after its first lines. */
  function Mark(fs: FileSystem, follow: bool, path: Path, visited: set<Place>): set<Place> {
    if follow && IsDirLink(fs, path) then visited + {EntryLoc(fs, path).place} else visited
  }

  /** The file info belongs to the path. */
  predicate Fits(fs: FileSystem, path: Path, info: Info) {
    info.isDir ==> Eval(fs, path).Real? && Eval(fs, path).place.loc == info.loc && IsDirAt(fs, info.loc)
  }

  /** The keys visitedDirSymlinks can have. */
  function Keys(fs: FileSystem): set<Place> {
    set s, l | s in Spellings(fs.start) && l in Links(fs.tree, []) :: Place(s, l)
  }

  function Unvisited(fs: FileSystem, visited: set<Place>): nat {
    |Keys(fs) - visited|
  }

  function InfoHeight(fs: FileSystem, info: Info): nat {
    if info.isDir && At(fs.tree, info.loc).Some? then Height(At(fs.tree, info.loc).value) else 0
  }

  lemma UnvisitedMonotone(fs: FileSystem, a: set<Place>, b: set<Place>)
    requires a <= b
    ensures Unvisited(fs, b) <= Unvisited(fs, a)
  {
    SubsetSize(Keys(fs) - b, Keys(fs) - a);
  }

  lemma SubsetSize<T>(a: set<T>, b: set<T>)
    requires a <= b
    ensures |a| <= |b|
  {
    assert b == a + (b - a);
  }

  /** Marking a link that was not visited leaves fewer unvisited ones. */
  lemma MarkLowers(fs: FileSystem, path: Path, visited: set<Place>)
    requires IsDirLink(fs, path) && EntryLoc(fs, path).place !in visited
    ensures Unvisited(fs, Mark(fs, true, path, visited)) < Unvisited(fs, visited)
  {
    var p := EntryLoc(fs, path).place;
    EvalSpelling(fs, path);
    LinksHave(fs.tree, [], p.loc);
    assert [] + p.loc == p.loc;
    var before, after := Keys(fs) - visited, Keys(fs) - (visited + {p});
    assert before == after + {p} && p !in after;
  }

  /** A child of a directory: its entry location, and how high it is. */
  lemma ChildFacts(fs: FileSystem, path: Path, info: Info, name: Name)
    requires Fits(fs, path, info) && info.isDir
    ensures EntryLoc(fs, path + [name]) == Real(Place(Eval(fs, path).place.spelling, info.loc + [name]))
    ensures At(fs.tree, info.loc + [name]) == Find(At(fs.tree, info.loc).value.entries, name)
    ensures !IsLink(fs, path + [name]) && Stat(fs, path + [name]).Found? ==>
      Stat(fs, path + [name]).info.loc == info.loc + [name]
      && InfoHeight(fs, Stat(fs, path + [name]).info) < InfoHeight(fs, info)
  {
    assert (path + [name])[..|path|] == path;
    AtStep(fs.tree, info.loc, name);
  }

  function StatFor(fs: FileSystem, follow: bool, path: Path): Stated {
    if follow then Stat(fs, path) else Lstat(fs, path)
  }

  function Names(entries: seq<Entry>): seq<Name> {
    if entries == [] then [] else [entries[0].name] + Names(entries[1..])
  }

  /** walk. The measure: directory links not yet visited once this one is, then the height of the
      real directory. */
  function WalkAt(fs: FileSystem, fn: WalkFn, follow: bool, path: Path, info: Info, w: Walked): (r: Result)
    requires Fits(fs, path, info)
    ensures w.visited <= r.0.visited && w.log <= r.0.log
    decreases Unvisited(fs, Mark(fs, follow, path, w.visited)), InfoHeight(fs, info), 1, 0
  {
    var target := Eval(fs, path);
    if target.Failed? then (w, Fail(target.error))
    else
      var (w', verdict) := Call(fn, w.(visited := Mark(fs, follow, path, w.visited)), Visit(path, Some(info), None));
      if !verdict.Continue? then (w', if info.isDir && verdict.SkipDir? then Continue else verdict)
      else if !info.isDir then (w', Continue)
      else
        var dir := At(fs.tree, info.loc).value;
        if !dir.readable then Call(fn, w', Visit(path, Some(info), Some(PERMISSION_DENIED)))
        else WalkNames(fs, fn, follow, path, info, Names(dir.entries), w')
  }

  /** The loop of walk over the names of a directory. */
  function WalkNames(fs: FileSystem, fn: WalkFn, follow: bool, path: Path, info: Info, names: seq<Name>, w: Walked): (r: Result)
    requires Fits(fs, path, info) && info.isDir
    ensures w.visited <= r.0.visited && w.log <= r.0.log
    decreases Unvisited(fs, w.visited), InfoHeight(fs, info), 0, |names|
  {
    if names == [] then (w, Continue)
    else
      var file := path + [names[0]];
      ChildFacts(fs, path, info, names[0]);
      if follow && IsLink(fs, file) && EntryLoc(fs, file).place in w.visited then
        WalkNames(fs, fn, follow, path, info, names[1..], w)
      else match StatFor(fs, follow, file)
        case Error(e) =>
          var (w', verdict) := Call(fn, w, Visit(file, None, Some(e)));
          if verdict.Continue? || verdict.SkipDir? then WalkNames(fs, fn, follow, path, info, names[1..], w')
          else (w', verdict)
        case Found(fileInfo) =>
          ChildMeasure(fs, follow, path, info, names[0], fileInfo, w.visited);
          var (w', verdict) := WalkAt(fs, fn, follow, file, fileInfo, w);
          UnvisitedMonotone(fs, w.visited, w'.visited);
          if verdict.Continue? || (fileInfo.isDir && verdict.SkipDir?) then
            WalkNames(fs, fn, follow, path, info, names[1..], w')
          else (w', verdict)
  }

  /** The walk of a child is smaller: it is a link to be marked now, or a lower directory. */
  lemma ChildMeasure(fs: FileSystem, follow: bool, path: Path, info: Info, name: Name, fileInfo: Info, visited: set<Place>)
    requires Fits(fs, path, info) && info.isDir
    requires StatFor(fs, follow, path + [name]) == Found(fileInfo)
    requires !(follow && IsLink(fs, path + [name]) && EntryLoc(fs, path + [name]).place in visited)
    ensures Fits(fs, path + [name], fileInfo)
    ensures Unvisited(fs, Mark(fs, follow, path + [name], visited)) <= Unvisited(fs, visited)
    ensures Unvisited(fs, Mark(fs, follow, path + [name], visited)) < Unvisited(fs, visited)
      || InfoHeight(fs, fileInfo) < InfoHeight(fs, info)
  {
    var file := path + [name];
    ChildFacts(fs, path, info, name);
    UnvisitedMonotone(fs, visited, Mark(fs, follow, file, visited));
    if follow && IsDirLink(fs, file) {
      MarkLowers(fs, file, visited);
    }
  }

  /** Walk. */
  function Walk(fs: FileSystem, fn: WalkFn, follow: bool, root: Path): Result {
    var w := Walked({}, []);
    match Stat(fs, root)
    case Error(e) => Call(fn, w, Visit(root, None, Some(e)))
    case Found(info) => WalkAt(fs, fn, follow, root, info, w)
  }
}
