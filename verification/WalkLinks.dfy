/** How often the walk enters one and the same link: the visited set is keyed by the text of a resolved
    path, and a relative root lets one link have several texts. */
module WalkLinks {
  import opened Options
  import opened WalkSpec
  import opened WalkProofs

  /** No link below is entered twice. */
  ghost predicate EntersOnce(fs: FileSystem, fn: WalkFn, root: Path) {
    var log := Walk(fs, fn, true, root).0.log;
    forall i, j :: 0 <= i < j < |log| && Enters(fs, log[i]) && Enters(fs, log[j]) ==>
      EntryLoc(fs, log[i].path).place.loc != EntryLoc(fs, log[j].path).place.loc
  }

  /** No link changes the spelling that paths start with: the root is absolute, or no link on the way to
      a directory is absolute or climbs above the directory the root is relative to. */
  ghost predicate Steady(fs: FileSystem) {
    forall l :: At(fs.tree, l).Some? && At(fs.tree, l).value.Link? && At(fs.tree, l).value.target.To? ==>
      Respell(Origin(fs.start).spelling, At(fs.tree, l).value.target.via) == Origin(fs.start).spelling
  }

  lemma {:induction false} SteadySpelling(fs: FileSystem, path: Path)
    requires Steady(fs)
    ensures Eval(fs, path).Real? ==> Eval(fs, path).place.spelling == Origin(fs.start).spelling
    ensures EntryLoc(fs, path).Real? ==> EntryLoc(fs, path).place.spelling == Origin(fs.start).spelling
  {
    if path != [] {
      SteadySpelling(fs, path[..|path| - 1]);
      if Eval(fs, path[..|path| - 1]).Real? {
        AtStep(fs.tree, Eval(fs, path[..|path| - 1]).place.loc, path[|path| - 1]);
      }
    }
  }

  /** Where no link changes the spelling, each directory link is entered at most once, by its real
      location. */
  lemma SteadyEntersOnce(fs: FileSystem, fn: WalkFn, root: Path)
    requires Steady(fs)
    ensures EntersOnce(fs, fn, root)
  {
    var log := Walk(fs, fn, true, root).0.log;
    forall i, j | 0 <= i < j < |log| && Enters(fs, log[i]) && Enters(fs, log[j])
      ensures EntryLoc(fs, log[i].path).place.loc != EntryLoc(fs, log[j].path).place.loc
    {
      EachPlaceEnteredOnce(fs, fn, root, i, j);
      SteadySpelling(fs, log[i].path);
      SteadySpelling(fs, log[j].path);
    }
  }

  // ------------------------------------------------------------ exactly the absolute roots

  /** The real tree that has just the directories of `dir`, and `inner` at the end. */
  function Nest(dir: Loc, inner: Node): Node {
    if dir == [] then inner else Dir(true, [Entry(dir[0], Nest(dir[1..], inner))])
  }

  lemma {:induction false} NestAt(dir: Loc, inner: Node)
    ensures At(Nest(dir, inner), dir) == Some(inner)
  {
    if dir != [] {
      NestAt(dir[1..], inner);
    }
  }

  /** The only entry of a directory: an absolute link back to it. */
  function Loop(dir: Loc): Entry { Entry("a", Link(To(dir, Absolute))) }

  function Looped(dir: Loc): FileSystem {
    FileSystem(Nest(dir, Dir(true, [Loop(dir)])), From(dir))
  }

  const ONCE: Path := ["a"]
  const TWICE: Path := ["a", "a"]
  const THRICE: Path := ["a", "a", "a"]

  /** The working directory's own text, and then the absolute one. */
  lemma LoopedPlaces(dir: Loc)
    ensures var fs := Looped(dir);
      && Stat(fs, []) == Found(Info(dir, true)) && !IsLink(fs, [])
      && IsDirLink(fs, ONCE) && EntryLoc(fs, ONCE) == Real(Place(Relative(|dir|), dir + ["a"]))
      && IsDirLink(fs, TWICE) && EntryLoc(fs, TWICE) == Real(Place(Absolute, dir + ["a"]))
      && IsLink(fs, THRICE) && EntryLoc(fs, THRICE) == EntryLoc(fs, TWICE)
      && Stat(fs, ONCE) == Found(Info(dir, true)) && Stat(fs, TWICE) == Found(Info(dir, true))
      && Stat(fs, THRICE) == Found(Info(dir, true))
  {
    var fs := Looped(dir);
    NestAt(dir, Dir(true, [Loop(dir)]));
    AtStep(fs.tree, dir, "a");
    assert ONCE[..0] == [] && TWICE[..1] == ONCE && THRICE[..2] == TWICE;
  }

  lemma LoopedNames(dir: Loc)
    ensures IsDirAt(Looped(dir), dir) && At(Looped(dir).tree, dir).value.readable
    ensures Names(At(Looped(dir).tree, dir).value.entries) == ["a"]
  {
    NestAt(dir, Dir(true, [Loop(dir)]));
    assert [Loop(dir)][1..] == [];
  }

  /** The loop over a single name, which leads to a directory. */
  lemma SoleName(fs: FileSystem, fn: WalkFn, path: Path, info: Info, name: Name, w: Walked)
    requires Fits(fs, path, info) && info.isDir && IsLink(fs, path + [name])
    requires Stat(fs, path + [name]).Found? && Fits(fs, path + [name], Stat(fs, path + [name]).info)
    ensures WalkNames(fs, fn, true, path, info, [name], w).0.log ==
      if EntryLoc(fs, path + [name]).place in w.visited then w.log
      else WalkAt(fs, fn, true, path + [name], Stat(fs, path + [name]).info, w).0.log
  {
    var none: seq<Name> := [];
    assert [name][1..] == none && [name][0] == name;
    var r := WalkAt(fs, fn, true, path + [name], Stat(fs, path + [name]).info, w);
    assert WalkNames(fs, fn, true, path, info, none, w) == (w, Continue);
    assert WalkNames(fs, fn, true, path, info, none, r.0) == (r.0, Continue);
  }

  /** A turn of the walk of the looped directory when the link in it is marked: it ends there. */
  lemma LastTurn(dir: Loc, fn: WalkFn, path: Path, w: Walked)
    requires var fs, info := Looped(dir), Info(dir, true);
      && Fits(fs, path, info) && fn(w.log + [Visit(path, Some(info), None)]) == Continue
      && Stat(fs, path + ["a"]) == Found(info) && Fits(fs, path + ["a"], info)
      && IsLink(fs, path + ["a"]) && EntryLoc(fs, path + ["a"]).place in Mark(fs, true, path, w.visited)
    ensures WalkAt(Looped(dir), fn, true, path, Info(dir, true), w).0.log
         == w.log + [Visit(path, Some(Info(dir, true)), None)]
  {
    LoopedNames(dir);
    var info := Info(dir, true);
    SoleName(Looped(dir), fn, path, info, "a",
             Walked(Mark(Looped(dir), true, path, w.visited), w.log + [Visit(path, Some(info), None)]));
  }

  /** And when it is not: it is entered. */
  lemma NextTurn(dir: Loc, fn: WalkFn, path: Path, w: Walked)
    requires var fs, info := Looped(dir), Info(dir, true);
      && Fits(fs, path, info) && fn(w.log + [Visit(path, Some(info), None)]) == Continue
      && Stat(fs, path + ["a"]) == Found(info) && Fits(fs, path + ["a"], info)
      && IsLink(fs, path + ["a"]) && EntryLoc(fs, path + ["a"]).place !in Mark(fs, true, path, w.visited)
    ensures var fs, info := Looped(dir), Info(dir, true);
      var w' := Walked(Mark(fs, true, path, w.visited), w.log + [Visit(path, Some(info), None)]);
      WalkAt(fs, fn, true, path, info, w).0.log == WalkAt(fs, fn, true, path + ["a"], info, w').0.log
  {
    LoopedNames(dir);
    var info := Info(dir, true);
    SoleName(Looped(dir), fn, path, info, "a",
             Walked(Mark(Looped(dir), true, path, w.visited), w.log + [Visit(path, Some(info), None)]));
  }

  lemma LoopedLog(dir: Loc, fn: WalkFn)
    requires forall log :: fn(log) == Continue
    ensures var info := Info(dir, true);
      Walk(Looped(dir), fn, true, []).0.log ==
        [Visit([], Some(info), None), Visit(ONCE, Some(info), None), Visit(TWICE, Some(info), None)]
  {
    var fs, info := Looped(dir), Info(dir, true);
    LoopedPlaces(dir);
    LoopedNames(dir);
    assert [] + ["a"] == ONCE && ONCE + ["a"] == TWICE && TWICE + ["a"] == THRICE;
    var v0, v1, v2 := Visit([], Some(info), None), Visit(ONCE, Some(info), None), Visit(TWICE, Some(info), None);
    var w1, w2 := Walked({}, [v0]), Walked({EntryLoc(fs, ONCE).place}, [v0, v1]);
    NextTurn(dir, fn, [], Walked({}, []));
    assert [] + [v0] == [v0] && Mark(fs, true, [], {}) == {};
    NextTurn(dir, fn, ONCE, w1);
    assert [v0] + [v1] == [v0, v1] && Mark(fs, true, ONCE, {}) == w2.visited;
    LastTurn(dir, fn, TWICE, w2);
    assert [v0, v1] + [v2] == [v0, v1, v2];
  }

  /** The link is entered as "a" and again as "a/a". */
  lemma LoopedEnteredTwice(dir: Loc, fn: WalkFn)
    requires forall log :: fn(log) == Continue
    ensures !EntersOnce(Looped(dir), fn, [])
  {
    var fs := Looped(dir);
    LoopedPlaces(dir);
    LoopedLog(dir, fn);
    var log := Walk(fs, fn, true, []).0.log;
    assert Enters(fs, log[1]) && Enters(fs, log[2]);
  }

  /** No walk that starts from there enters a link twice. */
  ghost predicate AlwaysOnce(start: Start) {
    forall tree, fn, root :: EntersOnce(FileSystem(tree, start), fn, root)
  }

  /** Each directory link is entered at most once, by its real location, in all trees, with all walk
      functions and by all paths, if and only if the root is absolute. */
  lemma AlwaysOnceIffAbsolute(start: Start)
    ensures AlwaysOnce(start) <==> start.Root?
  {
    if start.Root? {
      AbsoluteAlwaysOnce();
    } else {
      RelativeNotAlwaysOnce(start.dir);
    }
  }

  lemma AbsoluteAlwaysOnce()
    ensures AlwaysOnce(Root)
  {
    forall tree, fn, root
      ensures EntersOnce(FileSystem(tree, Root), fn, root)
    {
      SteadyEntersOnce(FileSystem(tree, Root), fn, root);
    }
  }

  lemma OneWalkDecides(tree: Node, start: Start, fn: WalkFn, root: Path)
    requires !EntersOnce(FileSystem(tree, start), fn, root)
    ensures !AlwaysOnce(start)
  {}

  lemma RelativeNotAlwaysOnce(dir: Loc)
    ensures !AlwaysOnce(From(dir))
  {
    LoopedEnteredTwice(dir, log => Continue);
    OneWalkDecides(Looped(dir).tree, From(dir), log => Continue, []);
  }

  // ------------------------------------------------------------ relative roots

  lemma SpellingsSize(start: Start)
    ensures |Spellings(start)| == if start.Root? then 1 else |start.dir| + 2
  {
    if start.From? {
      var deep := set b | 0 <= b <= |start.dir| :: Relative(b);
      RelativesSize(|start.dir|);
      assert Spellings(start) == {Absolute} + deep;
    }
  }

  lemma {:induction false} RelativesSize(n: nat)
    ensures |set b | 0 <= b <= n :: Relative(b)| == n + 1
  {
    var all := set b | 0 <= b <= n :: Relative(b);
    if n == 0 {
      assert all == {Relative(0)};
    } else {
      RelativesSize(n - 1);
      var less := set b | 0 <= b <= n - 1 :: Relative(b);
      assert all == less + {Relative(n)};
    }
  }

  /** Distinct spellings for distinct members make the set at most as large. */
  lemma {:induction false} NoMoreThan(s: set<nat>, f: nat -> Spelling, t: set<Spelling>)
    requires forall i :: i in s ==> f(i) in t
    requires forall i, j :: i in s && j in s && i != j ==> f(i) != f(j)
    ensures |s| <= |t|
  {
    if |s| > 0 {
      var i :| i in s;
      NoMoreThan(s - {i}, f, t - {f(i)});
    }
  }

  /** From a relative root a directory link is entered at most once for each ancestor of the starting
      directory, the directory itself, and the root as an absolute start. */
  lemma EntriesAreBounded(fs: FileSystem, fn: WalkFn, root: Path, l: Loc, entries: set<nat>)
    requires var log := Walk(fs, fn, true, root).0.log;
      forall i :: i in entries ==> i < |log| && Enters(fs, log[i]) && EntryLoc(fs, log[i].path).place.loc == l
    ensures |entries| <= if fs.start.Root? then 1 else |fs.start.dir| + 2
  {
    var log := Walk(fs, fn, true, root).0.log;
    var f: nat -> Spelling := (i: nat) =>
      if i < |log| && EntryLoc(fs, log[i].path).Real? then EntryLoc(fs, log[i].path).place.spelling else Absolute;
    forall i | i in entries
      ensures f(i) in Spellings(fs.start)
    {
      EvalSpelling(fs, log[i].path);
    }
    forall i, j | i in entries && j in entries && i != j
      ensures f(i) != f(j)
    {
      EachPlaceEnteredOnce(fs, fn, root, if i < j then i else j, if i < j then j else i);
    }
    NoMoreThan(entries, f, Spellings(fs.start));
    SpellingsSize(fs.start);
  }
}
