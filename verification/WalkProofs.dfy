/** The walk enters each directory link once and, when nothing goes wrong, calls walkFn for
    every entry of every directory that can be reached. */
module WalkProofs {
  import opened Options
  import opened WalkSpec

  // ------------------------------------------------------------ each directory link once

  /** This call of walkFn enters a directory through a link. */
  predicate Enters(fs: FileSystem, v: Visit) {
    v.error.None? && IsDirLink(fs, v.path)
  }

  /** Every directory link entered so far is marked, and none was entered twice. */
  ghost predicate EnteredOnce(fs: FileSystem, w: Walked) {
    && (forall i :: 0 <= i < |w.log| && Enters(fs, w.log[i]) ==> EntryLoc(fs, w.log[i].path).place in w.visited)
    && (forall i, j :: 0 <= i < j < |w.log| && Enters(fs, w.log[i]) && Enters(fs, w.log[j]) ==>
          EntryLoc(fs, w.log[i].path) != EntryLoc(fs, w.log[j].path))
  }

  /** A call that enters no link, and a call that enters one marked just before. */
  lemma CallEntersOnce(fs: FileSystem, fn: WalkFn, w: Walked, v: Visit, follow: bool)
    requires EnteredOnce(fs, w)
    requires Enters(fs, v) ==> follow && EntryLoc(fs, v.path).place !in w.visited
    ensures EnteredOnce(fs, Call(fn, w.(visited := Mark(fs, follow, v.path, w.visited)), v).0)
    ensures !Enters(fs, v) ==> EnteredOnce(fs, Call(fn, w, v).0)
  {}

  lemma {:induction false} WalkAtEntersOnce(fs: FileSystem, fn: WalkFn, path: Path, info: Info, w: Walked)
    requires Fits(fs, path, info) && EnteredOnce(fs, w)
    requires IsDirLink(fs, path) ==> EntryLoc(fs, path).place !in w.visited
    ensures EnteredOnce(fs, WalkAt(fs, fn, true, path, info, w).0)
    decreases Unvisited(fs, Mark(fs, true, path, w.visited)), InfoHeight(fs, info), 1, 0
  {
    if !Eval(fs, path).Failed? {
      CallEntersOnce(fs, fn, w, Visit(path, Some(info), None), true);
      var (w', verdict) := Call(fn, w.(visited := Mark(fs, true, path, w.visited)), Visit(path, Some(info), None));
      if verdict.Continue? && info.isDir {
        if At(fs.tree, info.loc).value.readable {
          WalkNamesEntersOnce(fs, fn, path, info, Names(At(fs.tree, info.loc).value.entries), w');
        } else {
          CallEntersOnce(fs, fn, w', Visit(path, Some(info), Some(PERMISSION_DENIED)), true);
        }
      }
    }
  }

  lemma {:induction false} WalkNamesEntersOnce(fs: FileSystem, fn: WalkFn, path: Path, info: Info, names: seq<Name>, w: Walked)
    requires Fits(fs, path, info) && info.isDir && EnteredOnce(fs, w)
    ensures EnteredOnce(fs, WalkNames(fs, fn, true, path, info, names, w).0)
    decreases Unvisited(fs, w.visited), InfoHeight(fs, info), 0, |names|
  {
    if names != [] {
      var file := path + [names[0]];
      ChildFacts(fs, path, info, names[0]);
      if IsLink(fs, file) && EntryLoc(fs, file).place in w.visited {
        WalkNamesEntersOnce(fs, fn, path, info, names[1..], w);
      } else {
        match Stat(fs, file) {
          case Error(e) =>
            var v := Visit(file, None, Some(e));
            CallEntersOnce(fs, fn, w, v, true);
            WalkNamesEntersOnce(fs, fn, path, info, names[1..], Call(fn, w, v).0);
          case Found(fileInfo) =>
            ChildMeasure(fs, true, path, info, names[0], fileInfo, w.visited);
            WalkAtEntersOnce(fs, fn, file, fileInfo, w);
            var w' := WalkAt(fs, fn, true, file, fileInfo, w).0;
            UnvisitedMonotone(fs, w.visited, w'.visited);
            WalkNamesEntersOnce(fs, fn, path, info, names[1..], w');
        }
      }
    }
  }

  /** Walking into links, walkFn is called at most once with each text that evalPathOfSymlink gives for a
      link to a directory, whatever walkFn answers and however the links are knotted. */
  lemma EachPlaceEnteredOnce(fs: FileSystem, fn: WalkFn, root: Path, i: nat, j: nat)
    requires var log := Walk(fs, fn, true, root).0.log;
      i < j < |log| && Enters(fs, log[i]) && Enters(fs, log[j])
    ensures var log := Walk(fs, fn, true, root).0.log;
      EntryLoc(fs, log[i].path) != EntryLoc(fs, log[j].path)
  {
    var w := Walked({}, []);
    if Stat(fs, root).Found? {
      WalkAtEntersOnce(fs, fn, root, Stat(fs, root).info, w);
    }
  }

  // ------------------------------------------------------------ coverage

  /** walkFn was called with a path that names the entry at this place. */
  ghost predicate Called(fs: FileSystem, log: seq<Visit>, p: Place) {
    exists v :: v in log && EntryLoc(fs, v.path) == Real(p)
  }

  /** walkFn was called, without an error, with a path that names the entry at this place. */
  ghost predicate Entered(fs: FileSystem, log: seq<Visit>, p: Place) {
    exists v :: v in log && v.error.None? && EntryLoc(fs, v.path) == Real(p)
  }

  /** walkFn was called for the real directory at this place, and the walk went into it. */
  ghost predicate Opened(fs: FileSystem, log: seq<Visit>, d: Place) {
    exists v :: v in log && v.error.None? && v.info == Some(Info(d.loc, true)) && Eval(fs, v.path) == Real(d)
  }

  function Child(d: Place, name: Name): Place { d.(loc := d.loc + [name]) }

  /** The directory an entry leads to: itself, or the target of a link. */
  function Leads(fs: FileSystem, d: Place, name: Name): Option<Place> {
    match At(fs.tree, d.loc + [name])
    case Some(Dir(_, _)) => Some(Child(d, name))
    case Some(Link(To(t, via))) => if IsDirAt(fs, t) then Some(Place(Respell(d.spelling, via), t)) else None
    case _ => None
  }

  /** The entry was reported, and the directory it leads to was entered. */
  ghost predicate EntryDone(fs: FileSystem, log: seq<Visit>, d: Place, name: Name) {
    && Called(fs, log, Child(d, name))
    && (Leads(fs, d, name).Some? ==>
          Opened(fs, log, Leads(fs, d, name).value) && Entered(fs, log, Child(d, name)))
  }

  ghost predicate NamesDone(fs: FileSystem, log: seq<Visit>, d: Place, names: seq<Name>) {
    forall i :: 0 <= i < |names| ==> EntryDone(fs, log, d, names[i])
  }

  /** The names in a directory that can be listed. */
  function NamesAt(fs: FileSystem, d: Loc): seq<Name> {
    if IsDirAt(fs, d) && At(fs.tree, d).value.readable then Names(At(fs.tree, d).value.entries) else []
  }

  /** Every directory entered after `before` has all its entries done. */
  ghost predicate NewDone(fs: FileSystem, before: seq<Visit>, log: seq<Visit>) {
    forall d :: Opened(fs, log, d) && !Opened(fs, before, d) ==> NamesDone(fs, log, d, NamesAt(fs, d.loc))
  }

  /** What skipping relies on: a marked link was entered, and so was the directory behind it. */
  ghost predicate MarkedDone(fs: FileSystem, w: Walked) {
    forall p :: p in w.visited ==>
      && Entered(fs, w.log, p)
      && At(fs.tree, p.loc).Some? && At(fs.tree, p.loc).value.Link? && At(fs.tree, p.loc).value.target.To?
      && var target := At(fs.tree, p.loc).value.target;
         Opened(fs, w.log, Place(Respell(p.spelling, target.via), target.loc))
  }

  /** walkFn reports no error and never asks to skip. */
  ghost predicate Agreeable(fn: WalkFn) {
    forall log :: fn(log) == Continue
  }

  lemma Extend(fs: FileSystem, log: seq<Visit>, more: seq<Visit>)
    requires log <= more
    ensures forall p :: Called(fs, log, p) ==> Called(fs, more, p)
    ensures forall p :: Entered(fs, log, p) ==> Entered(fs, more, p)
    ensures forall d :: Opened(fs, log, d) ==> Opened(fs, more, d)
  {
    assert forall v :: v in log ==> v in more;
  }

  lemma ExtendNames(fs: FileSystem, log: seq<Visit>, more: seq<Visit>, d: Place, names: seq<Name>)
    requires log <= more && NamesDone(fs, log, d, names)
    ensures NamesDone(fs, more, d, names)
  {
    Extend(fs, log, more);
    forall i | 0 <= i < |names|
      ensures EntryDone(fs, more, d, names[i])
    {
      assert EntryDone(fs, log, d, names[i]);
    }
  }

  /** New directories of two stretches are done. */
  lemma JoinNew(fs: FileSystem, a: seq<Visit>, b: seq<Visit>, c: seq<Visit>)
    requires a <= b <= c && NewDone(fs, a, b) && NewDone(fs, b, c)
    ensures NewDone(fs, a, c)
  {
    forall d | Opened(fs, c, d) && !Opened(fs, a, d)
      ensures NamesDone(fs, c, d, NamesAt(fs, d.loc))
    {
      if Opened(fs, b, d) {
        ExtendNames(fs, b, c, d, NamesAt(fs, d.loc));
      }
    }
  }

  lemma JoinNames(fs: FileSystem, log: seq<Visit>, more: seq<Visit>, d: Place, names: seq<Name>)
    requires log <= more && names != [] && EntryDone(fs, log, d, names[0]) && NamesDone(fs, more, d, names[1..])
    ensures NamesDone(fs, more, d, names)
  {
    Extend(fs, log, more);
    forall i | 0 <= i < |names|
      ensures EntryDone(fs, more, d, names[i])
    {
      if i > 0 {
        assert names[i] == names[1..][i - 1];
      }
    }
  }

  /** What a stretch of the walk achieves, apart from its own entry. */
  ghost predicate Achieves(fs: FileSystem, w: Walked, r: Result) {
    w.log <= r.0.log && r.1 == Continue && MarkedDone(fs, r.0) && NewDone(fs, w.log, r.0.log)
  }

  /** The call of walkFn for an entry that can be stat'ed. */
  lemma VisitDone(fs: FileSystem, fn: WalkFn, path: Path, info: Info, w: Walked) returns (w': Walked)
    requires Agreeable(fn) && MarkedDone(fs, w)
    requires Stat(fs, path) == Found(info)
    ensures w' == Call(fn, w.(visited := Mark(fs, true, path, w.visited)), Visit(path, Some(info), None)).0
    ensures w.log <= w'.log && MarkedDone(fs, w')
    ensures EntryLoc(fs, path).Real? && Entered(fs, w'.log, EntryLoc(fs, path).place)
    ensures info.isDir ==> Opened(fs, w'.log, Eval(fs, path).place)
    ensures forall d :: Opened(fs, w'.log, d) && !Opened(fs, w.log, d) ==> info.isDir && Eval(fs, path) == Real(d)
  {
    var v := Visit(path, Some(info), None);
    w' := Call(fn, w.(visited := Mark(fs, true, path, w.visited)), v).0;
    assert w'.log == w.log + [v];
    assert v in w'.log;
    Extend(fs, w.log, w'.log);
    if path != [] {
      EvalParent(fs, path);
    }
  }

  /** A path that resolves has a parent that resolves to a directory holding the entry. */
  lemma EvalParent(fs: FileSystem, path: Path)
    requires path != [] && Eval(fs, path).Real?
    ensures EntryLoc(fs, path).Real?
    ensures IsLink(fs, path) ==>
      var p := EntryLoc(fs, path).place; var node := At(fs.tree, p.loc).value;
      node.target.To? && Eval(fs, path).place == Place(Respell(p.spelling, node.target.via), node.target.loc)
  {
    AtStep(fs.tree, Eval(fs, path[..|path| - 1]).place.loc, path[|path| - 1]);
  }

  lemma {:induction false} WalkAtCovers(fs: FileSystem, fn: WalkFn, path: Path, info: Info, w: Walked)
    requires Agreeable(fn) && MarkedDone(fs, w) && Stat(fs, path) == Found(info)
    ensures var r := WalkAt(fs, fn, true, path, info, w);
      Achieves(fs, w, r) && EntryLoc(fs, path).Real? && Entered(fs, r.0.log, EntryLoc(fs, path).place)
      && (info.isDir ==> Opened(fs, r.0.log, Eval(fs, path).place))
    decreases Unvisited(fs, Mark(fs, true, path, w.visited)), InfoHeight(fs, info), 1, 0
  {
    var w1 := VisitDone(fs, fn, path, info, w);
    if info.isDir {
      var r := WalkAt(fs, fn, true, path, info, w);
      if At(fs.tree, info.loc).value.readable {
        WalkNamesCovers(fs, fn, path, info, NamesAt(fs, info.loc), w1);
      } else {
        ErrorDone(fs, w1, r.0, Visit(path, Some(info), Some(PERMISSION_DENIED)));
      }
      Extend(fs, w1.log, r.0.log);
      OpenedOne(fs, w.log, w1.log, r.0.log, Eval(fs, path).place);
    }
  }

  /** One more directory was opened, and it is done in the end. */
  lemma OpenedOne(fs: FileSystem, a: seq<Visit>, b: seq<Visit>, c: seq<Visit>, d: Place)
    requires forall e :: Opened(fs, b, e) && !Opened(fs, a, e) ==> e == d
    requires NewDone(fs, b, c) && NamesDone(fs, c, d, NamesAt(fs, d.loc))
    ensures NewDone(fs, a, c)
  {}

  lemma {:induction false} WalkNamesCovers(fs: FileSystem, fn: WalkFn, path: Path, info: Info, names: seq<Name>, w: Walked)
    requires Agreeable(fn) && MarkedDone(fs, w) && Fits(fs, path, info) && info.isDir
    ensures var r := WalkNames(fs, fn, true, path, info, names, w);
      Achieves(fs, w, r) && NamesDone(fs, r.0.log, Eval(fs, path).place, names)
    decreases Unvisited(fs, w.visited), InfoHeight(fs, info), 0, |names|
  {
    if names != [] {
      var r := WalkNames(fs, fn, true, path, info, names, w);
      var w1 := NameCovers(fs, fn, path, info, names, w);
      WalkNamesCovers(fs, fn, path, info, names[1..], w1);
      assert r == WalkNames(fs, fn, true, path, info, names[1..], w1);
      JoinNew(fs, w.log, w1.log, r.0.log);
      JoinNames(fs, w1.log, r.0.log, Eval(fs, path).place, names);
    }
  }

  /** A call of walkFn with an error enters nothing. */
  lemma ErrorDone(fs: FileSystem, w: Walked, w1: Walked, v: Visit)
    requires MarkedDone(fs, w) && v.error.Some? && w1 == w.(log := w.log + [v])
    ensures MarkedDone(fs, w1) && NewDone(fs, w.log, w1.log)
    ensures EntryLoc(fs, v.path).Real? ==> Called(fs, w1.log, EntryLoc(fs, v.path).place)
  {
    assert v in w1.log;
    Extend(fs, w.log, w1.log);
  }

  /** One turn of the loop. */
  lemma {:induction false} NameCovers(fs: FileSystem, fn: WalkFn, path: Path, info: Info, names: seq<Name>, w: Walked)
    returns (w1: Walked)
    requires Agreeable(fn) && MarkedDone(fs, w) && Fits(fs, path, info) && info.isDir && names != []
    ensures WalkNames(fs, fn, true, path, info, names, w) == WalkNames(fs, fn, true, path, info, names[1..], w1)
    ensures w.visited <= w1.visited && Unvisited(fs, w1.visited) <= Unvisited(fs, w.visited)
    ensures Achieves(fs, w, (w1, Continue)) && EntryDone(fs, w1.log, Eval(fs, path).place, names[0])
    decreases Unvisited(fs, w.visited), InfoHeight(fs, info), 0, |names|, 0
  {
    var file, d := path + [names[0]], Eval(fs, path).place;
    ChildFacts(fs, path, info, names[0]);
    ChildLeads(fs, path, info, names[0]);
    if IsLink(fs, file) && EntryLoc(fs, file).place in w.visited {
      w1 := w;
    } else {
      match Stat(fs, file) {
        case Error(e) =>
          w1 := Call(fn, w, Visit(file, None, Some(e))).0;
          ErrorDone(fs, w, w1, Visit(file, None, Some(e)));
        case Found(fileInfo) =>
          ChildMeasure(fs, true, path, info, names[0], fileInfo, w.visited);
          WalkAtCovers(fs, fn, file, fileInfo, w);
          w1 := WalkAt(fs, fn, true, file, fileInfo, w).0;
          UnvisitedMonotone(fs, w.visited, w1.visited);
      }
    }
  }

  /** Where a child leads is where its path is resolved to. */
  lemma ChildLeads(fs: FileSystem, path: Path, info: Info, name: Name)
    requires Fits(fs, path, info) && info.isDir
    ensures var file, d := path + [name], Eval(fs, path).place;
      && EntryLoc(fs, file) == Real(Child(d, name))
      && (Stat(fs, file).Error? ==> Leads(fs, d, name).None?)
      && (Stat(fs, file).Found? ==>
            Leads(fs, d, name) == if Stat(fs, file).info.isDir then Some(Eval(fs, file).place) else None)
      && (IsLink(fs, file) && Leads(fs, d, name).Some? ==>
            var target := At(fs.tree, d.loc + [name]).value.target;
            Leads(fs, d, name) == Some(Place(Respell(d.spelling, target.via), target.loc)))
  {
    assert (path + [name])[..|path|] == path;
    AtStep(fs.tree, info.loc, name);
  }

  // ------------------------------------------------------------ the theorem

  /** Some entry of `d` leads to `e`. */
  ghost predicate NextTo(fs: FileSystem, d: Place, e: Place) {
    exists k :: 0 <= k < |NamesAt(fs, d.loc)| && Leads(fs, d, NamesAt(fs, d.loc)[k]) == Some(e)
  }

  /** A chain of places of real directories, each led to by some entry of the one before. */
  ghost predicate Chain(fs: FileSystem, dirs: seq<Place>) {
    forall i :: 0 < i < |dirs| ==> NextTo(fs, dirs[i - 1], dirs[i])
  }

  lemma {:induction false} ChainOpened(fs: FileSystem, log: seq<Visit>, dirs: seq<Place>, i: nat)
    requires Chain(fs, dirs) && i < |dirs| && Opened(fs, log, dirs[0]) && NewDone(fs, [], log)
    ensures Opened(fs, log, dirs[i]) && NamesDone(fs, log, dirs[i], NamesAt(fs, dirs[i].loc))
  {
    if i > 0 {
      ChainOpened(fs, log, dirs, i - 1);
      var d := dirs[i - 1];
      assert NextTo(fs, dirs[i - 1], dirs[i]);
      var k :| 0 <= k < |NamesAt(fs, d.loc)| && Leads(fs, d, NamesAt(fs, d.loc)[k]) == Some(dirs[i]);
      assert EntryDone(fs, log, d, NamesAt(fs, d.loc)[k]);
    }
  }

  /** If walkFn never objects, Walk into links returns nil and calls walkFn for every entry of every directory
      place that can be reached from the root's directory through real children and directory links, in
      spite of the links it skips; an entry that leads to a directory is entered. Directories that
      cannot be listed are reported and end the way there. */
  lemma WalkCoversReachable(fs: FileSystem, fn: WalkFn, root: Path, info: Info, dirs: seq<Place>, name: Name)
    requires Agreeable(fn) && Stat(fs, root) == Found(info) && info.isDir
    requires dirs != [] && Eval(fs, root) == Real(dirs[0]) && Chain(fs, dirs)
    requires name in NamesAt(fs, dirs[|dirs| - 1].loc)
    ensures var d := dirs[|dirs| - 1]; var r := Walk(fs, fn, true, root);
      && r.1 == Continue && Called(fs, r.0.log, Child(d, name))
      && (Leads(fs, d, name).Some? ==> Entered(fs, r.0.log, Child(d, name)))
  {
    var w := Walked({}, []);
    WalkAtCovers(fs, fn, root, info, w);
    var log := Walk(fs, fn, true, root).0.log;
    ChainOpened(fs, log, dirs, |dirs| - 1);
    var d := dirs[|dirs| - 1];
    var k :| 0 <= k < |NamesAt(fs, d.loc)| && NamesAt(fs, d.loc)[k] == name;
    assert EntryDone(fs, log, d, NamesAt(fs, d.loc)[k]);
  }
}
