/** What walkFn's answers do to the walk: an objection ends it, a request to skip leaves out what is below a
    directory, and nothing else is left out. For every walkFn, following links or not. */
module WalkAnswers {
  import opened Options
  import opened WalkSpec
  import opened WalkProofs
  import opened WalkPlain
  import opened WalkFilepath

  /** One turn of the loop over the names: what it leaves, and what the loop then returns if it ends there. */
  function Turn(fs: FileSystem, fn: WalkFn, follow: bool, path: Path, info: Info, name: Name, w: Walked): (Walked, Option<Verdict>)
    requires Fits(fs, path, info) && info.isDir
  {
    var file := path + [name];
    if follow && IsLink(fs, file) && EntryLoc(fs, file).place in w.visited then (w, None)
    else match StatFor(fs, follow, file)
      case Error(e) =>
        var (w', verdict) := Call(fn, w, Visit(file, None, Some(e)));
        (w', if verdict.Continue? || verdict.SkipDir? then None else Some(verdict))
      case Found(fileInfo) =>
        ChildFacts(fs, path, info, name);
        var (w', verdict) := WalkAt(fs, fn, follow, file, fileInfo, w);
        (w', if verdict.Continue? || (fileInfo.isDir && verdict.SkipDir?) then None else Some(verdict))
  }

  lemma {:induction false} NextTurn(fs: FileSystem, fn: WalkFn, follow: bool, path: Path, info: Info, names: seq<Name>, w: Walked)
    requires Fits(fs, path, info) && info.isDir && names != []
    ensures var (w', end) := Turn(fs, fn, follow, path, info, names[0], w);
      && w.log <= w'.log && w.visited <= w'.visited && Unvisited(fs, w'.visited) <= Unvisited(fs, w.visited)
      && WalkNames(fs, fn, follow, path, info, names, w) ==
         if end.Some? then (w', end.value) else WalkNames(fs, fn, follow, path, info, names[1..], w')
  {
    var (w', end) := Turn(fs, fn, follow, path, info, names[0], w);
    ChildFacts(fs, path, info, names[0]);
    UnvisitedMonotone(fs, w.visited, w'.visited);
  }

  // ------------------------------------------------------------ objections

  /** Neither nil nor a request to skip: an error, also the standard library's sentinels. */
  predicate Objects(v: Verdict) { !v.Continue? && !v.SkipDir? }

  /** What walkFn answered to the i-th call. */
  function Answer(fn: WalkFn, log: seq<Visit>, i: nat): Verdict
    requires i < |log|
  {
    fn(log[..i + 1])
  }

  ghost predicate NoObjection(fn: WalkFn, log: seq<Visit>) {
    forall i :: 0 <= i < |log| ==> !Objects(Answer(fn, log, i))
  }

  /** Later calls do not change the answers. */
  lemma AnswersStay(fn: WalkFn, log: seq<Visit>, more: seq<Visit>)
    requires log <= more
    ensures forall i :: 0 <= i < |log| ==> Answer(fn, more, i) == Answer(fn, log, i)
  {
    forall i | 0 <= i < |log|
      ensures Answer(fn, more, i) == Answer(fn, log, i)
    {
      assert more[..i + 1] == log[..i + 1];
    }
  }

  lemma LastAnswer(fn: WalkFn, log: seq<Visit>)
    requires log != []
    ensures Answer(fn, log, |log| - 1) == fn(log)
  {
    assert log[..|log|] == log;
  }

  /** Resolving some path ends in this error. */
  ghost predicate Unresolvable(fs: FileSystem, e: Err) {
    exists p :: Eval(fs, p) == Failed(e)
  }

  /** Either nobody objected, and then the walk returns an error only for a path that cannot be resolved; or the last
      call did, and its answer is returned. */
  ghost predicate StopsThere(fs: FileSystem, fn: WalkFn, follow: bool, r: Result) {
    if NoObjection(fn, r.0.log) then Objects(r.1) ==> !follow && r.1.Fail? && Unresolvable(fs, r.1.error)
    else r.0.log != [] && NoObjection(fn, r.0.log[..|r.0.log| - 1]) && r.1 == fn(r.0.log) && Objects(r.1)
  }

  lemma CallStops(fs: FileSystem, fn: WalkFn, follow: bool, w: Walked, v: Visit)
    requires NoObjection(fn, w.log)
    ensures StopsThere(fs, fn, follow, Call(fn, w, v))
    ensures !Objects(fn(w.log + [v])) ==> NoObjection(fn, w.log + [v])
  {
    var log := w.log + [v];
    assert log[..|log| - 1] == w.log;
    LastAnswer(fn, log);
    AnswersStay(fn, w.log, log);
  }

  lemma {:induction false} StopsAt(fs: FileSystem, fn: WalkFn, follow: bool, path: Path, info: Info, w: Walked)
    requires Fits(fs, path, info) && NoObjection(fn, w.log) && (follow ==> !Eval(fs, path).Failed?)
    ensures StopsThere(fs, fn, follow, WalkAt(fs, fn, follow, path, info, w))
    decreases Unvisited(fs, Mark(fs, follow, path, w.visited)), InfoHeight(fs, info), 1, 0
  {
    if !Eval(fs, path).Failed? {
      var w0 := w.(visited := Mark(fs, follow, path, w.visited));
      CallStops(fs, fn, follow, w0, Visit(path, Some(info), None));
      var (w', verdict) := Call(fn, w0, Visit(path, Some(info), None));
      if verdict.Continue? && info.isDir {
        var dir := At(fs.tree, info.loc).value;
        if dir.readable {
          StopsIn(fs, fn, follow, path, info, Names(dir.entries), w');
        } else {
          CallStops(fs, fn, follow, w', Visit(path, Some(info), Some(PERMISSION_DENIED)));
        }
      }
    }
  }

  lemma {:induction false} StopsIn(fs: FileSystem, fn: WalkFn, follow: bool, path: Path, info: Info, names: seq<Name>, w: Walked)
    requires Fits(fs, path, info) && info.isDir && NoObjection(fn, w.log)
    ensures StopsThere(fs, fn, follow, WalkNames(fs, fn, follow, path, info, names, w))
    decreases Unvisited(fs, w.visited), InfoHeight(fs, info), 0, |names|
  {
    if names != [] {
      NextTurn(fs, fn, follow, path, info, names, w);
      StopsTurn(fs, fn, follow, path, info, names, w);
      var (w', end) := Turn(fs, fn, follow, path, info, names[0], w);
      if end.None? {
        StopsIn(fs, fn, follow, path, info, names[1..], w');
      }
    }
  }

  lemma {:induction false} StopsTurn(fs: FileSystem, fn: WalkFn, follow: bool, path: Path, info: Info, names: seq<Name>, w: Walked)
    requires Fits(fs, path, info) && info.isDir && NoObjection(fn, w.log) && names != []
    ensures var (w', end) := Turn(fs, fn, follow, path, info, names[0], w);
      if end.None? then NoObjection(fn, w'.log) else StopsThere(fs, fn, follow, (w', end.value))
    decreases Unvisited(fs, w.visited), InfoHeight(fs, info), 0, |names|, 0
  {
    var file := path + [names[0]];
    ChildFacts(fs, path, info, names[0]);
    if !(follow && IsLink(fs, file) && EntryLoc(fs, file).place in w.visited) {
      match StatFor(fs, follow, file) {
        case Error(e) => CallStops(fs, fn, follow, w, Visit(file, None, Some(e)));
        case Found(fileInfo) =>
          ChildMeasure(fs, follow, path, info, names[0], fileInfo, w.visited);
          StopsAt(fs, fn, follow, file, fileInfo, w);
      }
    }
  }

  /** When walkFn answers a call with an error, or a sentinel that is not this library's, that call is the last
      one and Walk returns the answer. */
  lemma ObjectionEndsWalk(fs: FileSystem, fn: WalkFn, follow: bool, root: Path, i: nat)
    requires i < |Walk(fs, fn, follow, root).0.log| && Objects(Answer(fn, Walk(fs, fn, follow, root).0.log, i))
    ensures var r := Walk(fs, fn, follow, root); i == |r.0.log| - 1 && r.1 == fn(r.0.log)
  {
    var r := Walk(fs, fn, follow, root);
    WalkStops(fs, fn, follow, root);
    AnswersStay(fn, r.0.log[..|r.0.log| - 1], r.0.log);
  }

  lemma {:induction false} WalkStops(fs: FileSystem, fn: WalkFn, follow: bool, root: Path)
    ensures StopsThere(fs, fn, follow, Walk(fs, fn, follow, root))
  {
    match Stat(fs, root) {
      case Error(e) => CallStops(fs, fn, follow, Walked({}, []), Visit(root, None, Some(e)));
      case Found(info) => StopsAt(fs, fn, follow, root, info, Walked({}, []));
    }
  }

  /** And Walk returns an error only so, or, not walking into links, for a path that cannot be resolved. */
  lemma ErrorsAreAnswers(fs: FileSystem, fn: WalkFn, follow: bool, root: Path)
    requires Objects(Walk(fs, fn, follow, root).1)
    ensures var r := Walk(fs, fn, follow, root);
      || (r.0.log != [] && r.1 == fn(r.0.log))
      || (!follow && r.1.Fail? && Unresolvable(fs, r.1.error))
  {
    var r := Walk(fs, fn, follow, root);
    WalkStops(fs, fn, follow, root);
  }
}
