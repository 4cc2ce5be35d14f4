/** What a request to skip leaves out, and that nothing else is left out. */
module WalkSkips {
  import opened Options
  import opened WalkSpec
  import opened WalkProofs
  import opened WalkPlain
  import opened WalkFilepath
  import opened WalkAnswers

  // ------------------------------------------------------------ nothing below

  /** The directory whose rest is left out when this call is answered with ErrSkipDir: the one called for, or the
      one the file called for is in. A call with an error leaves nothing out. */
  function Scope(v: Visit): Option<Path> {
    if v.error.Some? || v.info.None? then None
    else if v.info.value.isDir then Some(v.path)
    else if v.path == [] then None
    else Some(v.path[..|v.path| - 1])
  }

  /** The i-th call is answered with a request to skip, which concerns `scope`. */
  predicate Skips(fn: WalkFn, log: seq<Visit>, i: nat) {
    i < |log| && Answer(fn, log, i).SkipDir? && Scope(log[i]).Some?
  }

  ghost predicate Obeys(fn: WalkFn, log: seq<Visit>, from: nat) {
    forall i: nat, j: nat :: from <= i < j < |log| && Skips(fn, log, i) ==> !(Scope(log[i]).value < log[j].path)
  }

  ghost predicate AllWithin(log: seq<Visit>, from: nat, path: Path) {
    forall j: nat :: from <= j < |log| ==> path <= log[j].path
  }

  ghost predicate ScopesWithin(fn: WalkFn, log: seq<Visit>, from: nat, path: Path) {
    forall i: nat :: from <= i < |log| && Skips(fn, log, i) ==> path <= Scope(log[i]).value
  }

  /** The calls from `from` on are for some of these names in the directory, and below. */
  ghost predicate AllIn(log: seq<Visit>, from: nat, path: Path, names: seq<Name>) {
    forall j: nat :: from <= j < |log| ==> path < log[j].path && log[j].path[|path|] in names
  }

  ghost predicate NoRepeated(names: seq<Name>) {
    forall i, j :: 0 <= i < j < |names| ==> names[i] != names[j]
  }

  lemma {:induction false} SoundNames(entries: seq<Entry>)
    requires SoundIn(entries)
    ensures NoRepeated(Names(entries))
  {
    if entries != [] {
      SoundNames(entries[1..]);
    }
  }

  lemma SkipsStay(fn: WalkFn, log: seq<Visit>, more: seq<Visit>)
    requires log <= more
    ensures forall i: nat :: i < |log| ==> Skips(fn, more, i) == Skips(fn, log, i)
  {
    AnswersStay(fn, log, more);
  }

  /** The calls of one turn, and then those of the turns after it. */
  lemma JoinTurns(fn: WalkFn, from: nat, log: seq<Visit>, more: seq<Visit>, path: Path, name: Name, rest: seq<Name>)
    requires from <= |log| && log <= more && name !in rest
    requires Obeys(fn, log, from) && AllWithin(log, from, path + [name]) && ScopesWithin(fn, log, from, path + [name])
    requires Obeys(fn, more, |log|) && AllIn(more, |log|, path, rest) && ScopesWithin(fn, more, |log|, path)
    ensures Obeys(fn, more, from) && AllIn(more, from, path, [name] + rest) && ScopesWithin(fn, more, from, path)
  {
    SkipsStay(fn, log, more);
    forall i: nat, j: nat | from <= i < j < |more| && Skips(fn, more, i)
      ensures !(Scope(more[i]).value < more[j].path)
    {
      if i < |log| && j < |log| {
        assert log[i] == more[i] && log[j] == more[j];
      } else if i < |log| <= j {
        assert log[i] == more[i] && path + [name] <= Scope(log[i]).value;
        assert (path + [name])[|path|] == name;
      }
    }
    forall j: nat | from <= j < |more|
      ensures path < more[j].path && more[j].path[|path|] in [name] + rest
    {
      if j < |log| {
        assert log[j] == more[j] && (path + [name])[|path|] == name;
      }
    }
    forall i: nat | from <= i < |more| && Skips(fn, more, i)
      ensures path <= Scope(more[i]).value
    {
      if i < |log| {
        assert log[i] == more[i];
      }
    }
  }

  /** What the calls from `from` on obey, when they are for `path` and what is below. */
  ghost predicate WellSkipped(fn: WalkFn, log: seq<Visit>, from: nat, path: Path) {
    Obeys(fn, log, from) && AllWithin(log, from, path) && ScopesWithin(fn, log, from, path)
  }

  /** A directory is called for, and then what is in it. */
  lemma JoinDir(fn: WalkFn, from: nat, log: seq<Visit>, path: Path, names: seq<Name>)
    requires from < |log| && log[from].path == path && log[from].info.Some? && log[from].info.value.isDir
    requires Answer(fn, log, from).Continue?
    requires Obeys(fn, log, from + 1) && AllIn(log, from + 1, path, names) && ScopesWithin(fn, log, from + 1, path)
    ensures WellSkipped(fn, log, from, path)
  {}

  lemma {:induction false} AtSkips(fs: FileSystem, fn: WalkFn, follow: bool, path: Path, info: Info, w: Walked)
    requires Fits(fs, path, info) && Sound(fs.tree)
    ensures var r := WalkAt(fs, fn, follow, path, info, w);
      Obeys(fn, r.0.log, |w.log|) && AllWithin(r.0.log, |w.log|, path)
      && (ScopesWithin(fn, r.0.log, |w.log|, path)
          || (!info.isDir && r.1.SkipDir? && r.0.log == w.log + [Visit(path, Some(info), None)]))
    decreases Unvisited(fs, Mark(fs, follow, path, w.visited)), InfoHeight(fs, info), 1, 0
  {
    if !Eval(fs, path).Failed? {
      var w' := Call(fn, w.(visited := Mark(fs, follow, path, w.visited)), Visit(path, Some(info), None)).0;
      LastAnswer(fn, w'.log);
      if info.isDir && fn(w'.log).Continue? {
        var dir := At(fs.tree, info.loc).value;
        var r := WalkAt(fs, fn, follow, path, info, w);
        AnswersStay(fn, w'.log, r.0.log);
        if dir.readable {
          SoundAt(fs.tree, info.loc);
          SoundNames(dir.entries);
          NamesSkip(fs, fn, follow, path, info, Names(dir.entries), w');
          JoinDir(fn, |w.log|, r.0.log, path, Names(dir.entries));
        }
      }
    }
  }

  lemma {:induction false} NamesSkip(fs: FileSystem, fn: WalkFn, follow: bool, path: Path, info: Info, names: seq<Name>, w: Walked)
    requires Fits(fs, path, info) && info.isDir && Sound(fs.tree) && NoRepeated(names)
    ensures var r := WalkNames(fs, fn, follow, path, info, names, w);
      Obeys(fn, r.0.log, |w.log|) && AllIn(r.0.log, |w.log|, path, names) && ScopesWithin(fn, r.0.log, |w.log|, path)
    decreases Unvisited(fs, w.visited), InfoHeight(fs, info), 0, |names|
  {
    if names != [] {
      NextTurn(fs, fn, follow, path, info, names, w);
      TurnSkips(fs, fn, follow, path, info, names, w);
      var (w', end) := Turn(fs, fn, follow, path, info, names[0], w);
      if end.None? {
        NamesSkip(fs, fn, follow, path, info, names[1..], w');
        var r := WalkNames(fs, fn, follow, path, info, names, w);
        JoinTurns(fn, |w.log|, w'.log, r.0.log, path, names[0], names[1..]);
        assert [names[0]] + names[1..] == names;
      }
    }
  }

  lemma {:induction false} TurnSkips(fs: FileSystem, fn: WalkFn, follow: bool, path: Path, info: Info, names: seq<Name>, w: Walked)
    requires Fits(fs, path, info) && info.isDir && Sound(fs.tree) && names != []
    ensures var (w', end) := Turn(fs, fn, follow, path, info, names[0], w);
      TurnSkipped(fn, w'.log, |w.log|, path, names[0], end.None?) && AllIn(w'.log, |w.log|, path, names)
    decreases Unvisited(fs, w.visited), InfoHeight(fs, info), 0, |names|, 0
  {
    var file := path + [names[0]];
    ChildFacts(fs, path, info, names[0]);
    if !(follow && IsLink(fs, file) && EntryLoc(fs, file).place in w.visited) {
      match StatFor(fs, follow, file) {
        case Error(e) => ErrorSkips(fn, w, file, e);
        case Found(fileInfo) =>
          ChildMeasure(fs, follow, path, info, names[0], fileInfo, w.visited);
          AtSkips(fs, fn, follow, file, fileInfo, w);
          var r := WalkAt(fs, fn, follow, file, fileInfo, w);
          if !ScopesWithin(fn, r.0.log, |w.log|, file) {
            FileSkips(fn, w, path, names[0], fileInfo);
          }
      }
    }
    var w' := Turn(fs, fn, follow, path, info, names[0], w).0;
    WithinIsIn(w'.log, |w.log|, path, names);
    if ScopesWithin(fn, w'.log, |w.log|, file) {
      ScopesWiden(fn, w'.log, |w.log|, path, names[0]);
    }
  }

  /** The calls of one turn: below the name, and what they skip is below it as well if the loop goes on. */
  ghost predicate TurnSkipped(fn: WalkFn, log: seq<Visit>, from: nat, path: Path, name: Name, on: bool) {
    && Obeys(fn, log, from) && AllWithin(log, from, path + [name])
    && ScopesWithin(fn, log, from, path) && (on ==> ScopesWithin(fn, log, from, path + [name]))
  }

  lemma ErrorSkips(fn: WalkFn, w: Walked, file: Path, e: Err)
    ensures var log := w.log + [Visit(file, None, Some(e))]; WellSkipped(fn, log, |w.log|, file)
  {}

  lemma FileSkips(fn: WalkFn, w: Walked, path: Path, name: Name, info: Info)
    requires !info.isDir
    ensures var log := w.log + [Visit(path + [name], Some(info), None)]; ScopesWithin(fn, log, |w.log|, path)
  {
    assert (path + [name])[..|path|] == path;
  }

  lemma WithinIsIn(log: seq<Visit>, from: nat, path: Path, names: seq<Name>)
    requires names != [] && AllWithin(log, from, path + [names[0]])
    ensures AllIn(log, from, path, names)
  {
    forall j: nat | from <= j < |log|
      ensures path < log[j].path && log[j].path[|path|] in names
    {
      assert (path + [names[0]])[|path|] == names[0] && (path + [names[0]])[..|path|] == path;
    }
  }

  lemma ScopesWiden(fn: WalkFn, log: seq<Visit>, from: nat, path: Path, name: Name)
    requires ScopesWithin(fn, log, from, path + [name])
    ensures ScopesWithin(fn, log, from, path)
  {
    assert path <= path + [name];
  }

  /** After an answer of ErrSkipDir nothing more is called for below the directory it concerns: the directory called
      for, or the one that the file called for is in. */
  lemma SkippedIsLeftOut(fs: FileSystem, fn: WalkFn, follow: bool, root: Path, i: nat, j: nat)
    requires Sound(fs.tree)
    requires var log := Walk(fs, fn, follow, root).0.log; i < j < |log| && Skips(fn, log, i)
    ensures var log := Walk(fs, fn, follow, root).0.log; !(Scope(log[i]).value < log[j].path)
  {
    if Stat(fs, root).Found? {
      AtSkips(fs, fn, follow, root, Stat(fs, root).info, Walked({}, []));
    }
  }

  // ------------------------------------------------------------ everything else

  /** walkFn was called for this entry, or it is a link that was entered before. */
  ghost predicate Attended(fs: FileSystem, follow: bool, log: seq<Visit>, file: Path) {
    || (exists v :: v in log && v.path == file)
    || (follow && IsLink(fs, file) && EntryLoc(fs, file).Real? && Entered(fs, log, EntryLoc(fs, file).place))
  }

  /** It was called for this file, without an error, and answered with ErrSkipDir. */
  ghost predicate CutAt(fn: WalkFn, log: seq<Visit>, file: Path) {
    exists i: nat :: i < |log| && log[i].path == file && log[i].error.None? && log[i].info.Some? && !log[i].info.value.isDir
      && Answer(fn, log, i).SkipDir?
  }

  /** The names were attended to in order, all of them or as far as a file at which the rest was skipped. */
  ghost predicate Attends(fs: FileSystem, fn: WalkFn, follow: bool, log: seq<Visit>, path: Path, names: seq<Name>) {
    names == [] ||
    (Attended(fs, follow, log, path + [names[0]])
     && (CutAt(fn, log, path + [names[0]]) || Attends(fs, fn, follow, log, path, names[1..])))
  }

  /** The i-th call is for a directory, without an error, and answered with nil. */
  predicate Opens(fs: FileSystem, fn: WalkFn, log: seq<Visit>, i: nat) {
    && i < |log| && log[i].error.None? && log[i].info.Some? && log[i].info.value.isDir && Answer(fn, log, i).Continue?
    && IsDirAt(fs, log[i].info.value.loc)
  }

  /** And then its names were attended to, or the error of listing it was reported. */
  ghost predicate Listed(fs: FileSystem, fn: WalkFn, follow: bool, log: seq<Visit>, v: Visit)
    requires v.info.Some? && IsDirAt(fs, v.info.value.loc)
  {
    var dir := At(fs.tree, v.info.value.loc).value;
    if dir.readable then Attends(fs, fn, follow, log, v.path, Names(dir.entries))
    else v.(error := Some(PERMISSION_DENIED)) in log
  }

  ghost predicate AllListed(fs: FileSystem, fn: WalkFn, follow: bool, log: seq<Visit>, from: nat) {
    forall i: nat :: from <= i && Opens(fs, fn, log, i) ==> Listed(fs, fn, follow, log, log[i])
  }

  ghost predicate MarkedEntered(fs: FileSystem, w: Walked) {
    forall p :: p in w.visited ==> Entered(fs, w.log, p)
  }

  lemma {:induction false} AttendsStay(fs: FileSystem, fn: WalkFn, follow: bool, log: seq<Visit>, more: seq<Visit>, path: Path, names: seq<Name>)
    requires log <= more && Attends(fs, fn, follow, log, path, names)
    ensures Attends(fs, fn, follow, more, path, names)
  {
    if names != [] {
      var file := path + [names[0]];
      Extend(fs, log, more);
      if v :| v in log && v.path == file {
        assert v in more;
      }
      if CutAt(fn, log, file) {
        CutStays(fn, log, more, file);
      } else {
        AttendsStay(fs, fn, follow, log, more, path, names[1..]);
      }
    }
  }

  lemma CutStays(fn: WalkFn, log: seq<Visit>, more: seq<Visit>, file: Path)
    requires log <= more && CutAt(fn, log, file)
    ensures CutAt(fn, more, file)
  {
    AnswersStay(fn, log, more);
    var i: nat :| i < |log| && log[i].path == file && log[i].error.None? && log[i].info.Some? && !log[i].info.value.isDir
      && Answer(fn, log, i).SkipDir?;
    assert more[i] == log[i] && Answer(fn, more, i).SkipDir?;
  }

  lemma JoinListed(fs: FileSystem, fn: WalkFn, follow: bool, from: nat, log: seq<Visit>, more: seq<Visit>)
    requires from <= |log| && log <= more && AllListed(fs, fn, follow, log, from) && AllListed(fs, fn, follow, more, |log|)
    ensures AllListed(fs, fn, follow, more, from)
  {
    AnswersStay(fn, log, more);
    forall i: nat | from <= i && Opens(fs, fn, more, i)
      ensures Listed(fs, fn, follow, more, more[i])
    {
      if i < |log| {
        assert more[i] == log[i] && Opens(fs, fn, log, i);
        var dir := At(fs.tree, log[i].info.value.loc).value;
        if dir.readable {
          AttendsStay(fs, fn, follow, log, more, log[i].path, Names(dir.entries));
        } else {
          assert forall v :: v in log ==> v in more;
        }
      }
    }
  }

  /** One more call, which opens nothing. */
  lemma CallListed(fs: FileSystem, fn: WalkFn, follow: bool, w: Walked, v: Visit)
    requires !(v.error.None? && v.info.Some? && v.info.value.isDir && fn(w.log + [v]).Continue?)
    ensures AllListed(fs, fn, follow, w.log + [v], |w.log|)
  {
    LastAnswer(fn, w.log + [v]);
  }

  /** What a stretch of the walk achieves that does not end in an error. */
  ghost predicate Does(fs: FileSystem, fn: WalkFn, follow: bool, w: Walked, r: Result) {
    w.log <= r.0.log && (!Objects(r.1) ==> MarkedEntered(fs, r.0) && AllListed(fs, fn, follow, r.0.log, |w.log|))
  }

  lemma {:induction false} AtLists(fs: FileSystem, fn: WalkFn, follow: bool, path: Path, info: Info, w: Walked)
    requires Fits(fs, path, info) && MarkedEntered(fs, w)
    ensures Does(fs, fn, follow, w, WalkAt(fs, fn, follow, path, info, w))
    ensures var r := WalkAt(fs, fn, follow, path, info, w);
      !Objects(r.1) ==> |r.0.log| > |w.log| && r.0.log[|w.log|] == Visit(path, Some(info), None)
    ensures var r := WalkAt(fs, fn, follow, path, info, w);
      !info.isDir && r.1.SkipDir? ==> CutAt(fn, r.0.log, path)
    decreases Unvisited(fs, Mark(fs, follow, path, w.visited)), InfoHeight(fs, info), 2
  {
    if !Eval(fs, path).Failed? {
      var r := WalkAt(fs, fn, follow, path, info, w);
      var v := Visit(path, Some(info), None);
      var w1 := MarkEnters(fs, fn, follow, path, info, w);
      LastAnswer(fn, w1.log);
      if !(info.isDir && fn(w1.log).Continue?) {
        CallListed(fs, fn, follow, w.(visited := w1.visited), v);
        assert r.0 == w1;
        assert r.0.log[|w.log|] == v;
      } else if !Objects(r.1) {
        DirLists(fs, fn, follow, path, info, w, w1, r);
      }
    }
  }

  /** The call for an entry; if it is marked, it has now been entered. */
  lemma MarkEnters(fs: FileSystem, fn: WalkFn, follow: bool, path: Path, info: Info, w: Walked) returns (w1: Walked)
    requires MarkedEntered(fs, w)
    ensures w1 == Call(fn, w.(visited := Mark(fs, follow, path, w.visited)), Visit(path, Some(info), None)).0
    ensures MarkedEntered(fs, w1)
  {
    var v := Visit(path, Some(info), None);
    w1 := Call(fn, w.(visited := Mark(fs, follow, path, w.visited)), v).0;
    assert v in w1.log;
    Extend(fs, w.log, w1.log);
  }

  /** A directory that walkFn answered with nil. */
  lemma {:induction false} DirLists(fs: FileSystem, fn: WalkFn, follow: bool, path: Path, info: Info, w: Walked, w1: Walked, r: Result)
    requires Fits(fs, path, info) && info.isDir && MarkedEntered(fs, w1) && !Objects(r.1)
    requires w1 == Call(fn, w.(visited := Mark(fs, follow, path, w.visited)), Visit(path, Some(info), None)).0
    requires r == var dir := At(fs.tree, info.loc).value;
      if dir.readable then WalkNames(fs, fn, follow, path, info, Names(dir.entries), w1)
      else Call(fn, w1, Visit(path, Some(info), Some(PERMISSION_DENIED)))
    ensures Does(fs, fn, follow, w, r)
    ensures |r.0.log| > |w.log| && r.0.log[|w.log|] == Visit(path, Some(info), None)
    decreases Unvisited(fs, Mark(fs, follow, path, w.visited)), InfoHeight(fs, info), 1
  {
    var dir, v := At(fs.tree, info.loc).value, Visit(path, Some(info), None);
    if dir.readable {
      NamesList(fs, fn, follow, path, info, Names(dir.entries), w1);
    } else {
      var again := Visit(path, Some(info), Some(PERMISSION_DENIED));
      CallListed(fs, fn, follow, w1, again);
      Extend(fs, w1.log, r.0.log);
      assert r.0.log[|w1.log|] == again;
    }
    assert r.0.log[|w.log|] == v;
    forall i: nat | |w.log| <= i && Opens(fs, fn, r.0.log, i)
      ensures Listed(fs, fn, follow, r.0.log, r.0.log[i])
    {
      if i > |w.log| {
        assert Opens(fs, fn, r.0.log, i);
      }
    }
  }

  lemma {:induction false} NamesList(fs: FileSystem, fn: WalkFn, follow: bool, path: Path, info: Info, names: seq<Name>, w: Walked)
    requires Fits(fs, path, info) && info.isDir && MarkedEntered(fs, w)
    ensures var r := WalkNames(fs, fn, follow, path, info, names, w);
      Does(fs, fn, follow, w, r) && (!Objects(r.1) ==> Attends(fs, fn, follow, r.0.log, path, names))
    decreases Unvisited(fs, w.visited), InfoHeight(fs, info), 0, |names|
  {
    if names != [] {
      NextTurn(fs, fn, follow, path, info, names, w);
      TurnLists(fs, fn, follow, path, info, names, w);
      var (w', end) := Turn(fs, fn, follow, path, info, names[0], w);
      if end.None? {
        NamesList(fs, fn, follow, path, info, names[1..], w');
        var r := WalkNames(fs, fn, follow, path, info, names[1..], w');
        if !Objects(r.1) {
          JoinNames(fs, fn, follow, |w.log|, w'.log, r.0.log, path, names);
        }
      }
    }
  }

  /** One turn of the loop, and the turns after it. */
  lemma {:induction false} JoinNames(fs: FileSystem, fn: WalkFn, follow: bool, from: nat, log: seq<Visit>, more: seq<Visit>,
                                     path: Path, names: seq<Name>)
    requires from <= |log| && log <= more && names != [] && Attended(fs, follow, log, path + [names[0]])
    requires AllListed(fs, fn, follow, log, from) && AllListed(fs, fn, follow, more, |log|)
    requires Attends(fs, fn, follow, more, path, names[1..])
    ensures AllListed(fs, fn, follow, more, from) && Attends(fs, fn, follow, more, path, names)
  {
    JoinListed(fs, fn, follow, from, log, more);
    AttendedStays(fs, follow, log, more, path + [names[0]]);
  }

  lemma AttendedStays(fs: FileSystem, follow: bool, log: seq<Visit>, more: seq<Visit>, file: Path)
    requires log <= more && Attended(fs, follow, log, file)
    ensures Attended(fs, follow, more, file)
  {
    Extend(fs, log, more);
    if v :| v in log && v.path == file {
      assert v in more;
    }
  }

  lemma {:induction false} TurnLists(fs: FileSystem, fn: WalkFn, follow: bool, path: Path, info: Info, names: seq<Name>, w: Walked)
    requires Fits(fs, path, info) && info.isDir && MarkedEntered(fs, w) && names != []
    ensures var (w', end) := Turn(fs, fn, follow, path, info, names[0], w);
      end.None? || !Objects(end.value) ==>
        && MarkedEntered(fs, w') && AllListed(fs, fn, follow, w'.log, |w.log|) && Attended(fs, follow, w'.log, path + [names[0]])
        && (end.Some? ==> CutAt(fn, w'.log, path + [names[0]]))
    decreases Unvisited(fs, w.visited), InfoHeight(fs, info), 0, |names|, 0
  {
    var file := path + [names[0]];
    ChildFacts(fs, path, info, names[0]);
    if !(follow && IsLink(fs, file) && EntryLoc(fs, file).place in w.visited) {
      match StatFor(fs, follow, file) {
        case Error(e) =>
          var v := Visit(file, None, Some(e));
          CallListed(fs, fn, follow, w, v);
          Extend(fs, w.log, w.log + [v]);
          assert v in w.log + [v];
        case Found(fileInfo) =>
          ChildMeasure(fs, follow, path, info, names[0], fileInfo, w.visited);
          AtLists(fs, fn, follow, file, fileInfo, w);
          var r := WalkAt(fs, fn, follow, file, fileInfo, w);
          assert !Objects(r.1) ==> r.0.log[|w.log|] in r.0.log;
      }
    }
  }

  /** When Walk does not end in an error, every directory that walkFn was called for without an error and did not skip
      was listed: each of its names in turn led to a call, or is a link already entered, up to the end or to a
      file answered with ErrSkipDir; or, if it cannot be listed, the error was reported. */
  lemma OpenedIsListed(fs: FileSystem, fn: WalkFn, follow: bool, root: Path, i: nat)
    requires !Objects(Walk(fs, fn, follow, root).1) && Opens(fs, fn, Walk(fs, fn, follow, root).0.log, i)
    ensures var log := Walk(fs, fn, follow, root).0.log; Listed(fs, fn, follow, log, log[i])
  {
    match Stat(fs, root) {
      case Error(e) => CallListed(fs, fn, follow, Walked({}, []), Visit(root, None, Some(e)));
      case Found(info) => AtLists(fs, fn, follow, root, info, Walked({}, []));
    }
  }

  // ------------------------------------------------------------ what Walk returns

  /** A call whose request to skip nobody above the root is left to handle: for a root that is a file or for an
      error at the root, or for a file in the root. */
  predicate AtTop(root: Path, v: Visit) {
    if v.path == root then v.error.Some? || (v.info.Some? && !v.info.value.isDir)
    else |v.path| == |root| + 1 && v.error.None? && v.info.Some? && !v.info.value.isDir
  }

  ghost predicate NoneAtTop(fn: WalkFn, log: seq<Visit>, from: nat, root: Path) {
    forall i: nat :: from <= i < |log| && Answer(fn, log, i).SkipDir? ==> !AtTop(root, log[i])
  }

  /** ErrSkipDir is returned exactly if it was answered at the top, and then at once. */
  ghost predicate SkipsUp(fn: WalkFn, from: nat, r: Result, root: Path) {
    if r.1.SkipDir? then
      |r.0.log| > from && NoneAtTop(fn, r.0.log[..|r.0.log| - 1], from, root)
      && fn(r.0.log).SkipDir? && AtTop(root, r.0.log[|r.0.log| - 1])
    else NoneAtTop(fn, r.0.log, from, root)
  }

  /** The calls are for the path, and then with this file info, or, under a directory, for what is below; for a file
      there is one. */
  ghost predicate AllAt(log: seq<Visit>, from: nat, path: Path, info: Info) {
    && (forall j: nat :: from <= j < |log| ==> path <= log[j].path && (log[j].path == path ==> log[j].info == Some(info)))
    && (!info.isDir ==> |log| <= from + 1 && forall j: nat :: from <= j < |log| ==> log[j] == Visit(path, Some(info), None))
  }

  lemma CallUp(fn: WalkFn, w: Walked, v: Visit, root: Path)
    requires AtTop(root, v)
    ensures SkipsUp(fn, |w.log|, Call(fn, w, v), root)
  {
    LastAnswer(fn, w.log + [v]);
    assert (w.log + [v])[..|w.log|] == w.log;
  }

  lemma CallNotUp(fn: WalkFn, w: Walked, v: Visit, root: Path)
    requires !AtTop(root, v) || !fn(w.log + [v]).SkipDir?
    ensures NoneAtTop(fn, w.log + [v], |w.log|, root)
  {
    LastAnswer(fn, w.log + [v]);
  }

  /** Nothing was answered at the top so far. */
  lemma ThenUp(fn: WalkFn, from: nat, log: seq<Visit>, r: Result, root: Path)
    requires from <= |log| && log <= r.0.log && NoneAtTop(fn, log, from, root) && SkipsUp(fn, |log|, r, root)
    ensures SkipsUp(fn, from, r, root)
  {
    AnswersStay(fn, log, r.0.log);
    if r.1.SkipDir? {
      assert log <= r.0.log[..|r.0.log| - 1];
      AnswersStay(fn, log, r.0.log[..|r.0.log| - 1]);
    }
  }

  lemma {:induction false} AtGoesUp(fs: FileSystem, fn: WalkFn, follow: bool, path: Path, info: Info, w: Walked)
    requires Fits(fs, path, info)
    ensures var r := WalkAt(fs, fn, follow, path, info, w);
      SkipsUp(fn, |w.log|, r, path) && AllAt(r.0.log, |w.log|, path, info)
    decreases Unvisited(fs, Mark(fs, follow, path, w.visited)), InfoHeight(fs, info), 1
  {
    if !Eval(fs, path).Failed? {
      var v, w0 := Visit(path, Some(info), None), w.(visited := Mark(fs, follow, path, w.visited));
      var (w1, verdict) := Call(fn, w0, v);
      if !info.isDir {
        CallUp(fn, w0, v, path);
      } else {
        CallNotUp(fn, w0, v, path);
        if verdict.Continue? {
          var dir, r := At(fs.tree, info.loc).value, WalkAt(fs, fn, follow, path, info, w);
          if dir.readable {
            NamesGoUp(fs, fn, follow, path, info, Names(dir.entries), w1);
          } else {
            CallUp(fn, w1, Visit(path, Some(info), Some(PERMISSION_DENIED)), path);
          }
          ThenUp(fn, |w.log|, w1.log, r, path);
        }
      }
    }
  }

  lemma {:induction false} NamesGoUp(fs: FileSystem, fn: WalkFn, follow: bool, path: Path, info: Info, names: seq<Name>, w: Walked)
    requires Fits(fs, path, info) && info.isDir
    ensures var r := WalkNames(fs, fn, follow, path, info, names, w);
      SkipsUp(fn, |w.log|, r, path) && forall j: nat :: |w.log| <= j < |r.0.log| ==> path < r.0.log[j].path
    decreases Unvisited(fs, w.visited), InfoHeight(fs, info), 0, |names|
  {
    if names != [] {
      NextTurn(fs, fn, follow, path, info, names, w);
      TurnGoesUp(fs, fn, follow, path, info, names, w);
      var (w', end) := Turn(fs, fn, follow, path, info, names[0], w);
      if end.None? {
        NamesGoUp(fs, fn, follow, path, info, names[1..], w');
        var r := WalkNames(fs, fn, follow, path, info, names[1..], w');
        ThenUp(fn, |w.log|, w'.log, r, path);
      }
    }
  }

  /** One turn of the loop, which ends it with this answer or goes on. */
  ghost predicate TurnUp(fn: WalkFn, from: nat, w: Walked, end: Option<Verdict>, path: Path) {
    && (if end.None? then NoneAtTop(fn, w.log, from, path) else SkipsUp(fn, from, (w, end.value), path))
    && forall j: nat :: from <= j < |w.log| ==> path < w.log[j].path
  }

  lemma ErrorUp(fn: WalkFn, w: Walked, path: Path, name: Name, e: Err)
    ensures var (w', verdict) := Call(fn, w, Visit(path + [name], None, Some(e)));
      TurnUp(fn, |w.log|, w', if verdict.Continue? || verdict.SkipDir? then None else Some(verdict), path)
  {
    CallNotUp(fn, w, Visit(path + [name], None, Some(e)), path);
    assert path < path + [name];
  }

  lemma {:induction false} TurnGoesUp(fs: FileSystem, fn: WalkFn, follow: bool, path: Path, info: Info, names: seq<Name>, w: Walked)
    requires Fits(fs, path, info) && info.isDir && names != []
    ensures var (w', end) := Turn(fs, fn, follow, path, info, names[0], w);
      TurnUp(fn, |w.log|, w', end, path)
    decreases Unvisited(fs, w.visited), InfoHeight(fs, info), 0, |names|, 0
  {
    var file := path + [names[0]];
    ChildFacts(fs, path, info, names[0]);
    if !(follow && IsLink(fs, file) && EntryLoc(fs, file).place in w.visited) {
      match StatFor(fs, follow, file) {
        case Error(e) => ErrorUp(fn, w, path, names[0], e);
        case Found(fileInfo) =>
          ChildMeasure(fs, follow, path, info, names[0], fileInfo, w.visited);
          AtGoesUp(fs, fn, follow, file, fileInfo, w);
          ChildUp(fn, |w.log|, WalkAt(fs, fn, follow, file, fileInfo, w), path, names[0], fileInfo);
      }
    }
  }

  /** What is at the top of a file is at the top of the directory it is in; of a directory, nothing is. */
  lemma ChildUp(fn: WalkFn, from: nat, r: Result, path: Path, name: Name, info: Info)
    requires SkipsUp(fn, from, r, path + [name]) && AllAt(r.0.log, from, path + [name], info)
    ensures TurnUp(fn, from, r.0, if r.1.Continue? || (info.isDir && r.1.SkipDir?) then None else Some(r.1), path)
  {
    forall j: nat | from <= j < |r.0.log|
      ensures path < r.0.log[j].path && (r.0.log[j].path != path + [name] ==> |r.0.log[j].path| > |path| + 1)
    {
      assert path + [name] <= r.0.log[j].path;
      assert path < path + [name];
    }
  }

  /** Walk returns ErrSkipDir if and only if its last call answered it at the top: for a root that is a file, with
      an error at the root, or for a file in the root. */
  lemma SkipReturnedIff(fs: FileSystem, fn: WalkFn, follow: bool, root: Path)
    ensures var r := Walk(fs, fn, follow, root);
      r.1.SkipDir? <==> r.0.log != [] && fn(r.0.log).SkipDir? && AtTop(root, r.0.log[|r.0.log| - 1])
  {
    var r := Walk(fs, fn, follow, root);
    match Stat(fs, root) {
      case Error(e) => CallUp(fn, Walked({}, []), Visit(root, None, Some(e)), root);
      case Found(info) => AtGoesUp(fs, fn, follow, root, info, Walked({}, []));
    }
    if r.0.log != [] {
      LastAnswer(fn, r.0.log);
    }
  }
}
