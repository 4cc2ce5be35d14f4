/** The walk as the source runs it: a recursion with a loop that updates the visited set. */
module WalkerClass {
  import opened Options
  import opened WalkSpec

  class Walker {
    const fs: FileSystem
    const walkFn: WalkFn
    const walkIntoDirSymlink: bool
    var visitedDirSymlinks: set<Place>
    /** The calls of walkFn so far. */
    var log: seq<Visit>

    constructor (fs: FileSystem, walkFn: WalkFn, walkIntoDirSymlink: bool)
      ensures this.fs == fs && this.walkFn == walkFn && this.walkIntoDirSymlink == walkIntoDirSymlink
      ensures visitedDirSymlinks == {} && log == []
    {
      this.fs, this.walkFn, this.walkIntoDirSymlink := fs, walkFn, walkIntoDirSymlink;
      visitedDirSymlinks, log := {}, [];
    }

    ghost function State(): Walked
      reads this
    {
      Walked(visitedDirSymlinks, log)
    }

    method CallWalkFn(v: Visit) returns (verdict: Verdict)
      modifies this`log
      ensures log == old(log) + [v] && verdict == walkFn(log)
    {
      log := log + [v];
      verdict := walkFn(log);
    }

    method WalkPath(path: Path, info: Info) returns (err: Verdict)
      requires Fits(fs, path, info)
      modifies this
      ensures (State(), err) == WalkAt(fs, walkFn, walkIntoDirSymlink, path, info, old(State()))
      decreases Unvisited(fs, Mark(fs, walkIntoDirSymlink, path, visitedDirSymlinks)), InfoHeight(fs, info), 1
    {
      var realPath := Eval(fs, path);
      if realPath.Failed? {
        return Fail(realPath.error);
      }
      var isRealPathDir := realPath.Real? && IsDirAt(fs, realPath.place.loc);
      if walkIntoDirSymlink && IsLink(fs, path) && isRealPathDir {
        visitedDirSymlinks := visitedDirSymlinks + {EntryLoc(fs, path).place};
      }
      err := CallWalkFn(Visit(path, Some(info), None));
      if !err.Continue? {
        if info.isDir && err.SkipDir? {
          return Continue;
        }
        return;
      }
      if !info.isDir {
        return Continue;
      }
      var dir := At(fs.tree, info.loc).value;
      if !dir.readable {
        err := CallWalkFn(Visit(path, Some(info), Some(PERMISSION_DENIED)));
        return;
      }
      err := WalkEntries(path, info, Names(dir.entries));
    }

    /** The loop over the names of a directory. */
    method WalkEntries(path: Path, info: Info, names: seq<Name>) returns (err: Verdict)
      requires Fits(fs, path, info) && info.isDir
      modifies this
      ensures (State(), err) == WalkNames(fs, walkFn, walkIntoDirSymlink, path, info, names, old(State()))
      decreases Unvisited(fs, visitedDirSymlinks), InfoHeight(fs, info), 0
    {
      for k := 0 to |names|
        invariant old(visitedDirSymlinks) <= visitedDirSymlinks
        invariant WalkNames(fs, walkFn, walkIntoDirSymlink, path, info, names[k..], State()) ==
                  WalkNames(fs, walkFn, walkIntoDirSymlink, path, info, names, old(State()))
      {
        assert names[k..][0] == names[k] && names[k..][1..] == names[k + 1..];
        var filename := path + [names[k]];
        ChildFacts(fs, path, info, names[k]);
        if walkIntoDirSymlink && IsLink(fs, filename) {
          if EntryLoc(fs, filename).place in visitedDirSymlinks {
            continue;
          }
        }
        match StatFor(fs, walkIntoDirSymlink, filename) {
          case Error(e) =>
            err := CallWalkFn(Visit(filename, None, Some(e)));
            if !err.Continue? && !err.SkipDir? {
              return;
            }
          case Found(fileInfo) =>
            ChildMeasure(fs, walkIntoDirSymlink, path, info, names[k], fileInfo, visitedDirSymlinks);
            UnvisitedMonotone(fs, old(visitedDirSymlinks), visitedDirSymlinks);
            err := WalkPath(filename, fileInfo);
            if !err.Continue? {
              if !fileInfo.isDir || !err.SkipDir? {
                return;
              }
            }
        }
      }
      return Continue;
    }

    method WalkRoot(root: Path) returns (err: Verdict)
      requires visitedDirSymlinks == {} && log == []
      modifies this
      ensures (State(), err) == Walk(fs, walkFn, walkIntoDirSymlink, root)
    {
      match Stat(fs, root) {
        case Error(e) => err := CallWalkFn(Visit(root, None, Some(e)));
        case Found(info) => err := WalkPath(root, info);
      }
    }
  }
}
