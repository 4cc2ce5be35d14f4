/** A directory of links back to itself in which one link is entered as often as EntriesAreBounded allows. */
module WalkKnot {
  import opened Options
  import opened WalkSpec
  import opened WalkProofs
  import opened WalkPlain
  import opened WalkLinks

  function Climber(k: nat): (name: Name)
    ensures |name| == k + 2
  {
    seq(k + 2, _ => 'c')
  }

  /** An absolute link back to the directory, and one that climbs to each depth below `n` and comes back. */
  function LinksBack(dir: Loc, n: nat): seq<Entry> {
    if n == 0 then [Loop(dir)]
    else [Entry(Climber(n - 1), Link(To(dir, Relative(n - 1))))] + LinksBack(dir, n - 1)
  }

  function Knot(dir: Loc): FileSystem {
    FileSystem(Nest(dir, Dir(true, LinksBack(dir, |dir|))), From(dir))
  }

  lemma {:induction false} FindFirst(e: Entry, rest: seq<Entry>, name: Name)
    ensures Find([e] + rest, name) == if e.name == name then Some(e.node) else Find(rest, name)
  {
    assert ([e] + rest)[1..] == rest;
  }

  lemma {:induction false} FindLoop(dir: Loc, n: nat)
    ensures Find(LinksBack(dir, n), "a") == Some(Loop(dir).node)
  {
    if n > 0 {
      assert |Climber(n - 1)| > |"a"|;
      FindFirst(Entry(Climber(n - 1), Link(To(dir, Relative(n - 1)))), LinksBack(dir, n - 1), "a");
      FindLoop(dir, n - 1);
    }
  }

  lemma {:induction false} FindClimber(dir: Loc, n: nat, k: nat)
    requires k < n
    ensures Find(LinksBack(dir, n), Climber(k)) == Some(Link(To(dir, Relative(k))))
  {
    FindFirst(Entry(Climber(n - 1), Link(To(dir, Relative(n - 1)))), LinksBack(dir, n - 1), Climber(k));
    if k < n - 1 {
      assert |Climber(n - 1)| > |Climber(k)|;
      FindClimber(dir, n - 1, k);
    }
  }

  /** The directory under each of its names in turn. */
  function Here(dir: Loc, s: Spelling): Place { Place(s, dir) }

  lemma {:induction false} KnotAt(dir: Loc)
    ensures var fs := Knot(dir);
      && At(fs.tree, dir) == Some(Dir(true, LinksBack(dir, |dir|))) && IsDirAt(fs, dir)
      && NamesAt(fs, dir) == Names(LinksBack(dir, |dir|))
  {
    NestAt(dir, Dir(true, LinksBack(dir, |dir|)));
  }

  lemma {:induction false} KnotHas(dir: Loc, name: Name)
    requires Find(LinksBack(dir, |dir|), name).Some?
    ensures At(Knot(dir).tree, dir + [name]) == Find(LinksBack(dir, |dir|), name) && name in NamesAt(Knot(dir), dir)
  {
    KnotAt(dir);
    AtStep(Knot(dir).tree, dir, name);
    FindName(LinksBack(dir, |dir|), name);
  }

  /** Some link there leads from the starting directory to itself, spelled anew. */
  lemma {:induction false} Respelled(dir: Loc, s: Spelling)
    requires s in Spellings(From(dir)) && s != Relative(|dir|)
    ensures NextTo(Knot(dir), Here(dir, Relative(|dir|)), Here(dir, s))
  {
    var fs := Knot(dir);
    KnotAt(dir);
    var name := if s.Absolute? then "a" else Climber(s.depth);
    if s.Relative? {
      FindClimber(dir, |dir|, s.depth);
    } else {
      FindLoop(dir, |dir|);
    }
    KnotHas(dir, name);
    assert Leads(fs, Here(dir, Relative(|dir|)), name) == Some(Here(dir, s));
    var k :| 0 <= k < |NamesAt(fs, dir)| && NamesAt(fs, dir)[k] == name;
  }

  /** The places of the directory, from the start to this one. */
  function Way(dir: Loc, s: Spelling): (dirs: seq<Place>)
    ensures dirs != [] && dirs[0] == Here(dir, Relative(|dir|)) && dirs[|dirs| - 1] == Here(dir, s)
  {
    if s == Relative(|dir|) then [Here(dir, s)] else [Here(dir, Relative(|dir|)), Here(dir, s)]
  }

  lemma {:induction false} WayIsChain(dir: Loc, s: Spelling)
    requires s in Spellings(From(dir))
    ensures Chain(Knot(dir), Way(dir, s))
  {
    if s != Relative(|dir|) {
      Respelled(dir, s);
    }
  }

  /** Under each of the names its absolute link is entered. */
  lemma {:induction false} EnteredUnder(dir: Loc, fn: WalkFn, s: Spelling)
    requires Agreeable(fn) && s in Spellings(From(dir))
    ensures Entered(Knot(dir), Walk(Knot(dir), fn, true, []).0.log, Place(s, dir + ["a"]))
  {
    var fs := Knot(dir);
    KnotAt(dir);
    FindLoop(dir, |dir|);
    KnotHas(dir, "a");
    WayIsChain(dir, s);
    assert Leads(fs, Here(dir, s), "a") == Some(Here(dir, Absolute));
    WalkCoversReachable(fs, fn, [], Info(dir, true), Way(dir, s), "a");
  }

  lemma {:induction false} EnteredAs(dir: Loc, fn: WalkFn, s: Spelling) returns (i: nat)
    requires Agreeable(fn) && s in Spellings(From(dir))
    ensures var log := Walk(Knot(dir), fn, true, []).0.log;
      i < |log| && Enters(Knot(dir), log[i]) && EntryLoc(Knot(dir), log[i].path) == Real(Place(s, dir + ["a"]))
  {
    EnteredUnder(dir, fn, s);
    var log := Walk(Knot(dir), fn, true, []).0.log;
    i :| 0 <= i < |log| && log[i].error.None? && EntryLoc(Knot(dir), log[i].path) == Real(Place(s, dir + ["a"]));
    EntersLoop(dir, log[i].path, s);
  }

  lemma {:induction false} EntersLoop(dir: Loc, path: Path, s: Spelling)
    requires EntryLoc(Knot(dir), path) == Real(Place(s, dir + ["a"]))
    ensures IsDirLink(Knot(dir), path)
  {
    var fs := Knot(dir);
    KnotAt(dir);
    FindLoop(dir, |dir|);
    KnotHas(dir, "a");
    assert dir != dir + ["a"];
    var d := Eval(fs, path[..|path| - 1]).place;
    assert (d.loc + [path[|path| - 1]])[..|d.loc|] == d.loc && (dir + ["a"])[..|dir|] == dir;
    AtStep(fs.tree, d.loc, path[|path| - 1]);
  }

  lemma {:induction false} EnteredAsAll(dir: Loc, fn: WalkFn, spellings: set<Spelling>) returns (entries: set<nat>)
    requires Agreeable(fn) && spellings <= Spellings(From(dir))
    ensures |entries| == |spellings|
    ensures var fs := Knot(dir); var log := Walk(fs, fn, true, []).0.log;
      forall i :: i in entries ==>
        && i < |log| && Enters(fs, log[i])
        && EntryLoc(fs, log[i].path).place.loc == dir + ["a"] && EntryLoc(fs, log[i].path).place.spelling in spellings
    decreases |spellings|
  {
    entries := {};
    if spellings != {} {
      var s :| s in spellings;
      var i := EnteredAs(dir, fn, s);
      entries := EnteredAsAll(dir, fn, spellings - {s});
      entries := entries + {i};
    }
  }

  /** The bound is attained, for every starting directory: the walk of the knot enters its absolute link once for
      each ancestor of the directory, for the directory, and from the root. */
  lemma EntriesBoundAttained(dir: Loc, fn: WalkFn) returns (entries: set<nat>)
    requires Agreeable(fn)
    ensures |entries| == |dir| + 2
    ensures var fs := Knot(dir); var log := Walk(fs, fn, true, []).0.log;
      forall i :: i in entries ==>
        i < |log| && Enters(fs, log[i]) && EntryLoc(fs, log[i].path).place.loc == dir + ["a"]
  {
    entries := EnteredAsAll(dir, fn, Spellings(From(dir)));
    SpellingsSize(From(dir));
  }
}
