/** How many threads a runner has, and what SetMaxParallel makes of its maximum. */
module RunnerSizes {
  import opened Options
  import opened RunnerState
  import opened RunnerInvariant
  import opened RunnerSteps

  function AtLeastOne(v: int): int { if v >= 1 then v else 1 }

  function AddedBy(before: int, after: int): nat { if after > before then after - before else 0 }

  // ------------------------------------------------------------ without SetMaxParallel

  /** Nobody resizes: the maximum is as it was set, and Run has started so many threads. */
  ghost predicate Plain(s: State, max: int) {
    && s.callers.resizes == [] && s.maxParallel == max >= 1
    && match s.callers.run
       case NotCalled => s.pool.threads == []
       case Starting(i) => |s.pool.threads| == i <= max
       case Waiting => |s.pool.threads| == max
       case Finished => |s.pool.threads| == max && AllExited(s.pool.threads)
  }

  lemma {:induction false} StaysPlain(s: State, actions: seq<Action>, max: int)
    requires Ok(s) && Legal(s, actions) && Plain(s, max) && forall i :: 0 <= i < |actions| ==> !actions[i].StartResize?
    ensures Plain(Exec(s, actions), max)
    decreases |actions|
  {
    if actions != [] {
      StepPlain(s, actions[0], max);
      StaysPlain(Apply(s, actions[0]), actions[1..], max);
    }
  }

  lemma StepPlain(s: State, a: Action, max: int)
    requires Ok(s) && Enabled(s, a) && Plain(s, max) && !a.StartResize?
    ensures Plain(Apply(s, a), max)
  {}

  /** Without SetMaxParallel the maximum is that of NewRunner, raised to one; when Run waits, or has returned,
      so many threads were created in all; and it returns only when they have all exited. */
  lemma ThreadsOfRun(m: int, capacity: nat, failFast: bool, notify: bool, actions: seq<Action>)
    requires Legal(Init(m, capacity, failFast, notify), actions)
    requires forall i :: 0 <= i < |actions| ==> !actions[i].StartResize?
    ensures var s := Exec(Init(m, capacity, failFast, notify), actions);
      && s.maxParallel == AtLeastOne(m)
      && (s.callers.run.Waiting? || s.callers.run.Finished? ==> |s.pool.threads| == AtLeastOne(m))
      && (s.callers.run.Finished? ==> AllExited(s.pool.threads))
  {
    StaysPlain(Init(m, capacity, failFast, notify), actions, AtLeastOne(m));
  }

  // ------------------------------------------------------------ one SetMaxParallel at a time

  ghost predicate AllDone(resizes: seq<ResizePc>) {
    forall k :: 0 <= k < |resizes| ==> resizes[k].ResizeDone?
  }

  /** How far the resize has come: what it has made of a maximum of `max` and `n` threads. */
  predicate Resized(pc: ResizePc, max: int, n: int, v: int, maxNow: int, threads: int) {
    match pc
    case Clamped(x) => x == v && maxNow == max && threads == n
    case Compare(x) => x == v && maxNow == max && threads == n
    case Grow(x, i) => x == v > max && maxNow == max && i <= v - max && threads == n + i
    case StoreMax(x) => x == v && maxNow == max && threads == n + AddedBy(max, v)
    case ResizeDone => maxNow == v && threads == n + AddedBy(max, v)
  }

  /** Run is past its loop; all resizes but the last are done, and that one has come so far. */
  ghost predicate OneResize(s: State, max: int, n: int, v: int) {
    && (s.callers.run.Waiting? || s.callers.run.Finished?)
    && s.callers.resizes != []
    && var last := |s.callers.resizes| - 1;
       AllDone(s.callers.resizes[..last]) && Resized(s.callers.resizes[last], max, n, v, s.maxParallel, |s.pool.threads|)
  }

  lemma ResizeGoesOn(s: State, k: nat, max: int, n: int, v: int)
    requires Ok(s) && ResizeEnabled(s, k) && OneResize(s, max, n, v)
    ensures OneResize(ResizeStep(s, k), max, n, v)
  {
    var last := |s.callers.resizes| - 1;
    if k == last {
      assert ResizeStep(s, k).callers.resizes[..last] == s.callers.resizes[..last];
    }
  }

  lemma StepOneResize(s: State, a: Action, max: int, n: int, v: int)
    requires Ok(s) && Enabled(s, a) && OneResize(s, max, n, v) && !a.StartResize?
    ensures OneResize(Apply(s, a), max, n, v)
  {
    if a.ResizeOn? {
      ResizeGoesOn(s, a.id, max, n, v);
    }
  }

  lemma {:induction false} RunOneResize(s: State, actions: seq<Action>, max: int, n: int, v: int)
    requires Ok(s) && Legal(s, actions) && OneResize(s, max, n, v)
    requires forall i :: 0 <= i < |actions| ==> !actions[i].StartResize?
    ensures OneResize(Exec(s, actions), max, n, v)
    decreases |actions|
  {
    if actions != [] {
      StepOneResize(s, actions[0], max, n, v);
      RunOneResize(Apply(s, actions[0]), actions[1..], max, n, v);
    }
  }

  /** SetMaxParallel, in whatever company, but after Run's loop and with no other resize: when it returns the
      maximum is the new value, raised to one, and exactly the missing threads were added. */
  lemma SetMaxParallelSets(s: State, v: int, actions: seq<Action>)
    requires Ok(s) && (s.callers.run.Waiting? || s.callers.run.Finished?) && AllDone(s.callers.resizes)
    requires Legal(s, [StartResize(v)] + actions) && forall i :: 0 <= i < |actions| ==> !actions[i].StartResize?
    ensures var s' := Exec(s, [StartResize(v)] + actions);
      && |s'.callers.resizes| == |s.callers.resizes| + 1
      && (AllDone(s'.callers.resizes) ==>
            && s'.maxParallel == AtLeastOne(v)
            && |s'.pool.threads| == |s.pool.threads| + AddedBy(s.maxParallel, AtLeastOne(v)))
  {
    var all := [StartResize(v)] + actions;
    assert all[1..] == actions;
    var s1 := Apply(s, StartResize(v));
    assert s1.callers.resizes[..|s.callers.resizes|] == s.callers.resizes;
    RunOneResize(s1, actions, s.maxParallel, |s.pool.threads|, AtLeastOne(v));
    ResizesStay(s1, actions);
  }

  lemma {:induction false} ResizesStay(s: State, actions: seq<Action>)
    requires Ok(s) && Legal(s, actions) && forall i :: 0 <= i < |actions| ==> !actions[i].StartResize?
    ensures |Exec(s, actions).callers.resizes| == |s.callers.resizes|
    decreases |actions|
  {
    if actions != [] {
      ResizesStay(Apply(s, actions[0]), actions[1..]);
    }
  }

  // ------------------------------------------------------------ any number of them at a time

  /** What was asked for: by NewRunner, or by some call of SetMaxParallel. */
  predicate Requested(m: int, actions: seq<Action>, v: int) {
    v == AtLeastOne(m) || exists i :: 0 <= i < |actions| && actions[i].StartResize? && AtLeastOne(actions[i].max) == v
  }

  ghost predicate AllRequested(s: State, m: int, actions: seq<Action>) {
    && Requested(m, actions, s.maxParallel)
    && forall k :: 0 <= k < |s.callers.resizes| && !s.callers.resizes[k].ResizeDone? ==>
         Requested(m, actions, s.callers.resizes[k].max)
  }

  lemma RequestedMore(m: int, actions: seq<Action>, a: Action)
    ensures forall v :: Requested(m, actions, v) ==> Requested(m, actions + [a], v)
    ensures a.StartResize? ==> Requested(m, actions + [a], AtLeastOne(a.max))
  {
    forall v | Requested(m, actions, v)
      ensures Requested(m, actions + [a], v)
    {
      if i :| 0 <= i < |actions| && actions[i].StartResize? && AtLeastOne(actions[i].max) == v {
        assert (actions + [a])[i] == actions[i];
      }
    }
    assert (actions + [a])[|actions|] == a;
  }

  lemma StepRequested(s: State, a: Action, m: int, actions: seq<Action>)
    requires Ok(s) && Enabled(s, a) && AllRequested(s, m, actions)
    ensures AllRequested(Apply(s, a), m, actions + [a])
  {
    RequestedMore(m, actions, a);
  }

  lemma {:induction false} RunRequested(s: State, actions: seq<Action>, m: int, before: seq<Action>)
    requires Ok(s) && Legal(s, actions) && AllRequested(s, m, before)
    ensures AllRequested(Exec(s, actions), m, before + actions)
    decreases |actions|
  {
    if actions == [] {
      assert before + actions == before;
    } else {
      StepRequested(s, actions[0], m, before);
      RunRequested(Apply(s, actions[0]), actions[1..], m, before + [actions[0]]);
      assert before + [actions[0]] + actions[1..] == before + actions;
    }
  }

  /** Overlapping calls or not, the maximum is always one that was asked for. */
  lemma MaximumIsRequested(m: int, capacity: nat, failFast: bool, notify: bool, actions: seq<Action>)
    requires Legal(Init(m, capacity, failFast, notify), actions)
    ensures Requested(m, actions, Exec(Init(m, capacity, failFast, notify), actions).maxParallel)
  {
    RunRequested(Init(m, capacity, failFast, notify), actions, m, []);
    assert [] + actions == actions;
  }
}
