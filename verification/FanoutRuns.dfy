/** Which steps of a run make ReadAll fail, and with which error. */
module FanoutRuns {
  import opened FanoutProofs
  import opened FanoutState
  import opened Options

  /** The source breaks, or a consumer has closed the pipe that is being written to. */
  predicate Fault(a: Action) { a.WriteFails? || (a.ReadChunk? && a.status.Broken?) }

  ghost predicate Faulty(actions: seq<Action>) {
    exists i :: 0 <= i < |actions| && Fault(actions[i])
  }

  /** The copier has failed, or will when it has written what it read before the source broke. */
  predicate Doomed(c: Copier) {
    match c
    case Reading => false
    case Writing(_, _, _, status) => status.Broken?
    case Stopping(e, _) => e.Some?
    case Stopped(e) => e.Some?
  }

  lemma StepDoom(s: State, a: Action)
    requires Shape(s) && Enabled(s, a)
    ensures Doomed(Apply(s, a).copier) <==> Doomed(s.copier) || Fault(a)
  {}

  lemma {:induction false} RunDoom(s: State, actions: seq<Action>)
    requires Shape(s) && Legal(s, actions)
    ensures Doomed(Exec(s, actions).copier) <==> Doomed(s.copier) || Faulty(actions)
    decreases |actions|
  {
    if actions != [] {
      StepDoom(s, actions[0]);
      RunDoom(Apply(s, actions[0]), actions[1..]);
      if i :| 0 <= i < |actions| && Fault(actions[i]) && i > 0 {
        assert Fault(actions[1..][i - 1]);
      }
      if i :| 0 <= i < |actions[1..]| && Fault(actions[1..][i]) {
        assert Fault(actions[i + 1]);
      }
    }
  }

  /** The error that a consumer reports in this step, if any. */
  function ErrorReported(s: State, a: Action): seq<Err> {
    if a.Report? && a.i < |s.consumers| && s.consumers[a.i].Returned? && s.consumers[a.i].out.Bad? then [s.consumers[a.i].out.error]
    else []
  }

  /** The errors that consumers report on the way, in order. */
  function ErrorsReported(s: State, actions: seq<Action>): seq<Err>
    requires Shape(s) && Legal(s, actions)
    decreases |actions|
  {
    if actions == [] then []
    else ErrorReported(s, actions[0]) + ErrorsReported(Apply(s, actions[0]), actions[1..])
  }

  lemma StepReports(s: State, a: Action)
    requires Shape(s) && Enabled(s, a)
    ensures Apply(s, a).errs == s.errs + ErrorReported(s, a)
  {}

  lemma {:induction false} ReportsArrive(s: State, actions: seq<Action>)
    requires Shape(s) && Legal(s, actions)
    ensures Exec(s, actions).errs == s.errs + ErrorsReported(s, actions)
    decreases |actions|
  {
    if actions != [] {
      var s1 := Apply(s, actions[0]);
      StepReports(s, actions[0]);
      ReportsArrive(s1, actions[1..]);
      Regroup(s.errs, ErrorReported(s, actions[0]), ErrorsReported(s1, actions[1..]));
    }
  }

  lemma Regroup(a: seq<Err>, b: seq<Err>, c: seq<Err>)
    ensures (a + b) + c == a + (b + c)
  {}

  lemma RunReachable(source: seq<byte>, n: nat, actions: seq<Action>)
    requires Legal(Init(source, n), actions)
    ensures Reachable(Exec(Init(source, n), actions))
  {}

  /** ReadAll fails if and only if on the way the source broke, a consumer had closed the pipe that was to be
      written to, or a consumer reported an error; and then with the error reported last, if any. */
  lemma FailsIff(source: seq<byte>, n: nat, actions: seq<Action>)
    requires Legal(Init(source, n), actions) && Exec(Init(source, n), actions).collector.Answered?
    ensures var answer := Exec(Init(source, n), actions).collector.answer;
      var errors := ErrorsReported(Init(source, n), actions);
      && (answer.Failure? <==> Faulty(actions) || errors != [])
      && (errors != [] ==> answer == Failure(errors[|errors| - 1]))
  {
    var s0 := Init(source, n);
    var s := Exec(s0, actions);
    RunReachable(source, n, actions);
    ReachableInv(s);
    RunDoom(s0, actions);
    ReportsArrive(s0, actions);
    assert s.errs == ErrorsReported(s0, actions);
  }

  /** A consumer that reads the end of its pipe, while nothing has gone wrong, has had the whole source. */
  lemma EofMeansAll(s: State, i: nat)
    requires Reachable(s) && Enabled(s, ReadEof(i)) && !Doomed(s.copier)
    ensures s.received[i] == s.source
  {
    ReachableInv(s);
  }
}
