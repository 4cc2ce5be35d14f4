/** ReadAll comes to an end: only reads that bring nothing can be repeated. */
module FanoutProgress {
  import opened Counting
  import opened FanoutState
  import opened FanoutProofs

  function ConsumerRank(c: Consumer): nat {
    match c
    case Computing => 4
    case Waiting(_) => 3
    case Returned(_) => 2
    case Reported(_) => 1
    case Closed(_) => 0
  }

  /** The weight of a byte not yet read from the source, for n consumers. */
  function Weight(n: nat): nat { 2 * n + 3 }

  /** Bytes of the current chunk still to be taken, over all pipes. */
  function Left(n: nat, c: Copier): nat
    requires c.Writing? ==> c.i < n
  {
    if c.Writing? then |c.rest| + (n - 1 - c.i) * |c.chunk| else 0
  }

  function CopierRank(n: nat, c: Copier): nat
    requires c.Stopping? ==> c.j <= n
  {
    match c
    case Reading => n + 3
    case Writing(_, _, _, _) => n + 4
    case Stopping(_, j) => n - j + 1
    case Stopped(_) => 0
  }

  function CollectorRank(n: nat, c: Collector): int {
    match c
    case Awaiting => n + 2
    case Collecting(taken, _, _) => n - taken + 1
    case Answered(_) => 0
  }

  function Measure(s: State): int
    requires Shape(s)
  {
    var n := |s.consumers|;
    (|s.source| - s.pos) * Weight(n) + 2 * Left(n, s.copier) + CopierRank(n, s.copier)
    + Sum(ConsumerRank, s.consumers) + CollectorRank(n, s.collector)
  }

  /** A read that brings no byte: end of file, or an empty buffer. */
  predicate Idle(s: State, a: Action) {
    a.ReadEof? || (a.Transfer? && s.copier.Writing? && s.copier.i < |s.consumers| && s.consumers[s.copier.i] == Waiting(0))
  }

  lemma Distribute(x: int, n: nat, w: nat)
    ensures (x - n) * w == x * w - n * w
  {}

  /** A chunk costs less over all pipes than its bytes weigh. */
  lemma ChunkWeight(n: nat, size: nat)
    requires n > 0
    ensures 2 * (size + (n - 1 - 0) * size) + 3 * size == size * Weight(n)
  {}

  lemma ReadLowers(s: State, n: nat, status: Status)
    requires Inv(s) && Enabled(s, ReadChunk(n, status))
    ensures Measure(Apply(s, ReadChunk(n, status))) < Measure(s)
  {
    var c := |s.consumers|;
    Distribute(|s.source| - s.pos, n, Weight(c));
    if c > 0 {
      ChunkWeight(c, n);
    }
    assert n > 0 ==> n * Weight(c) >= 3;
  }

  lemma TransferLowers(s: State)
    requires Inv(s) && Enabled(s, Transfer)
    ensures Measure(TransferStep(s)) <= Measure(s) + 1
    ensures !Idle(s, Transfer) ==> Measure(TransferStep(s)) < Measure(s)
  {
    var w, n := s.copier, |s.consumers|;
    var k := Min(s.consumers[w.i].n, |w.rest|);
    SumUpdate(ConsumerRank, s.consumers, w.i, Computing);
    NonnegativeProduct(n - 1 - w.i, |w.chunk|);
    if k == |w.rest| && w.i + 1 < n {
      Distribute(n - 1 - w.i, 1, |w.chunk|);
    }
  }

  /** Consumer i moves; the copier and the collector stay. */
  lemma MoveLowers(s: State, s': State, i: nat)
    requires Shape(s) && Shape(s') && i < |s.consumers| == |s'.consumers|
    requires s'.consumers == s.consumers[i := s'.consumers[i]]
    requires s'.source == s.source && s'.pos == s.pos && s'.copier == s.copier && s'.collector == s.collector
    ensures Measure(s') == Measure(s) - ConsumerRank(s.consumers[i]) + ConsumerRank(s'.consumers[i])
  {
    SumUpdate(ConsumerRank, s.consumers, i, s'.consumers[i]);
  }

  lemma ConsumerLowers(s: State, a: Action)
    requires Shape(s) && Enabled(s, a)
    requires a.StartRead? || a.ReadEof? || a.Return? || a.Report? || a.CloseReader?
    ensures Measure(Apply(s, a)) <= Measure(s) + if a.ReadEof? then 1 else -1
  {
    MoveLowers(s, Apply(s, a), a.i);
  }

  /** Every step lowers the measure, except that a read which brings nothing may raise it by one. */
  lemma StepLowers(s: State, a: Action)
    requires Inv(s) && Enabled(s, a)
    ensures Measure(Apply(s, a)) <= Measure(s) + 1
    ensures !Idle(s, a) ==> Measure(Apply(s, a)) < Measure(s)
  {
    if a.StartRead? || a.ReadEof? || a.Return? || a.Report? || a.CloseReader? {
      ConsumerLowers(s, a);
    } else if a.ReadChunk? {
      ReadLowers(s, a.n, a.status);
    } else if a.Transfer? {
      TransferLowers(s);
    } else if a.WriteFails? {
      NonnegativeProduct(|s.consumers| - 1 - s.copier.i, |s.copier.chunk|);
    }
  }

  function IdleReads(s: State, actions: seq<Action>): nat
    requires Shape(s) && Legal(s, actions)
    decreases |actions|
  {
    if actions == [] then 0
    else One(Idle(s, actions[0])) + IdleReads(Apply(s, actions[0]), actions[1..])
  }

  lemma {:induction false} BoundedFrom(s: State, actions: seq<Action>)
    requires Inv(s) && Legal(s, actions)
    ensures |actions| + Measure(Exec(s, actions)) <= Measure(s) + 2 * IdleReads(s, actions)
    decreases |actions|
  {
    if actions != [] {
      StepLowers(s, actions[0]);
      StepInv(s, actions[0]);
      BoundedFrom(Apply(s, actions[0]), actions[1..]);
    }
  }

  lemma MeasureNonnegative(s: State)
    requires Inv(s)
    ensures Measure(s) >= 0
  {
    NonnegativeProduct(|s.source| - s.pos, Weight(|s.consumers|));
    if s.copier.Writing? {
      NonnegativeProduct(|s.consumers| - 1 - s.copier.i, |s.copier.chunk|);
    }
  }

  lemma NonnegativeProduct(x: nat, y: nat)
    ensures x * y >= 0
  {}

  lemma InitMeasure(source: seq<byte>, n: nat)
    ensures Measure(Init(source, n)) == |source| * Weight(n) + 6 * n + 5
  {
    SumComputing(Init(source, n).consumers);
  }

  /** A run of ReadAll on a source of `|source|` bytes with n consumers takes at most as many steps as
      the measure at its start and twice the reads that bring nothing. With no deadlock on the way,
      ReadAll answers once every consumer has stopped repeating such reads. */
  lemma RunsAreBounded(source: seq<byte>, n: nat, actions: seq<Action>)
    requires Legal(Init(source, n), actions)
    ensures |actions| <= |source| * Weight(n) + 6 * n + 5 + 2 * IdleReads(Init(source, n), actions)
  {
    var s := Init(source, n);
    InitInv(source, n);
    InitMeasure(source, n);
    BoundedFrom(s, actions);
    ExecInv(s, actions);
    MeasureNonnegative(Exec(s, actions));
  }

  lemma {:induction false} SumComputing(consumers: seq<Consumer>)
    requires forall i :: 0 <= i < |consumers| ==> consumers[i].Computing?
    ensures Sum(ConsumerRank, consumers) == 4 * |consumers|
  {
    if consumers != [] {
      SumComputing(consumers[..|consumers| - 1]);
    }
  }
}
