/** The fan-out ReadAll as a transition system: one copier writing every chunk to the pipes in
    order, one goroutine per consumer, and the caller collecting their messages. Pipes are
    synchronous; the two message channels have room for one message per consumer. */
module FanoutState {
  import opened Options

  newtype byte = x: int | 0 <= x < 256

  type Value = string
  type Err = string

  /** What a consumer function returns. */
  datatype Outcome = Good(value: Value) | Bad(error: Err)

  datatype Consumer =
    | Computing               // between reads
    | Waiting(n: nat)         // inside Read with a buffer of n bytes
    | Returned(out: Outcome)  // the consumer function has returned
    | Reported(out: Outcome)  // its message is sent
    | Closed(out: Outcome)    // and its end of the pipe is closed

  /** What the source says after a chunk. */
  datatype Status = More | Eof | Broken(error: Err)

  datatype Copier =
    | Reading
    | Writing(chunk: seq<byte>, i: nat, rest: seq<byte>, status: Status)  // writing to pipe i, `rest` not yet taken
    | Stopping(error: Option<Err>, j: nat)                               // the writers of pipes below j are closed
    | Stopped(error: Option<Err>)

  datatype Message = Message(value: Value, pos: nat)

  /** ReadAll returns either an error or the results, nil where nothing was stored. */
  datatype Answer = Failure(error: Err) | Success(results: seq<Option<Value>>)

  datatype Collector = Awaiting | Collecting(taken: nat, last: Option<Err>, results: seq<Option<Value>>) | Answered(answer: Answer)

  /** `errs` and `values` are all messages sent so far; the first `errsTaken` and `valuesTaken` of them
      have been received. */
  datatype State = State(
    source: seq<byte>, pos: nat, copier: Copier, consumers: seq<Consumer>, received: seq<seq<byte>>,
    errs: seq<Err>, errsTaken: nat, values: seq<Message>, valuesTaken: nat, collector: Collector)

  predicate Shape(s: State) {
    && |s.received| == |s.consumers|
    && s.pos <= |s.source|
    && (s.copier.Writing? ==> s.copier.i < |s.consumers|)
    && (s.copier.Stopping? ==> s.copier.j <= |s.consumers|)
    && s.errsTaken <= |s.errs| && s.valuesTaken <= |s.values|
    && (forall k :: 0 <= k < |s.values| ==> s.values[k].pos < |s.consumers|)
    && (s.collector.Collecting? ==> |s.collector.results| == |s.consumers|)
  }

  function Init(source: seq<byte>, n: nat): State {
    State(source, 0, Reading, seq(n, i => Computing), seq(n, i => []), [], 0, [], 0, Awaiting)
  }

  datatype Action =
    | ReadChunk(n: nat, status: Status)
    | Transfer
    | WriteFails
    | CloseWriter
    | StartRead(i: nat, n: nat)
    | ReadEof(i: nat)
    | Return(i: nat, out: Outcome)
    | Report(i: nat)
    | CloseReader(i: nat)
    | StartCollecting
    | TakeError
    | TakeValue

  function Min(a: nat, b: nat): nat { if a < b then a else b }

  /** Everything written to the last pipe: what io.Copy does next. */
  function AfterWrite(status: Status): Copier {
    match status
    case More => Reading
    case Eof => Stopping(None, 0)
    case Broken(e) => Stopping(Some(e), 0)
  }

  /** The chunk has been taken by pipe i. */
  function NextPipe(n: nat, chunk: seq<byte>, i: nat, status: Status): Copier {
    if i + 1 < n then Writing(chunk, i + 1, chunk, status) else AfterWrite(status)
  }

  predicate WriterClosed(s: State, i: nat) {
    s.copier.Stopped? || (s.copier.Stopping? && i < s.copier.j)
  }

  predicate Enabled(s: State, a: Action) {
    match a
    case ReadChunk(n, status) =>
      && s.copier.Reading?
      && s.pos + n <= |s.source|
      && (status.More? ==> n > 0)
      && (status.Eof? ==> s.pos + n == |s.source|)
    case Transfer => s.copier.Writing? && s.copier.i < |s.consumers| && s.consumers[s.copier.i].Waiting?
    case WriteFails => s.copier.Writing? && s.copier.i < |s.consumers| && s.consumers[s.copier.i].Closed?
    case CloseWriter => s.copier.Stopping?
    case StartRead(i, _) => i < |s.consumers| && s.consumers[i].Computing?
    case ReadEof(i) => i < |s.consumers| && s.consumers[i].Waiting? && WriterClosed(s, i)
    case Return(i, _) => i < |s.consumers| && s.consumers[i].Computing?
    case Report(i) => i < |s.consumers| && s.consumers[i].Returned?
    case CloseReader(i) => i < |s.consumers| && s.consumers[i].Reported?
    case StartCollecting => s.collector.Awaiting? && s.copier.Stopped?
    case TakeError => s.collector.Collecting? && s.errsTaken < |s.errs|
    case TakeValue => s.collector.Collecting? && s.valuesTaken < |s.values|
  }

  function SetConsumer(s: State, i: nat, c: Consumer): State
    requires i < |s.consumers|
  {
    s.(consumers := s.consumers[i := c])
  }

  function TransferStep(s: State): State
    requires Shape(s) && Enabled(s, Transfer)
  {
    var w := s.copier;
    var k := Min(s.consumers[w.i].n, |w.rest|);
    s.(consumers := s.consumers[w.i := Computing],
       received := s.received[w.i := s.received[w.i] + w.rest[..k]],
       copier := if k == |w.rest| then NextPipe(|s.consumers|, w.chunk, w.i, w.status) else w.(rest := w.rest[k..]))
  }

  /** After `taken` messages: the loop of getAllReadersResult, and what follows it. */
  function AfterTake(n: nat, taken: nat, last: Option<Err>, results: seq<Option<Value>>): Collector {
    if taken < n then Collecting(taken, last, results)
    else Answered(if last.Some? then Failure(last.value) else Success(results))
  }

  function Apply(s: State, a: Action): (s': State)
    requires Shape(s) && Enabled(s, a)
    ensures Shape(s')
  {
    match a
    case ReadChunk(n, status) =>
      var chunk := s.source[s.pos..s.pos + n];
      s.(pos := s.pos + n,
         copier := if n > 0 && |s.consumers| > 0 then Writing(chunk, 0, chunk, status) else AfterWrite(status))
    case Transfer => TransferStep(s)
    case WriteFails => s.(copier := Stopping(Some("io: read/write on closed pipe"), 0))
    case CloseWriter =>
      s.(copier := if s.copier.j < |s.consumers| then s.copier.(j := s.copier.j + 1) else Stopped(s.copier.error))
    case StartRead(i, n) => SetConsumer(s, i, Waiting(n))
    case ReadEof(i) => SetConsumer(s, i, Computing)
    case Return(i, out) => SetConsumer(s, i, Returned(out))
    case Report(i) =>
      var out := s.consumers[i].out;
      SetConsumer(s, i, Reported(out)).(
        errs := if out.Bad? then s.errs + [out.error] else s.errs,
        values := if out.Good? then s.values + [Message(out.value, i)] else s.values)
    case CloseReader(i) => SetConsumer(s, i, Closed(s.consumers[i].out))
    case StartCollecting => s.(collector := AfterTake(|s.consumers|, 0, s.copier.error, seq(|s.consumers|, i => None)))
    case TakeError =>
      var c := s.collector;
      s.(errsTaken := s.errsTaken + 1,
         collector := AfterTake(|s.consumers|, c.taken + 1, Some(s.errs[s.errsTaken]), c.results))
    case TakeValue =>
      var c := s.collector;
      var m := s.values[s.valuesTaken];
      s.(valuesTaken := s.valuesTaken + 1,
         collector := AfterTake(|s.consumers|, c.taken + 1, c.last, c.results[m.pos := Some(m.value)]))
  }

  predicate Legal(s: State, actions: seq<Action>)
    requires Shape(s)
    decreases |actions|
  {
    actions == [] || (Enabled(s, actions[0]) && Legal(Apply(s, actions[0]), actions[1..]))
  }

  function Exec(s: State, actions: seq<Action>): (s': State)
    requires Shape(s) && Legal(s, actions)
    ensures Shape(s')
    decreases |actions|
  {
    if actions == [] then s else Exec(Apply(s, actions[0]), actions[1..])
  }

  // ------------------------------------------------------------ what collecting amounts to

  /** results[m.pos] = m.value for each message in turn. */
  function Fill(n: nat, values: seq<Message>): (r: seq<Option<Value>>)
    requires forall k :: 0 <= k < |values| ==> values[k].pos < n
    ensures |r| == n
  {
    if values == [] then seq(n, i => None)
    else
      var m := values[|values| - 1];
      Fill(n, values[..|values| - 1])[m.pos := Some(m.value)]
  }

  /** The last error received, or else the copier's. */
  function LastError(copier: Option<Err>, errs: seq<Err>): Option<Err> {
    if errs == [] then copier else Some(errs[|errs| - 1])
  }

  /** The answer, given everything that was sent: it does not depend on the order in which the two
      channels were drained. */
  function Collected(n: nat, copier: Option<Err>, errs: seq<Err>, values: seq<Message>): Answer
    requires forall k :: 0 <= k < |values| ==> values[k].pos < n
  {
    var last := LastError(copier, errs);
    if last.Some? then Failure(last.value) else Success(Fill(n, values))
  }
}
