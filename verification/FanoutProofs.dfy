/** Data safety, message discipline, absence of deadlock and termination of the fan-out ReadAll. */
module FanoutProofs {
  import opened Counting
  import opened FanoutState
  import opened Options

  // ------------------------------------------------------------ what each consumer has received

  /** How many bytes pipe `k` has delivered while the copier is at work. */
  function Delivered(size: nat, pos: nat, copier: Copier, k: nat): int {
    match copier
    case Reading => pos
    case Writing(chunk, i, rest, _) => pos - (if k < i then 0 else if k == i then |rest| else |chunk|)
    case _ => size
  }

  predicate ErrorFree(c: Copier) {
    match c
    case Stopping(e, _) => e.None?
    case Stopped(e) => e.None?
    case _ => true
  }

  /** Everybody has a prefix of the source, later pipes a shorter one; as long as nothing has gone
      wrong the lengths are known exactly. */
  ghost predicate Bytes(source: seq<byte>, pos: nat, copier: Copier, received: seq<seq<byte>>) {
    && pos <= |source|
    && (forall k :: 0 <= k < |received| ==> received[k] <= source)
    && (forall i, j :: 0 <= i < j < |received| ==> |received[j]| <= |received[i]|)
    && (ErrorFree(copier) ==> forall k :: 0 <= k < |received| ==> |received[k]| == Delivered(|source|, pos, copier, k))
    && match copier
       case Writing(chunk, _, rest, status) =>
         && 0 < |rest| <= |chunk| <= pos
         && chunk == source[pos - |chunk|..pos]
         && rest == source[pos - |rest|..pos]
         && (status.Eof? ==> pos == |source|)
       case _ => true
  }

  ghost predicate Data(s: State) {
    Shape(s) && Bytes(s.source, s.pos, s.copier, s.received)
  }

  /** What the receiving consumer has after it took `k` bytes. */
  lemma TakenBytes(source: seq<byte>, pos: nat, w: Copier, received: seq<seq<byte>>, k: nat)
    requires Bytes(source, pos, w, received) && w.Writing? && w.i < |received| && k <= |w.rest|
    ensures received[w.i] + w.rest[..k] == source[..pos - |w.rest| + k]
  {
    assert received[w.i] == source[..pos - |w.rest|];
  }

  /** Pipe i takes a part of what is left. */
  lemma PartTaken(source: seq<byte>, pos: nat, w: Copier, received: seq<seq<byte>>, k: nat)
    requires Bytes(source, pos, w, received) && w.Writing? && w.i < |received| && k < |w.rest|
    ensures Bytes(source, pos, w.(rest := w.rest[k..]), received[w.i := source[..pos - |w.rest| + k]])
  {
    assert w.rest[k..] == source[pos - (|w.rest| - k)..pos];
  }

  /** Pipe i takes all of it. */
  lemma AllTaken(source: seq<byte>, pos: nat, w: Copier, received: seq<seq<byte>>)
    requires Bytes(source, pos, w, received) && w.Writing? && w.i < |received|
    ensures Bytes(source, pos, NextPipe(|received|, w.chunk, w.i, w.status), received[w.i := source[..pos]])
  {}

  /** A transfer of `k` bytes. */
  lemma TransferKeepsBytes(source: seq<byte>, pos: nat, w: Copier, received: seq<seq<byte>>, k: nat)
    requires Bytes(source, pos, w, received) && w.Writing? && w.i < |received| && k <= |w.rest|
    ensures Bytes(source, pos,
                  if k == |w.rest| then NextPipe(|received|, w.chunk, w.i, w.status) else w.(rest := w.rest[k..]),
                  received[w.i := received[w.i] + w.rest[..k]])
  {
    TakenBytes(source, pos, w, received, k);
    if k == |w.rest| {
      AllTaken(source, pos, w, received);
    } else {
      PartTaken(source, pos, w, received, k);
    }
  }

  lemma TransferKeepsData(s: State)
    requires Data(s) && Enabled(s, Transfer)
    ensures Data(Apply(s, Transfer))
  {
    var w := s.copier;
    TransferKeepsBytes(s.source, s.pos, w, s.received, Min(s.consumers[w.i].n, |w.rest|));
  }

  lemma ReadKeepsData(s: State, n: nat, status: Status)
    requires Data(s) && Enabled(s, ReadChunk(n, status))
    ensures Data(Apply(s, ReadChunk(n, status)))
  {}

  lemma StopKeepsData(s: State, a: Action)
    requires Data(s) && Enabled(s, a) && (a.WriteFails? || a.CloseWriter?)
    ensures Data(Apply(s, a))
  {}

  lemma StepKeepsData(s: State, a: Action)
    requires Data(s) && Enabled(s, a)
    ensures Data(Apply(s, a))
  {
    if a.Transfer? {
      TransferKeepsData(s);
    } else if a.ReadChunk? {
      ReadKeepsData(s, a.n, a.status);
    } else if a.WriteFails? || a.CloseWriter? {
      StopKeepsData(s, a);
    } else {
      var s' := Apply(s, a);
      assert s'.source == s.source && s'.pos == s.pos && s'.copier == s.copier && s'.received == s.received;
    }
  }

  // ------------------------------------------------------------ messages

  predicate HasReported(c: Consumer) { c.Reported? || c.Closed? }

  /** The outcome of consumer `i` is among the messages. */
  predicate SentIn(out: Outcome, i: nat, errs: seq<Err>, values: seq<Message>) {
    match out
    case Good(v) => Message(v, i) in values
    case Bad(e) => e in errs
  }

  /** The messages sent are exactly those of the consumers that have reported, one each. */
  ghost predicate Messages(consumers: seq<Consumer>, errs: seq<Err>, values: seq<Message>) {
    && Count(HasReported, consumers) == |errs| + |values|
    && (forall k :: 0 <= k < |values| ==>
          && values[k].pos < |consumers|
          && HasReported(consumers[values[k].pos])
          && consumers[values[k].pos].out == Good(values[k].value))
    && (forall k, l :: 0 <= k < l < |values| ==> values[k].pos != values[l].pos)
    && (forall i :: 0 <= i < |consumers| && HasReported(consumers[i]) ==>
          SentIn(consumers[i].out, i, errs, values))
    && (forall e :: e in errs ==> exists i :: 0 <= i < |consumers| && HasReported(consumers[i]) && consumers[i].out == Bad(e))
  }

  lemma CausesStay(consumers: seq<Consumer>, errs: seq<Err>, values: seq<Message>, i: nat, c: Consumer, e: Err)
    requires Messages(consumers, errs, values) && i < |consumers| && e in errs
    requires HasReported(consumers[i]) ==> HasReported(c) && c.out == consumers[i].out
    ensures var after := consumers[i := c];
      exists j :: 0 <= j < |after| && HasReported(after[j]) && after[j].out == Bad(e)
  {
    var j :| 0 <= j < |consumers| && HasReported(consumers[j]) && consumers[j].out == Bad(e);
    assert HasReported(consumers[i := c][j]);
  }

  lemma MessagesGood(consumers: seq<Consumer>, errs: seq<Err>, values: seq<Message>, i: nat, v: Value)
    requires Messages(consumers, errs, values) && i < |consumers| && consumers[i] == Returned(Good(v))
    ensures Messages(consumers[i := Reported(Good(v))], errs, values + [Message(v, i)])
  {
    CountUpdate(HasReported, consumers, i, Reported(Good(v)));
    forall e | e in errs
      ensures var after := consumers[i := Reported(Good(v))];
        exists j :: 0 <= j < |after| && HasReported(after[j]) && after[j].out == Bad(e)
    {
      CausesStay(consumers, errs, values, i, Reported(Good(v)), e);
    }
  }

  lemma MessagesBad(consumers: seq<Consumer>, errs: seq<Err>, values: seq<Message>, i: nat, error: Err)
    requires Messages(consumers, errs, values) && i < |consumers| && consumers[i] == Returned(Bad(error))
    ensures Messages(consumers[i := Reported(Bad(error))], errs + [error], values)
  {
    var after := consumers[i := Reported(Bad(error))];
    CountUpdate(HasReported, consumers, i, Reported(Bad(error)));
    assert HasReported(after[i]) && after[i].out == Bad(error);
    forall e | e in errs
      ensures exists j :: 0 <= j < |after| && HasReported(after[j]) && after[j].out == Bad(e)
    {
      CausesStay(consumers, errs, values, i, Reported(Bad(error)), e);
    }
  }

  /** Moves that do not send: before the report, or from Reported to Closed. */
  lemma MessagesMove(consumers: seq<Consumer>, errs: seq<Err>, values: seq<Message>, i: nat, c: Consumer)
    requires Messages(consumers, errs, values) && i < |consumers|
    requires HasReported(consumers[i]) == HasReported(c) && (HasReported(c) ==> c.out == consumers[i].out)
    ensures Messages(consumers[i := c], errs, values)
  {
    var after := consumers[i := c];
    CountUpdate(HasReported, consumers, i, c);
    forall e | e in errs
      ensures exists j :: 0 <= j < |after| && HasReported(after[j]) && after[j].out == Bad(e)
    {
      CausesStay(consumers, errs, values, i, c, e);
    }
  }

  /** The collector's variables are what the messages taken so far amount to; it answers when it
      has taken one message per consumer. */
  ghost predicate Collection(s: State)
    requires Shape(s)
  {
    match s.collector
    case Awaiting => s.errsTaken == 0 && s.valuesTaken == 0
    case Collecting(taken, last, results) =>
      && s.copier.Stopped?
      && taken == s.errsTaken + s.valuesTaken < |s.consumers|
      && last == LastError(s.copier.error, s.errs[..s.errsTaken])
      && results == Fill(|s.consumers|, s.values[..s.valuesTaken])
    case Answered(answer) =>
      && s.copier.Stopped?
      && s.errsTaken == |s.errs| && s.valuesTaken == |s.values|
      && |s.errs| + |s.values| == |s.consumers|
      && answer == Collected(|s.consumers|, s.copier.error, s.errs, s.values)
  }

  ghost predicate Inv(s: State) {
    Data(s) && Messages(s.consumers, s.errs, s.values) && Collection(s)
  }

  /** One more error, or one more value, and the collector's variables. */
  lemma TookError(copier: Option<Err>, errs: seq<Err>, k: nat)
    requires k < |errs|
    ensures LastError(copier, errs[..k + 1]) == Some(errs[k])
  {}

  lemma TookValue(n: nat, values: seq<Message>, k: nat)
    requires k < |values| && forall i :: 0 <= i < |values| ==> values[i].pos < n
    ensures Fill(n, values[..k + 1]) == Fill(n, values[..k])[values[k].pos := Some(values[k].value)]
  {
    assert values[..k + 1][..k] == values[..k];
  }

  lemma TakeErrorKeeps(s: State)
    requires Shape(s) && Collection(s) && |s.errs| + |s.values| <= |s.consumers| && Enabled(s, TakeError)
    ensures Collection(Apply(s, TakeError))
  {
    TookError(s.copier.error, s.errs, s.errsTaken);
    assert s.errs[..|s.errs|] == s.errs && s.values[..|s.values|] == s.values;
  }

  lemma TakeValueKeeps(s: State)
    requires Shape(s) && Collection(s) && |s.errs| + |s.values| <= |s.consumers| && Enabled(s, TakeValue)
    ensures Collection(Apply(s, TakeValue))
  {
    TookValue(|s.consumers|, s.values, s.valuesTaken);
    assert s.errs[..|s.errs|] == s.errs && s.values[..|s.values|] == s.values;
  }

  lemma StartKeeps(s: State)
    requires Shape(s) && Collection(s) && |s.errs| + |s.values| <= |s.consumers| && Enabled(s, StartCollecting)
    ensures Collection(Apply(s, StartCollecting))
  {
    assert s.values[..0] == [] && s.errs[..0] == [];
    assert s.errs[..|s.errs|] == s.errs && s.values[..|s.values|] == s.values;
  }

  /** Nobody sends any more once ReadAll has answered. */
  lemma ReportBeforeAnswer(s: State, i: nat)
    requires Inv(s) && i < |s.consumers| && !HasReported(s.consumers[i])
    ensures |s.errs| + |s.values| < |s.consumers| && !s.collector.Answered?
  {
    CountUpdate(HasReported, s.consumers, i, Reported(Bad("")));
    CountBound(HasReported, s.consumers[i := Reported(Bad(""))]);
  }

  lemma ReportKeeps(s: State, i: nat)
    requires Inv(s) && Enabled(s, Report(i))
    ensures Inv(Apply(s, Report(i)))
  {
    var s' := Apply(s, Report(i));
    match s.consumers[i].out {
      case Good(v) => MessagesGood(s.consumers, s.errs, s.values, i, v);
      case Bad(e) => MessagesBad(s.consumers, s.errs, s.values, i, e);
    }
    ReportBeforeAnswer(s, i);
    assert s'.errs[..s.errsTaken] == s.errs[..s.errsTaken];
    assert s'.values[..s.valuesTaken] == s.values[..s.valuesTaken];
    StepKeepsData(s, Report(i));
  }

  /** A consumer's own move leaves the messages and what was collected of them. */
  lemma ConsumerKeeps(s: State, a: Action)
    requires Inv(s) && Enabled(s, a) && (a.StartRead? || a.ReadEof? || a.Return? || a.CloseReader?)
    ensures Messages(Apply(s, a).consumers, Apply(s, a).errs, Apply(s, a).values) && Collection(Apply(s, a))
  {
    MessagesMove(s.consumers, s.errs, s.values, a.i, Apply(s, a).consumers[a.i]);
  }

  lemma TransferKeeps(s: State)
    requires Inv(s) && Enabled(s, Transfer)
    ensures var s' := Apply(s, Transfer); Messages(s'.consumers, s'.errs, s'.values) && Collection(s')
  {
    MessagesMove(s.consumers, s.errs, s.values, s.copier.i, Computing);
  }

  lemma CollectorKeeps(s: State, a: Action)
    requires Inv(s) && Enabled(s, a) && (a.StartCollecting? || a.TakeError? || a.TakeValue?)
    ensures Messages(Apply(s, a).consumers, Apply(s, a).errs, Apply(s, a).values) && Collection(Apply(s, a))
  {
    CountBound(HasReported, s.consumers);
    match a {
      case StartCollecting => StartKeeps(s);
      case TakeError => TakeErrorKeeps(s);
      case TakeValue => TakeValueKeeps(s);
    }
  }

  lemma CopierKeeps(s: State, a: Action)
    requires Shape(s) && Collection(s) && Enabled(s, a) && (a.ReadChunk? || a.WriteFails? || a.CloseWriter?)
    ensures var s' := Apply(s, a);
      s'.consumers == s.consumers && s'.errs == s.errs && s'.values == s.values && Collection(s')
  {}

  lemma StepInv(s: State, a: Action)
    requires Inv(s) && Enabled(s, a)
    ensures Inv(Apply(s, a))
  {
    StepKeepsData(s, a);
    if a.Report? {
      ReportKeeps(s, a.i);
    } else if a.StartCollecting? || a.TakeError? || a.TakeValue? {
      CollectorKeeps(s, a);
    } else if a.Transfer? {
      TransferKeeps(s);
    } else if a.ReadChunk? || a.WriteFails? || a.CloseWriter? {
      CopierKeeps(s, a);
    } else {
      ConsumerKeeps(s, a);
    }
  }

  lemma InitInv(source: seq<byte>, n: nat)
    ensures Inv(Init(source, n))
  {
    CountZero(HasReported, Init(source, n).consumers);
  }

  lemma {:induction false} ExecInv(s: State, actions: seq<Action>)
    requires Inv(s) && Legal(s, actions)
    ensures Inv(Exec(s, actions))
    decreases |actions|
  {
    if actions != [] {
      StepInv(s, actions[0]);
      ExecInv(Apply(s, actions[0]), actions[1..]);
    }
  }

  /** `s` occurs in some run of ReadAll on this source with n consumers. */
  ghost predicate Reachable(s: State) {
    exists source: seq<byte>, n: nat, actions: seq<Action> ::
      Legal(Init(source, n), actions) && Exec(Init(source, n), actions) == s
  }

  lemma ReachableInv(s: State)
    requires Reachable(s)
    ensures Inv(s)
  {
    var source: seq<byte>, n: nat, actions: seq<Action> :|
      Legal(Init(source, n), actions) && Exec(Init(source, n), actions) == s;
    InitInv(source, n);
    ExecInv(Init(source, n), actions);
  }

  // ------------------------------------------------------------ main results

  /** At every moment every consumer has received a prefix of the source, and a later consumer's
      bytes are a prefix of an earlier one's. */
  lemma PrefixSafety(s: State, i: nat, j: nat)
    requires Reachable(s) && i <= j < |s.received|
    ensures s.received[j] <= s.received[i] <= s.source
  {
    ReachableInv(s);
  }

  lemma {:induction false} FillAt(n: nat, values: seq<Message>, m: Message)
    requires forall k :: 0 <= k < |values| ==> values[k].pos < n
    requires forall k, l :: 0 <= k < l < |values| ==> values[k].pos != values[l].pos
    requires m in values
    ensures Fill(n, values)[m.pos] == Some(m.value)
  {
    var last := |values| - 1;
    if m != values[last] {
      var k :| 0 <= k < |values| && values[k] == m;
      assert m in values[..last] by { assert values[..last][k] == m; }
      FillAt(n, values[..last], m);
    }
  }

  /** If ReadAll returns a nil error, every consumer was delivered the whole source, and results[i]
      is the value consumer i returned. */
  lemma NilErrorMeansAllDelivered(s: State, i: nat)
    requires Reachable(s) && s.collector.Answered? && s.collector.answer.Success? && i < |s.consumers|
    ensures s.received[i] == s.source
    ensures |s.collector.answer.results| == |s.consumers|
    ensures HasReported(s.consumers[i]) && s.consumers[i].out.Good?
    ensures s.collector.answer.results[i] == Some(s.consumers[i].out.value)
  {
    ReachableInv(s);
    AllReported(s, i);
    assert s.errs == [];
    FillAt(|s.consumers|, s.values, Message(s.consumers[i].out.value, i));
  }

  lemma AllReported(s: State, i: nat)
    requires Inv(s) && s.collector.Answered? && i < |s.consumers|
    ensures HasReported(s.consumers[i])
  {
    if !HasReported(s.consumers[i]) {
      ReportBeforeAnswer(s, i);
    }
  }

  /** ReadAll returns an error exactly when the copier failed or some consumer returned one; and then
      it is the copier's error or that of a consumer. */
  lemma ErrorExactly(s: State)
    requires Reachable(s) && s.collector.Answered?
    ensures s.copier.Stopped?
    ensures s.collector.answer.Failure? <==>
      s.copier.error.Some? || exists i :: 0 <= i < |s.consumers| && HasReported(s.consumers[i]) && s.consumers[i].out.Bad?
    ensures s.collector.answer.Failure? ==>
      || s.copier.error == Some(s.collector.answer.error)
      || exists i :: 0 <= i < |s.consumers| && HasReported(s.consumers[i]) && s.consumers[i].out == Bad(s.collector.answer.error)
  {
    ReachableInv(s);
    if s.errs != [] {
      var e := s.errs[|s.errs| - 1];
      assert e in s.errs;
      var i :| 0 <= i < |s.consumers| && HasReported(s.consumers[i]) && s.consumers[i].out == Bad(e);
    }
  }

  /** A consumer that is about to send its message finds room in either channel, and finds it open. */
  lemma ReportNeverBlocks(s: State, i: nat)
    requires Reachable(s) && i < |s.consumers| && s.consumers[i].Returned?
    ensures |s.errs| - s.errsTaken < |s.consumers| && |s.values| - s.valuesTaken < |s.consumers|
    ensures !s.collector.Answered?
  {
    ReachableInv(s);
    ReportBeforeAnswer(s, i);
  }

  /** The consumer's own decision: read again or return. */
  predicate Choice(a: Action) { a.StartRead? || a.Return? }

  /** As long as ReadAll has not answered, either some consumer is computing, and will read again or
      return, or the system itself can go on: nobody waits for ever, also when consumers stop early. */
  lemma NoDeadlock(s: State) returns (a: Action)
    requires Reachable(s) && !s.collector.Answered?
    ensures Enabled(s, a)
    ensures Choice(a) ==> a.Return?
  {
    ReachableInv(s);
    match s.copier {
      case Reading => a := ReadChunk(|s.source| - s.pos, Eof);
      case Writing(_, i, _, _) => a := Unblock(s, i);
      case Stopping(_, _) => a := CloseWriter;
      case Stopped(_) =>
        if s.collector.Awaiting? {
          a := StartCollecting;
        } else if s.errsTaken < |s.errs| {
          a := TakeError;
        } else if s.valuesTaken < |s.values| {
          a := TakeValue;
        } else {
          var i := SomebodySilent(s.consumers);
          a := Unblock(s, i);
        }
    }
  }

  /** What a consumer that has not yet closed its pipe, or the copier writing to it, can do next. */
  lemma Unblock(s: State, i: nat) returns (a: Action)
    requires i < |s.consumers|
    requires (s.copier.Writing? && s.copier.i == i) || (s.copier.Stopped? && !HasReported(s.consumers[i]))
    ensures Enabled(s, a) && (Choice(a) ==> a.Return?)
    ensures s.consumers[i].Waiting? ==> !Choice(a)
  {
    match s.consumers[i] {
      case Computing => a := Return(i, Bad(""));
      case Waiting(_) => a := if s.copier.Writing? then Transfer else ReadEof(i);
      case Returned(_) => a := Report(i);
      case Reported(_) => a := CloseReader(i);
      case Closed(_) => a := WriteFails;
    }
  }

  lemma SomebodySilent(consumers: seq<Consumer>) returns (i: nat)
    requires Count(HasReported, consumers) < |consumers|
    ensures i < |consumers| && !HasReported(consumers[i])
  {
    i := 0;
    while i < |consumers| && HasReported(consumers[i])
      invariant i <= |consumers|
      invariant forall k :: 0 <= k < i ==> HasReported(consumers[k])
    {
      i := i + 1;
    }
    if i == |consumers| {
      CountAll(consumers);
    }
  }

  lemma {:induction false} CountAll(consumers: seq<Consumer>)
    requires forall k :: 0 <= k < |consumers| ==> HasReported(consumers[k])
    ensures Count(HasReported, consumers) == |consumers|
  {
    if consumers != [] {
      CountAll(consumers[..|consumers| - 1]);
    }
  }
}
