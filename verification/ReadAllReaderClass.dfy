/** The collecting loop of ReadAll, over the two message channels. */
module ReadAllReaderClass {
  import opened Options
  import opened FanoutState

  /** What a consumer sends. */
  datatype Arrival = OfError(error: Err) | OfValue(message: Message)

  function ErrorsOf(coming: seq<Arrival>): seq<Err> {
    if coming == [] then []
    else (if coming[0].OfError? then [coming[0].error] else []) + ErrorsOf(coming[1..])
  }

  function ValuesOf(coming: seq<Arrival>): seq<Message> {
    if coming == [] then []
    else (if coming[0].OfValue? then [coming[0].message] else []) + ValuesOf(coming[1..])
  }

  lemma {:induction false} ArrivalsSize(coming: seq<Arrival>)
    ensures |ErrorsOf(coming)| + |ValuesOf(coming)| == |coming|
  {
    if coming != [] {
      ArrivalsSize(coming[1..]);
    }
  }

  lemma FillMore(n: nat, values: seq<Message>, m: Message)
    requires forall k :: 0 <= k < |values| ==> values[k].pos < n
    requires m.pos < n
    ensures forall k :: 0 <= k < |values + [m]| ==> (values + [m])[k].pos < n
    ensures Fill(n, values + [m]) == Fill(n, values)[m.pos := Some(m.value)]
  {
    assert (values + [m])[..|values|] == values;
  }

  class ReadAllReader {
    /** What is in the channels, oldest message first, and what the consumers have yet to send. */
    var errs: seq<Err>
    var results: seq<Message>
    var coming: seq<Arrival>
    const consumers: nat

    constructor (consumers: nat, coming: seq<Arrival>)
      ensures this.consumers == consumers && errs == [] && results == [] && this.coming == coming
    {
      this.consumers := consumers;
      errs, results, this.coming := [], [], coming;
    }

    /** Everything that is or will be sent on either channel. */
    ghost function AllErrors(): seq<Err>
      reads this
    {
      errs + ErrorsOf(coming)
    }

    ghost function AllValues(): seq<Message>
      reads this
    {
      results + ValuesOf(coming)
    }

    /** The next consumer sends. */
    method Arrive()
      requires coming != []
      modifies this
      ensures AllErrors() == old(AllErrors()) && AllValues() == old(AllValues())
      ensures coming == old(coming)[1..] && |errs| + |results| == old(|errs| + |results|) + 1
      ensures old(errs) <= errs && old(results) <= results
    {
      match coming[0] {
        case OfError(e) => errs := errs + [e];
        case OfValue(m) => results := results + [m];
      }
      coming := coming[1..];
    }

    /** The select: it waits until one of the channels has a message, while others may arrive. */
    method Await()
      requires |errs| + |results| + |coming| > 0
      modifies this
      ensures AllErrors() == old(AllErrors()) && AllValues() == old(AllValues())
      ensures errs != [] || results != []
      ensures |errs| + |results| + |coming| == old(|errs| + |results| + |coming|)
    {
      var more: bool := *;
      while coming != [] && ((errs == [] && results == []) || more)
        invariant AllErrors() == old(AllErrors()) && AllValues() == old(AllValues())
        invariant |errs| + |results| + |coming| == old(|errs| + |results| + |coming|)
        decreases |coming|
      {
        Arrive();
        more := *;
      }
    }

    /** It takes the oldest message of a channel that has one, of either if both have. */
    method Select() returns (m: Arrival)
      requires |errs| + |results| + |coming| > 0
      modifies this
      ensures m.OfError? ==>
        && old(AllErrors()) == [m.error] + AllErrors() && AllValues() == old(AllValues())
      ensures m.OfValue? ==>
        && old(AllValues()) == [m.message] + AllValues() && AllErrors() == old(AllErrors())
      ensures |errs| + |results| + |coming| == old(|errs| + |results| + |coming|) - 1
    {
      Await();
      if {
        case errs != [] =>
          m := OfError(errs[0]);
          assert errs == [errs[0]] + errs[1..];
          errs := errs[1..];
        case results != [] =>
          m := OfValue(results[0]);
          assert results == [results[0]] + results[1..];
          results := results[1..];
      }
    }

    /** What the loop has made of the messages received so far. */
    ghost predicate Collects(stored: array<Option<Value>>, lastError: Option<Err>, err: Option<Err>,
                             gotErrs: seq<Err>, gotValues: seq<Message>)
      reads stored
    {
      && (forall k :: 0 <= k < |gotValues| ==> gotValues[k].pos < consumers)
      && lastError == LastError(err, gotErrs)
      && stored[..] == Fill(consumers, gotValues)
    }

    /** One turn of the loop. */
    method CollectOne(stored: array<Option<Value>>, last: Option<Err>, err: Option<Err>,
                      ghost gotErrs: seq<Err>, ghost gotValues: seq<Message>)
      returns (lastError: Option<Err>, ghost moreErrs: seq<Err>, ghost moreValues: seq<Message>)
      requires |errs| + |results| + |coming| > 0 && Collects(stored, last, err, gotErrs, gotValues)
      requires forall k :: 0 <= k < |AllValues()| ==> AllValues()[k].pos < consumers
      modifies this, stored
      ensures Collects(stored, lastError, err, moreErrs, moreValues)
      ensures moreErrs + AllErrors() == gotErrs + old(AllErrors())
      ensures moreValues + AllValues() == gotValues + old(AllValues())
      ensures |errs| + |results| + |coming| == old(|errs| + |results| + |coming|) - 1
    {
      lastError, moreErrs, moreValues := last, gotErrs, gotValues;
      ghost var values := AllValues();
      var m := Select();
      if m.OfError? {
        lastError, moreErrs := Some(m.error), gotErrs + [m.error];
      } else {
        assert values[0] == m.message;
        FillMore(consumers, gotValues, m.message);
        stored[m.message.pos] := Some(m.message.value);
        moreValues := gotValues + [m.message];
      }
    }

    /** Every consumer sends one message, before the loop or while it runs. Whenever the messages arrive, and
        whatever the select chooses when both channels are ready, the loop receives them all and the answer
        is the one that depends only on what was sent on each channel. */
    method GetAllReadersResult(err: Option<Err>) returns (answer: Answer)
      requires |errs| + |results| + |coming| == consumers
      requires forall k :: 0 <= k < |AllValues()| ==> AllValues()[k].pos < consumers
      modifies this
      ensures answer == Collected(consumers, err, old(AllErrors()), old(AllValues()))
      ensures errs == [] && results == [] && coming == []
    {
      ghost var allErrs, allValues := AllErrors(), AllValues();
      ArrivalsSize(coming);
      var stored := new Option<Value>[consumers](i => None);
      var lastError := err;
      ghost var gotErrs: seq<Err>, gotValues: seq<Message> := [], [];
      for taken := 0 to consumers
        invariant allErrs == gotErrs + AllErrors() && allValues == gotValues + AllValues()
        invariant |errs| + |results| + |coming| == consumers - taken
        invariant Collects(stored, lastError, err, gotErrs, gotValues)
      {
        assert forall k :: 0 <= k < |AllValues()| ==> AllValues()[k] == allValues[|gotValues| + k];
        lastError, gotErrs, gotValues := CollectOne(stored, lastError, err, gotErrs, gotValues);
      }
      assert errs == [] && results == [] && coming == [];
      assert gotErrs + [] == gotErrs && gotValues + [] == gotValues;
      if lastError.Some? {
        return Failure(lastError.value);
      }
      return Success(stored[..]);
    }
  }
}
