/** Which entry a history leaves where: recency order, last written values, insert times, and
    the accounting of departures. */
module LruOrder {
  import opened LruSpec
  import opened Options

  // ------------------------------------------------------------ recency order

  /** The last operation of `ops` uses `key`: it adds it, or it is a Get that hits. */
  predicate Uses<V>(cfg: Config, ops: seq<Op<V>>, key: string)
    requires ops != []
  {
    match ops[|ops| - 1]
    case Add(k, _, _) => k == key
    case Get(k, _) => k == key && Step(cfg, Run(cfg, ops[..|ops| - 1]), ops[|ops| - 1]).hit.Some?
    case _ => false
  }

  /** The position of the last use of `key`, or -1. */
  function LastUse<V>(cfg: Config, ops: seq<Op<V>>, key: string): (i: int)
    ensures -1 <= i < |ops|
  {
    if ops == [] then -1
    else if Uses(cfg, ops, key) then |ops| - 1
    else LastUse(cfg, ops[..|ops| - 1], key)
  }

  /** Strictly descending under `f`. */
  ghost predicate Descending<V>(l: seq<Entry<V>>, f: string -> int) {
    forall i, j :: 0 <= i < j < |l| ==> f(l[i].key) > f(l[j].key)
  }

  lemma DescendingDrop<V>(l: seq<Entry<V>>, key: string, f: string -> int, g: string -> int)
    requires Distinct(l) && Descending(l, f)
    requires forall k :: k != key ==> g(k) == f(k)
    ensures Descending(Drop(l, key), g)
  {
    LookupSound(l, key);
    if Lookup(l, key).Some? {
      var i := LookupPosition(l, key);
      DropAt(l, i);
      DescendingCut(l, i, f, g);
    } else {
      DropMiss(l, key);
    }
  }

  lemma DescendingCut<V>(l: seq<Entry<V>>, i: nat, f: string -> int, g: string -> int)
    requires Distinct(l) && Descending(l, f) && i < |l|
    requires forall k :: k != l[i].key ==> g(k) == f(k)
    ensures Descending(l[..i] + l[i + 1..], g)
  {
    var cut := l[..i] + l[i + 1..];
    forall a, b | 0 <= a < b < |cut|
      ensures g(cut[a].key) > g(cut[b].key)
    {
      var a', b' := if a < i then a else a + 1, if b < i then b else b + 1;
      assert cut[a] == l[a'] && cut[b] == l[b'];
      assert f(l[a'].key) > f(l[b'].key);
    }
  }

  /** An entry whose key outranks all others goes to the front. */
  lemma DescendingFront<V>(l: seq<Entry<V>>, e: Entry<V>, f: string -> int, g: string -> int)
    requires Distinct(l) && Descending(l, f)
    requires forall k :: k != e.key ==> g(k) == f(k) && g(e.key) > g(k)
    ensures Descending([e] + Drop(l, e.key), g)
  {
    DescendingDrop(l, e.key, f, g);
    DropDistinct(l, e.key);
  }

  lemma {:induction false} DescendingWrite<V>(l: seq<Entry<V>>, key: string, value: V, f: string -> int)
    requires Descending(l, f)
    ensures Descending(Write(l, key, value), f)
  {
    WriteAt(l, key, value);
  }

  lemma {:induction false} AddDescending<V>(cfg: Config, l: seq<Entry<V>>, op: Op<V>, f: string -> int, g: string -> int)
    requires Distinct(l) && Descending(l, f) && op.Add?
    requires forall k :: k != op.key ==> g(k) == f(k) && g(op.key) > g(k)
    ensures Descending(Step(cfg, l, op).list, g)
  {
    DescendingFront(l, Entry(op.key, op.value, Stamp(cfg, op.now)), f, g);
    LookupSound(l, op.key);
    if Lookup(l, op.key).None? {
      DropMiss(l, op.key);
    }
  }

  lemma {:induction false} GetDescending<V>(cfg: Config, l: seq<Entry<V>>, op: Op<V>, f: string -> int, g: string -> int)
    requires Distinct(l) && Descending(l, f) && op.Get?
    requires if Step(cfg, l, op).hit.Some? then forall k :: k != op.key ==> g(k) == f(k) && g(op.key) > g(k)
             else forall k :: g(k) == f(k)
    ensures Descending(Step(cfg, l, op).list, g)
  {
    LookupSound(l, op.key);
    if Step(cfg, l, op).hit.Some? {
      DescendingFront(l, Lookup(l, op.key).value, f, g);
    } else {
      DescendingDrop(l, op.key, f, g);
    }
  }

  /** One operation: `f` ranks keys before it; after it the key it uses, if any, outranks all others. */
  lemma {:induction false} StepDescending<V>(cfg: Config, l: seq<Entry<V>>, op: Op<V>, f: string -> int, g: string -> int)
    requires Distinct(l) && Descending(l, f)
    requires if op.Add? || (op.Get? && Step(cfg, l, op).hit.Some?)
             then forall k :: k != op.key ==> g(k) == f(k) && g(op.key) > g(k)
             else forall k :: g(k) == f(k)
    ensures Descending(Step(cfg, l, op).list, g)
  {
    match op {
      case Add(_, _, _) => AddDescending(cfg, l, op, f, g);
      case Get(_, _) => GetDescending(cfg, l, op, f, g);
      case Update(key, value) => DescendingWrite(l, key, value, f);
      case Remove(key) => DescendingDrop(l, key, f, g);
      case RemoveOldest =>
      case Clear =>
    }
  }

  /** At any time the list is in the order of last use, most recent first. So the entry a capacity
      eviction or RemoveOldest takes is the present one whose last Add or Get hit is oldest. */
  lemma {:induction false} RecencyOrder<V>(cfg: Config, ops: seq<Op<V>>)
    ensures Descending(Run(cfg, ops), k => LastUse(cfg, ops, k))
  {
    if ops != [] {
      var before := ops[..|ops| - 1];
      RecencyOrder(cfg, before);
      RunFits(cfg, before);
      StepDescending(cfg, Run(cfg, before), ops[|ops| - 1],
                     k => LastUse(cfg, before, k), k => LastUse(cfg, ops, k));
    }
  }

  /** The victim of RemoveOldest, or of an insertion over capacity, has the oldest last use of all
      entries that were present. */
  lemma VictimIsLeastRecentlyUsed<V>(cfg: Config, ops: seq<Op<V>>, op: Op<V>, other: Entry<V>)
    requires op.RemoveOldest? || (op.Add? && Lookup(Run(cfg, ops), op.key).None? && cfg.size > 0)
    requires Step(cfg, Run(cfg, ops), op).gone != []
    requires other in Run(cfg, ops) && other.key != Step(cfg, Run(cfg, ops), op).gone[0].key
    ensures Step(cfg, Run(cfg, ops), op).gone[0] in Run(cfg, ops)
    ensures LastUse(cfg, ops, Step(cfg, Run(cfg, ops), op).gone[0].key) < LastUse(cfg, ops, other.key)
  {
    var l := Run(cfg, ops);
    VictimIsLast(cfg, l, op);
    RecencyOrder(cfg, ops);
    var i :| 0 <= i < |l| && l[i] == other;
  }

  lemma VictimIsLast<V>(cfg: Config, l: seq<Entry<V>>, op: Op<V>)
    requires op.RemoveOldest? || (op.Add? && Lookup(l, op.key).None? && cfg.size > 0)
    requires l != [] && Step(cfg, l, op).gone != []
    ensures Step(cfg, l, op).gone[0] == l[|l| - 1]
  {}

  // ------------------------------------------------------------ values and insert times

  /** The value of the last Add or UpdateElement of `key`. */
  function LastWritten<V>(ops: seq<Op<V>>, key: string): Option<V> {
    if ops == [] then None
    else match ops[|ops| - 1]
      case Add(k, v, _) => if k == key then Some(v) else LastWritten(ops[..|ops| - 1], key)
      case Update(k, v) => if k == key then Some(v) else LastWritten(ops[..|ops| - 1], key)
      case _ => LastWritten(ops[..|ops| - 1], key)
  }

  /** The clock at the last Add of `key`. */
  function LastAdded<V>(ops: seq<Op<V>>, key: string): Option<int> {
    if ops == [] then None
    else match ops[|ops| - 1]
      case Add(k, _, now) => if k == key then Some(now) else LastAdded(ops[..|ops| - 1], key)
      case _ => LastAdded(ops[..|ops| - 1], key)
  }

  ghost predicate UpToDate<V>(cfg: Config, ops: seq<Op<V>>, e: Entry<V>) {
    && LastWritten(ops, e.key) == Some(e.value)
    && LastAdded(ops, e.key).Some?
    && e.stamp == Stamp(cfg, LastAdded(ops, e.key).value)
  }

  lemma OldestMembers<V>(l: seq<Entry<V>>, e: Entry<V>)
    requires e in Oldest(l).list || e in Oldest(l).gone
    ensures e in l
  {}

  /** One step: what stays and what leaves is up to date. */
  lemma {:induction false} StepUpToDate<V>(cfg: Config, ops: seq<Op<V>>, l: seq<Entry<V>>, e: Entry<V>)
    requires ops != [] && Distinct(l)
    requires forall x :: x in l ==> UpToDate(cfg, ops[..|ops| - 1], x)
    requires e in Step(cfg, l, ops[|ops| - 1]).list || e in Step(cfg, l, ops[|ops| - 1]).gone
    ensures UpToDate(cfg, ops, e)
  {
    match ops[|ops| - 1] {
      case Add(key, value, now) =>
        LookupSound(l, key);
        DropMembers(l, key, e);
        if e.key != key {
          assert e in l;
        }
      case Get(key, _) =>
        LookupSound(l, key);
        DropMembers(l, key, e);
        assert e in l;
      case Update(key, value) =>
        WriteAt(l, key, value);
        var i :| 0 <= i < |l| && e == Write(l, key, value)[i];
        assert l[i] in l;
      case Remove(key) =>
        LookupSound(l, key);
        DropMembers(l, key, e);
        assert e in l;
      case RemoveOldest =>
        OldestMembers(l, e);
      case Clear =>
    }
  }

  /** Every entry carries the value last written under its key and the time of the last Add. */
  lemma {:induction false} EntriesUpToDate<V>(cfg: Config, ops: seq<Op<V>>)
    ensures forall e :: e in Run(cfg, ops) ==> UpToDate(cfg, ops, e)
  {
    if ops != [] {
      EntriesUpToDate(cfg, ops[..|ops| - 1]);
      RunFits(cfg, ops[..|ops| - 1]);
      forall e | e in Run(cfg, ops) ensures UpToDate(cfg, ops, e) {
        StepUpToDate(cfg, ops, Run(cfg, ops[..|ops| - 1]), e);
      }
    }
  }

  /** A Get that hits returns the value last written and, with expiry on, comes no later than the
      expiry after the last Add. */
  lemma HitIsFresh<V>(cfg: Config, ops: seq<Op<V>>, key: string, now: int)
    requires Step(cfg, Run(cfg, ops), Get(key, now)).hit.Some?
    ensures Step(cfg, Run(cfg, ops), Get(key, now)).hit == LastWritten(ops, key)
    ensures LastAdded(ops, key).Some?
    ensures cfg.expiry != 0 ==> now - LastAdded(ops, key).value <= Quotient(cfg.expiry, MILLISECOND)
  {
    EntriesUpToDate(cfg, ops);
    LookupSound(Run(cfg, ops), key);
  }

  // ------------------------------------------------------------ accounting

  ghost function Keys<V>(l: seq<Entry<V>>): multiset<string> {
    if l == [] then multiset{} else multiset{l[0].key} + Keys(l[1..])
  }

  lemma {:induction false} KeysSplit<V>(a: seq<Entry<V>>, b: seq<Entry<V>>)
    ensures Keys(a + b) == Keys(a) + Keys(b)
  {
    if a == [] {
      assert a + b == b;
    } else {
      assert (a + b)[1..] == a[1..] + b;
      KeysSplit(a[1..], b);
    }
  }

  lemma {:induction false} KeysSize<V>(l: seq<Entry<V>>)
    ensures |Keys(l)| == |l|
  {
    if l != [] {
      KeysSize(l[1..]);
    }
  }

  lemma {:induction false} KeysWrite<V>(l: seq<Entry<V>>, key: string, value: V)
    ensures Keys(Write(l, key, value)) == Keys(l)
  {
    if l != [] {
      KeysWrite(l[1..], key, value);
      assert Write(l, key, value)[1..] == Write(l[1..], key, value);
    }
  }

  lemma {:induction false} KeysCut<V>(l: seq<Entry<V>>, i: nat)
    requires i < |l|
    ensures Keys(l) == Keys(l[..i] + l[i + 1..]) + multiset{l[i].key}
  {
    var cut := l[..i] + l[i + 1..];
    if i == 0 {
      assert cut == l[1..];
    } else {
      KeysCut(l[1..], i - 1);
      assert cut[0] == l[0] && cut[1..] == l[1..][..i - 1] + l[1..][i..];
    }
  }

  lemma {:induction false} KeysDrop<V>(l: seq<Entry<V>>, key: string)
    requires Distinct(l) && Lookup(l, key).Some?
    ensures Keys(l) == Keys(Drop(l, key)) + multiset{key}
  {
    var i := LookupPosition(l, key);
    DropAt(l, i);
    KeysCut(l, i);
  }

  lemma {:induction false} KeysOldest<V>(l: seq<Entry<V>>)
    ensures Keys(l) == Keys(Oldest(l).list) + Keys(Oldest(l).gone)
  {
    if l != [] {
      assert l == l[..|l| - 1] + [l[|l| - 1]];
      KeysSplit(l[..|l| - 1], [l[|l| - 1]]);
    }
  }

  /** The key this operation inserts anew, if any. */
  ghost function Inserted<V>(l: seq<Entry<V>>, op: Op<V>): multiset<string> {
    if op.Add? && Lookup(l, op.key).None? then multiset{op.key} else multiset{}
  }

  lemma {:induction false} AddAccounts<V>(cfg: Config, l: seq<Entry<V>>, op: Op<V>)
    requires Distinct(l) && op.Add?
    ensures var o := Step(cfg, l, op); Keys(l) + Inserted(l, op) == Keys(o.list) + Keys(o.gone)
  {
    var e := Entry(op.key, op.value, Stamp(cfg, op.now));
    if Lookup(l, op.key).Some? {
      KeysSplit([e], Drop(l, op.key));
      KeysDrop(l, op.key);
    } else {
      KeysSplit([e], l);
      KeysOldest([e] + l);
    }
  }

  lemma {:induction false} TakeAccounts<V>(cfg: Config, l: seq<Entry<V>>, op: Op<V>)
    requires Distinct(l) && (op.Get? || op.Remove?)
    ensures var o := Step(cfg, l, op); Keys(l) == Keys(o.list) + Keys(o.gone)
  {
    if Lookup(l, op.key).Some? {
      var e := Lookup(l, op.key).value;
      LookupSound(l, op.key);
      KeysDrop(l, op.key);
      KeysSplit([e], Drop(l, op.key));
      assert Keys([e]) == multiset{op.key};
    }
  }

  lemma {:induction false} StepAccounts<V>(cfg: Config, l: seq<Entry<V>>, op: Op<V>)
    requires Distinct(l)
    ensures var o := Step(cfg, l, op); Keys(l) + Inserted(l, op) == Keys(o.list) + Keys(o.gone)
    ensures op.Add? && Lookup(l, op.key).Some? ==> Step(cfg, l, op).gone == []
  {
    match op {
      case Add(_, _, _) => AddAccounts(cfg, l, op);
      case Get(_, _) => TakeAccounts(cfg, l, op);
      case Remove(_) => TakeAccounts(cfg, l, op);
      case Update(key, value) => KeysWrite(l, key, value);
      case RemoveOldest => KeysOldest(l);
      case Clear =>
    }
  }

  /** Everything that left during a history, in order. */
  function Departures<V>(cfg: Config, ops: seq<Op<V>>): seq<Entry<V>> {
    if ops == [] then []
    else
      var before := ops[..|ops| - 1];
      Departures(cfg, before) + Step(cfg, Run(cfg, before), ops[|ops| - 1]).gone
  }

  /** Every key newly inserted during a history, with multiplicity. */
  ghost function Insertions<V>(cfg: Config, ops: seq<Op<V>>): multiset<string> {
    if ops == [] then multiset{}
    else
      var before := ops[..|ops| - 1];
      Insertions(cfg, before) + Inserted(Run(cfg, before), ops[|ops| - 1])
  }

  /** New-key insertions are, key by key, the departures plus what is still there; so with a callback
      their number is the number of its calls plus Len. */
  lemma {:induction false} EvictionAccounting<V>(cfg: Config, ops: seq<Op<V>>)
    ensures Insertions(cfg, ops) == Keys(Departures(cfg, ops)) + Keys(Run(cfg, ops))
    ensures |Insertions(cfg, ops)| == |Departures(cfg, ops)| + |Run(cfg, ops)|
  {
    KeyBalance(cfg, ops);
    KeysSize(Departures(cfg, ops));
    KeysSize(Run(cfg, ops));
  }

  lemma Regroup(i: multiset<string>, d: multiset<string>, r: multiset<string>, added: multiset<string>,
                gone: multiset<string>, r': multiset<string>)
    requires i == d + r && r + added == r' + gone
    ensures i + added == (d + gone) + r'
  {
    forall k: string ensures (i + added)[k] == ((d + gone) + r')[k] {
      assert (r + added)[k] == (r' + gone)[k];
    }
  }

  lemma {:induction false} KeyBalance<V>(cfg: Config, ops: seq<Op<V>>)
    ensures Insertions(cfg, ops) == Keys(Departures(cfg, ops)) + Keys(Run(cfg, ops))
  {
    if ops != [] {
      var before, op := ops[..|ops| - 1], ops[|ops| - 1];
      KeyBalance(cfg, before);
      RunFits(cfg, before);
      var o := Step(cfg, Run(cfg, before), op);
      StepAccounts(cfg, Run(cfg, before), op);
      KeysSplit(Departures(cfg, before), o.gone);
      Regroup(Insertions(cfg, before), Keys(Departures(cfg, before)), Keys(Run(cfg, before)),
              Inserted(Run(cfg, before), op), Keys(o.gone), Keys(o.list));
    }
  }

  /** Each departure reports the value last written under its key. */
  lemma DepartureValue<V>(cfg: Config, ops: seq<Op<V>>, op: Op<V>, e: Entry<V>)
    requires e in Step(cfg, Run(cfg, ops), op).gone
    ensures LastWritten(ops + [op], e.key) == Some(e.value)
  {
    var all := ops + [op];
    assert all[..|all| - 1] == ops;
    EntriesUpToDate(cfg, ops);
    RunFits(cfg, ops);
    StepUpToDate(cfg, all, Run(cfg, ops), e);
  }
}
