/** The LRU cache as operations on a recency list, most recently used entry first. */
module LruSpec {
  import opened Options

  /** `stamp` is timeInsert in milliseconds. */
  datatype Entry<+V> = Entry(key: string, value: V, stamp: int)

  /** Size 0 means unlimited, expiry 0 (nanoseconds) means never. */
  datatype Config = Config(size: int, expiry: int)

  /** One call on the cache; `now` is the clock in milliseconds. */
  datatype Op<+V> =
    | Add(key: string, value: V, now: int)
    | Get(key: string, now: int)
    | Update(key: string, value: V)
    | Remove(key: string)
    | RemoveOldest
    | Clear

  /** The list afterwards, the entries that left, and what Get returned. */
  datatype Outcome<+V> = Outcome(list: seq<Entry<V>>, gone: seq<Entry<V>>, hit: Option<V>)

  const MILLISECOND := 1_000_000

  /** Go's integer division, which truncates toward zero. */
  function Quotient(a: int, b: int): int
    requires b > 0
  {
    if a >= 0 then a / b else -((-a) / b)
  }

  predicate Expired<V>(cfg: Config, e: Entry<V>, now: int) {
    cfg.expiry != 0 && now - e.stamp > Quotient(cfg.expiry, MILLISECOND)
  }

  function Stamp(cfg: Config, now: int): int {
    if cfg.expiry != 0 then now else 0
  }

  function Lookup<V>(l: seq<Entry<V>>, key: string): Option<Entry<V>> {
    if l == [] then None else if l[0].key == key then Some(l[0]) else Lookup(l[1..], key)
  }

  function Drop<V>(l: seq<Entry<V>>, key: string): seq<Entry<V>> {
    if l == [] then [] else if l[0].key == key then Drop(l[1..], key) else [l[0]] + Drop(l[1..], key)
  }

  /** The value stored under `key` is replaced where it is. */
  function Write<V>(l: seq<Entry<V>>, key: string, value: V): seq<Entry<V>> {
    if l == [] then []
    else [if l[0].key == key then l[0].(value := value) else l[0]] + Write(l[1..], key, value)
  }

  predicate OverFull(cfg: Config, n: nat) {
    cfg.size != 0 && n > cfg.size
  }

  function Oldest<V>(l: seq<Entry<V>>): Outcome<V> {
    if l == [] then Outcome([], [], None) else Outcome(l[..|l| - 1], [l[|l| - 1]], None)
  }

  function Step<V>(cfg: Config, l: seq<Entry<V>>, op: Op<V>): Outcome<V> {
    match op
    case Add(key, value, now) =>
      var e := Entry(key, value, Stamp(cfg, now));
      if Lookup(l, key).Some? then Outcome([e] + Drop(l, key), [], None)
      else if OverFull(cfg, |l| + 1) then Oldest([e] + l)
      else Outcome([e] + l, [], None)
    case Get(key, now) =>
      (match Lookup(l, key)
       case None => Outcome(l, [], None)
       case Some(e) =>
         if Expired(cfg, e, now) then Outcome(Drop(l, key), [e], None)
         else Outcome([e] + Drop(l, key), [], Some(e.value)))
    case Update(key, value) => Outcome(Write(l, key, value), [], None)
    case Remove(key) =>
      (match Lookup(l, key)
       case None => Outcome(l, [], None)
       case Some(e) => Outcome(Drop(l, key), [e], None))
    case RemoveOldest => Oldest(l)
    case Clear => Outcome([], l, None)
  }

  /** The list after a history of operations on an empty cache. */
  function Run<V>(cfg: Config, ops: seq<Op<V>>): seq<Entry<V>> {
    if ops == [] then [] else Step(cfg, Run(cfg, ops[..|ops| - 1]), ops[|ops| - 1]).list
  }

  // ------------------------------------------------------------ lists without repeated keys

  ghost predicate Distinct<V>(l: seq<Entry<V>>) {
    forall i, j :: 0 <= i < j < |l| ==> l[i].key != l[j].key
  }

  lemma {:induction false} LookupSound<V>(l: seq<Entry<V>>, key: string)
    ensures match Lookup(l, key)
            case None => forall i :: 0 <= i < |l| ==> l[i].key != key
            case Some(e) => e in l && e.key == key
  {
    if l != [] && l[0].key != key {
      LookupSound(l[1..], key);
    }
  }

  /** Where the entry of a known key is. */
  lemma {:induction false} LookupPosition<V>(l: seq<Entry<V>>, key: string) returns (i: nat)
    requires Lookup(l, key).Some?
    ensures i < |l| && l[i].key == key && l[i] == Lookup(l, key).value
  {
    if l[0].key == key {
      i := 0;
    } else {
      i := LookupPosition(l[1..], key);
      i := i + 1;
    }
  }

  lemma {:induction false} LookupAt<V>(l: seq<Entry<V>>, i: nat)
    requires Distinct(l) && i < |l|
    ensures Lookup(l, l[i].key) == Some(l[i])
  {
    if i > 0 {
      assert l[0].key != l[i].key;
      LookupAt(l[1..], i - 1);
    }
  }

  lemma {:induction false} DropMiss<V>(l: seq<Entry<V>>, key: string)
    requires forall i :: 0 <= i < |l| ==> l[i].key != key
    ensures Drop(l, key) == l
  {
    if l != [] {
      DropMiss(l[1..], key);
      assert l[0].key != key;
    }
  }

  /** Dropping a key of a list without repeated keys takes out one position. */
  lemma {:induction false} DropAt<V>(l: seq<Entry<V>>, i: nat)
    requires Distinct(l) && i < |l|
    ensures Drop(l, l[i].key) == l[..i] + l[i + 1..]
  {
    if i == 0 {
      DropMiss(l[1..], l[0].key);
      assert l[..0] + l[1..] == l[1..];
    } else {
      assert l[0].key != l[i].key;
      DropAt(l[1..], i - 1);
      assert l[..i] + l[i + 1..] == [l[0]] + (l[1..][..i - 1] + l[1..][i..]);
    }
  }

  lemma {:induction false} WriteAt<V>(l: seq<Entry<V>>, key: string, value: V)
    ensures |Write(l, key, value)| == |l|
    ensures forall i :: 0 <= i < |l| ==>
      Write(l, key, value)[i] == if l[i].key == key then l[i].(value := value) else l[i]
  {
    if l != [] {
      WriteAt(l[1..], key, value);
    }
  }

  lemma {:induction false} DropMembers<V>(l: seq<Entry<V>>, key: string, e: Entry<V>)
    ensures e in Drop(l, key) <==> e in l && e.key != key
  {
    if l != [] {
      DropMembers(l[1..], key, e);
      assert e in l <==> e == l[0] || e in l[1..];
    }
  }

  lemma DropDistinct<V>(l: seq<Entry<V>>, key: string)
    requires Distinct(l)
    ensures Distinct(Drop(l, key)) && |Drop(l, key)| == |l| - if Lookup(l, key).Some? then 1 else 0
    ensures forall i :: 0 <= i < |Drop(l, key)| ==> Drop(l, key)[i].key != key
  {
    LookupSound(l, key);
    if Lookup(l, key).Some? {
      var i :| 0 <= i < |l| && l[i].key == key;
      DropAt(l, i);
    } else {
      DropMiss(l, key);
    }
  }

  // ------------------------------------------------------------ what every operation keeps

  /** No key twice; never above a positive Size; nothing stays under a negative Size. */
  ghost predicate Fits<V>(cfg: Config, l: seq<Entry<V>>) {
    Distinct(l) && (cfg.size != 0 ==> |l| <= if cfg.size > 0 then cfg.size else 0)
  }

  lemma StepFits<V>(cfg: Config, l: seq<Entry<V>>, op: Op<V>)
    requires Fits(cfg, l)
    ensures Fits(cfg, Step(cfg, l, op).list)
  {
    match op {
      case Add(key, _, _) => LookupSound(l, key); DropDistinct(l, key);
      case Get(key, _) => LookupSound(l, key); DropDistinct(l, key);
      case Update(key, value) => WriteAt(l, key, value);
      case Remove(key) => LookupSound(l, key); DropDistinct(l, key);
      case RemoveOldest =>
      case Clear =>
    }
  }

  lemma {:induction false} RunFits<V>(cfg: Config, ops: seq<Op<V>>)
    ensures Fits(cfg, Run(cfg, ops))
  {
    if ops != [] {
      RunFits(cfg, ops[..|ops| - 1]);
      StepFits(cfg, Run(cfg, ops[..|ops| - 1]), ops[|ops| - 1]);
    }
  }
}
