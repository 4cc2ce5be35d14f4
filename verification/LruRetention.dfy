/** Which keys the cache keeps: what each operation does to every key, and over histories of Add, Get and
    UpdateElement exactly the Size most recently used ones. */
module LruRetention {
  import opened Options
  import opened LruSpec
  import opened LruOrder

  // ------------------------------------------------------------ looking up in changed lists

  lemma {:induction false} LookupDrop<V>(l: seq<Entry<V>>, key: string, k: string)
    ensures Lookup(Drop(l, key), k) == if k == key then None else Lookup(l, k)
  {
    if l != [] {
      LookupDrop(l[1..], key, k);
      if l[0].key != key {
        assert Drop(l, key)[1..] == Drop(l[1..], key);
      }
    }
  }

  lemma {:induction false} LookupWrite<V>(l: seq<Entry<V>>, key: string, value: V, k: string)
    ensures Lookup(Write(l, key, value), k) ==
      match Lookup(l, k)
      case None => None
      case Some(e) => Some(if k == key then e.(value := value) else e)
  {
    if l != [] {
      LookupWrite(l[1..], key, value, k);
      assert Write(l, key, value)[1..] == Write(l[1..], key, value);
    }
  }

  lemma {:induction false} LookupCut<V>(l: seq<Entry<V>>, k: string)
    requires Distinct(l) && l != []
    ensures Lookup(l[..|l| - 1], k) == if k == l[|l| - 1].key then None else Lookup(l, k)
  {
    if |l| == 1 {
      assert l[..0] == [] && l[1..] == [];
    } else {
      LookupCut(l[1..], k);
      assert l[..|l| - 1][1..] == l[1..][..|l[1..]| - 1];
      assert l[0].key != l[|l| - 1].key;
    }
  }

  lemma {:induction false} LookupFront<V>(e: Entry<V>, l: seq<Entry<V>>, k: string)
    ensures Lookup([e] + l, k) == if k == e.key then Some(e) else Lookup(l, k)
  {
    assert ([e] + l)[1..] == l;
  }

  /** Go's division cuts off toward zero, also for a negative duration. */
  lemma {:induction false} QuotientTruncates(a: int, b: int)
    requires b > 0
    ensures a >= 0 ==> 0 <= Quotient(a, b) * b <= a < Quotient(a, b) * b + b
    ensures a <= 0 ==> Quotient(a, b) * b - b < a <= Quotient(a, b) * b <= 0
  {
    var c := if a >= 0 then a else -a;
    assert c == c / b * b + c % b;
    assert Quotient(a, b) == if a >= 0 then c / b else -(c / b);
    assert -(c / b) * b == -(c / b * b);
  }

  // ------------------------------------------------------------ every operation, for every key

  /** Who has to leave for a key: the last entry, if the key is new and the cache is full. */
  function Victims<V>(cfg: Config, l: seq<Entry<V>>, key: string): seq<Entry<V>> {
    if cfg.size > 0 && |l| == cfg.size && Lookup(l, key).None? then [l[|l| - 1]] else []
  }

  /** An added entry is there afterwards, and everybody else as before; only if the key is new and the cache
      is full the last entry leaves. */
  lemma {:induction false} AddKeeps<V>(cfg: Config, l: seq<Entry<V>>, key: string, value: V, now: int)
    requires Fits(cfg, l) && cfg.size >= 0
    ensures var o := Step(cfg, l, Add(key, value, now)); var victims := Victims(cfg, l, key);
      && o.gone == victims
      && Lookup(o.list, key) == Some(Entry(key, value, if cfg.expiry != 0 then now else 0))
      && forall k :: k != key ==>
           Lookup(o.list, k) == if victims != [] && k == victims[0].key then None else Lookup(l, k)
  {
    var e := Entry(key, value, Stamp(cfg, now));
    LookupSound(l, key);
    forall k
      ensures Lookup([e] + Drop(l, key), k) == if k == key then Some(e) else Lookup(l, k)
      ensures Lookup([e] + l, k) == if k == key then Some(e) else Lookup(l, k)
    {
      LookupDrop(l, key, k);
      LookupFront(e, Drop(l, key), k);
      LookupFront(e, l, k);
    }
    if Lookup(l, key).None? && cfg.size > 0 && |l| == cfg.size {
      var all := [e] + l;
      assert Distinct(all) && all[|all| - 1] == l[|l| - 1];
      var list := Step(cfg, l, Add(key, value, now)).list;
      assert list == all[..|all| - 1];
      forall k
        ensures Lookup(list, k) ==
          if k == l[|l| - 1].key then None else if k == key then Some(e) else Lookup(l, k)
      {
        LookupCut(all, k);
        LookupFront(e, l, k);
      }
    }
  }

  /** Under a negative Size nothing stays. */
  lemma {:induction false} NegativeKeepsNone<V>(cfg: Config, l: seq<Entry<V>>, key: string, value: V, now: int)
    requires Fits(cfg, l) && cfg.size < 0
    ensures var o := Step(cfg, l, Add(key, value, now));
      o.list == [] && o.gone == [Entry(key, value, if cfg.expiry != 0 then now else 0)]
  {}

  /** So a Get right after an Add hits, unless the cache keeps nothing or the entry has expired. */
  lemma {:induction false} AddThenGet<V>(cfg: Config, l: seq<Entry<V>>, key: string, value: V, now: int, later: int)
    requires Fits(cfg, l)
    ensures Step(cfg, Step(cfg, l, Add(key, value, now)).list, Get(key, later)).hit ==
      if cfg.size >= 0 && (cfg.expiry == 0 || later - now <= Quotient(cfg.expiry, MILLISECOND)) then Some(value) else None
  {
    if cfg.size >= 0 {
      AddKeeps(cfg, l, key, value, now);
    }
  }

  /** A present entry is a hit exactly if it has not expired, and then it stays; an expired one leaves; a
      miss changes nothing. */
  lemma {:induction false} GetTakes<V>(cfg: Config, l: seq<Entry<V>>, key: string, now: int)
    ensures var o := Step(cfg, l, Get(key, now)); var e := Lookup(l, key);
      var expired := e.Some? && cfg.expiry != 0 && now - e.value.stamp > Quotient(cfg.expiry, MILLISECOND);
      && o.hit == (if e.None? || expired then None else Some(e.value.value))
      && o.gone == (if expired then [e.value] else [])
      && forall k :: Lookup(o.list, k) == if expired && k == key then None else Lookup(l, k)
  {
    LookupSound(l, key);
    if Lookup(l, key).Some? {
      forall k
        ensures Lookup(Drop(l, key), k) == if k == key then None else Lookup(l, k)
        ensures Lookup([Lookup(l, key).value] + Drop(l, key), k) == Lookup(l, k)
      {
        LookupDrop(l, key, k);
        LookupFront(Lookup(l, key).value, Drop(l, key), k);
      }
    }
  }

  /** A removed key is gone and reported, everybody else stays. */
  lemma {:induction false} RemoveTakes<V>(cfg: Config, l: seq<Entry<V>>, key: string)
    ensures var o := Step(cfg, l, Remove(key));
      && o.gone == (if Lookup(l, key).Some? then [Lookup(l, key).value] else [])
      && forall k :: Lookup(o.list, k) == if k == key then None else Lookup(l, k)
  {
    forall k
      ensures Lookup(Drop(l, key), k) == if k == key then None else Lookup(l, k)
    {
      LookupDrop(l, key, k);
    }
  }

  lemma {:induction false} RemoveOldestTakes<V>(cfg: Config, l: seq<Entry<V>>)
    requires Distinct(l)
    ensures var o := Step(cfg, l, Op<V>.RemoveOldest);
      && o.gone == (if l != [] then [l[|l| - 1]] else [])
      && forall k :: Lookup(o.list, k) == if l != [] && k == l[|l| - 1].key then None else Lookup(l, k)
  {
    if l != [] {
      var list := Step(cfg, l, Op<V>.RemoveOldest).list;
      assert list == l[..|l| - 1];
      forall k
        ensures Lookup(list, k) == if k == l[|l| - 1].key then None else Lookup(l, k)
      {
        LookupCut(l, k);
      }
    }
  }

  lemma {:induction false} ClearTakes<V>(cfg: Config, l: seq<Entry<V>>)
    ensures var o := Step(cfg, l, Op<V>.Clear); o.gone == l && forall k :: Lookup(o.list, k).None?
  {}

  /** A new value under a present key, and nothing else. */
  lemma {:induction false} UpdateWrites<V>(cfg: Config, l: seq<Entry<V>>, key: string, value: V)
    ensures var o := Step(cfg, l, Update(key, value));
      && o.gone == [] && |o.list| == |l| && (forall i :: 0 <= i < |l| ==> o.list[i].key == l[i].key)
      && forall k :: Lookup(o.list, k) ==
           match Lookup(l, k) case None => None case Some(e) => Some(if k == key then e.(value := value) else e)
  {
    WriteAt(l, key, value);
    forall k
      ensures Lookup(Write(l, key, value), k) ==
        match Lookup(l, k) case None => None case Some(e) => Some(if k == key then e.(value := value) else e)
    {
      LookupWrite(l, key, value, k);
    }
  }

  /** Over every history: a Get hits if and only if the key is present and the expiry has not passed since
      its last Add. */
  lemma HitIff<V>(cfg: Config, ops: seq<Op<V>>, key: string, now: int)
    ensures Step(cfg, Run(cfg, ops), Get(key, now)).hit.Some? <==>
      && Lookup(Run(cfg, ops), key).Some?
      && (cfg.expiry != 0 ==> LastAdded(ops, key).Some? && now - LastAdded(ops, key).value <= Quotient(cfg.expiry, MILLISECOND))
  {
    EntriesUpToDate(cfg, ops);
    LookupSound(Run(cfg, ops), key);
  }

  // ------------------------------------------------------------ the most recently used keys

  /** The keys in front of `key`. */
  function Ahead<V>(l: seq<Entry<V>>, key: string): set<string> {
    if l == [] || l[0].key == key then {} else {l[0].key} + Ahead(l[1..], key)
  }

  lemma {:induction false} AheadDrop<V>(l: seq<Entry<V>>, key: string, k: string)
    requires k != key && Distinct(l)
    ensures Ahead(Drop(l, key), k) == Ahead(l, k) - {key}
  {
    if l != [] {
      AheadDrop(l[1..], key, k);
      if l[0].key != key {
        assert Drop(l, key)[1..] == Drop(l[1..], key);
      }
    }
  }

  lemma {:induction false} AheadFront<V>(e: Entry<V>, l: seq<Entry<V>>, k: string)
    requires k != e.key && Distinct(l)
    ensures Ahead([e] + Drop(l, e.key), k) == Ahead(l, k) + {e.key}
    ensures Ahead([e] + l, k) == Ahead(l, k) + {e.key}
  {
    AheadDrop(l, e.key, k);
    assert ([e] + Drop(l, e.key))[1..] == Drop(l, e.key) && ([e] + l)[1..] == l;
  }

  lemma {:induction false} AheadCut<V>(l: seq<Entry<V>>, k: string)
    requires l != [] && Lookup(l[..|l| - 1], k).Some?
    ensures Ahead(l[..|l| - 1], k) == Ahead(l, k)
  {
    if l[0].key != k {
      assert l[..|l| - 1][1..] == l[1..][..|l[1..]| - 1];
      AheadCut(l[1..], k);
    }
  }

  lemma {:induction false} AheadWrite<V>(l: seq<Entry<V>>, key: string, value: V, k: string)
    ensures Ahead(Write(l, key, value), k) == Ahead(l, k)
  {
    if l != [] {
      AheadWrite(l[1..], key, value, k);
      assert Write(l, key, value)[1..] == Write(l[1..], key, value);
    }
  }

  /** As many as its position. */
  lemma {:induction false} AheadSize<V>(l: seq<Entry<V>>, i: nat)
    requires Distinct(l) && i < |l|
    ensures |Ahead(l, l[i].key)| == i
    ensures forall k :: k in Ahead(l, l[i].key) ==> exists j :: 0 <= j < i && l[j].key == k
  {
    if i > 0 {
      assert l[0].key != l[i].key;
      AheadSize(l[1..], i - 1);
      forall k | k in Ahead(l[1..], l[i].key)
        ensures k != l[0].key && exists j :: 0 <= j < i && l[j].key == k
      {
        var j :| 0 <= j < i - 1 && l[1..][j].key == k;
        assert l[j + 1].key == k;
      }
    }
  }

  /** Operations that take nothing away on purpose. */
  predicate Keeping<V>(op: Op<V>) { op.Add? || op.Get? || op.Update? }

  /** The keys used after the last use of `key`. */
  function Since<V>(cfg: Config, ops: seq<Op<V>>, key: string): set<string> {
    if ops == [] || Uses(cfg, ops, key) then {}
    else
      var op := ops[|ops| - 1];
      Since(cfg, ops[..|ops| - 1], key) + if (op.Add? || op.Get?) && Uses(cfg, ops, op.key) then {op.key} else {}
  }

  /** What holds of `key` after the operations, when they leave the list `l`. */
  ghost predicate Placed<V>(cfg: Config, l: seq<Entry<V>>, key: string, used: bool, since: set<string>) {
    if Lookup(l, key).Some? then used && Ahead(l, key) == since
    else used ==> cfg.size > 0 && |since| >= cfg.size
  }

  lemma {:induction false} TouchPlaces<V>(cfg: Config, l: seq<Entry<V>>, e: Entry<V>, key: string, used: bool, since: set<string>)
    requires Distinct(l) && Placed(cfg, l, key, used, since)
    ensures Placed(cfg, [e] + Drop(l, e.key), key, used || key == e.key, if key == e.key then {} else since + {e.key})
  {
    LookupDrop(l, e.key, key);
    LookupFront(e, Drop(l, e.key), key);
    if key != e.key {
      AheadFront(e, l, key);
      Larger(since, e.key);
    }
  }

  lemma Larger(s: set<string>, x: string)
    ensures |s + {x}| >= |s|
  {
    if x in s {
      assert s + {x} == s;
    }
  }

  /** The last entry leaves a list that is one too long. */
  lemma {:induction false} EvictPlaces<V>(cfg: Config, l: seq<Entry<V>>, key: string, used: bool, since: set<string>)
    requires Distinct(l) && cfg.size > 0 && |l| == cfg.size + 1 && Placed(cfg, l, key, used, since)
    ensures Placed(cfg, l[..|l| - 1], key, used, since)
  {
    LookupCut(l, key);
    LookupSound(l, key);
    if key == l[|l| - 1].key {
      AheadSize(l, |l| - 1);
    } else if Lookup(l, key).Some? {
      AheadCut(l, key);
    }
  }

  lemma {:induction false} AddPlaces<V>(cfg: Config, l: seq<Entry<V>>, op: Op<V>, key: string, used: bool, since: set<string>)
    requires Fits(cfg, l) && cfg.size >= 0 && op.Add? && Placed(cfg, l, key, used, since)
    ensures Placed(cfg, Step(cfg, l, op).list, key, used || key == op.key, if key == op.key then {} else since + {op.key})
  {
    var e := Entry(op.key, op.value, Stamp(cfg, op.now));
    var used', since' := used || key == op.key, if key == op.key then {} else since + {op.key};
    TouchPlaces(cfg, l, e, key, used, since);
    if Lookup(l, op.key).None? {
      NewPlaces(cfg, l, e, key, used', since');
    }
  }

  /** The branch for a new key. */
  lemma {:induction false} NewPlaces<V>(cfg: Config, l: seq<Entry<V>>, e: Entry<V>, key: string, used: bool, since: set<string>)
    requires Fits(cfg, l) && cfg.size >= 0 && Lookup(l, e.key).None?
    requires Placed(cfg, [e] + Drop(l, e.key), key, used, since)
    ensures Placed(cfg, (if OverFull(cfg, |l| + 1) then Oldest([e] + l) else Outcome([e] + l, [], None)).list, key, used, since)
  {
    LookupSound(l, e.key);
    DropMiss(l, e.key);
    if OverFull(cfg, |l| + 1) {
      EvictPlaces(cfg, [e] + l, key, used, since);
    }
  }

  /** The key that an operation uses. */
  function Used<V>(cfg: Config, l: seq<Entry<V>>, op: Op<V>): Option<string> {
    if op.Add? || (op.Get? && Step(cfg, l, op).hit.Some?) then Some(op.key) else None
  }

  lemma {:induction false} OpPlaces<V>(cfg: Config, l: seq<Entry<V>>, op: Op<V>, key: string, used: bool, since: set<string>)
    requires Fits(cfg, l) && cfg.size >= 0 && cfg.expiry == 0 && Keeping(op) && Placed(cfg, l, key, used, since)
    ensures var u := Used(cfg, l, op);
      Placed(cfg, Step(cfg, l, op).list, key, used || u == Some(key),
             if u == Some(key) then {} else since + if u.Some? then {u.value} else {})
  {
    assert since + {} == since;
    match op {
      case Add(_, _, _) => AddPlaces(cfg, l, op, key, used, since);
      case Get(k, _) =>
        LookupSound(l, k);
        if Lookup(l, k).Some? {
          TouchPlaces(cfg, l, Lookup(l, k).value, key, used, since);
        }
      case Update(k, v) =>
        LookupWrite(l, k, v, key);
        AheadWrite(l, k, v, key);
    }
  }

  lemma {:induction false} RunPlaces<V>(cfg: Config, ops: seq<Op<V>>, key: string)
    requires cfg.size >= 0 && cfg.expiry == 0 && forall i :: 0 <= i < |ops| ==> Keeping(ops[i])
    ensures Placed(cfg, Run(cfg, ops), key, LastUse(cfg, ops, key) >= 0, Since(cfg, ops, key))
  {
    if ops != [] {
      var before, op := ops[..|ops| - 1], ops[|ops| - 1];
      RunPlaces(cfg, before, key);
      RunFits(cfg, before);
      OpPlaces(cfg, Run(cfg, before), op, key, LastUse(cfg, before, key) >= 0, Since(cfg, before, key));
      assert Uses(cfg, ops, key) <==> Used(cfg, Run(cfg, before), op) == Some(key);
    }
  }

  /** After every history of Add, Get and UpdateElement without expiry: a key is in the cache if and only if it
      has been used and fewer than Size other keys were used since; without a Size, if it has been used. */
  lemma KeptIff<V>(cfg: Config, ops: seq<Op<V>>, key: string)
    requires cfg.size >= 0 && cfg.expiry == 0 && forall i :: 0 <= i < |ops| ==> Keeping(ops[i])
    ensures Lookup(Run(cfg, ops), key).Some? <==>
      LastUse(cfg, ops, key) >= 0 && (cfg.size > 0 ==> |Since(cfg, ops, key)| < cfg.size)
  {
    var l := Run(cfg, ops);
    RunPlaces(cfg, ops, key);
    RunFits(cfg, ops);
    if Lookup(l, key).Some? {
      var i := LookupPosition(l, key);
      AheadSize(l, i);
    }
  }
}
