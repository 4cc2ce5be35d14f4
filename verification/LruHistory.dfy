/** Properties of whole histories of cache operations. */
module LruHistory {
  import opened LruSpec
  import opened Options

  // ------------------------------------------------------------ inclusion

  /** `a` is obtained from `b` by leaving entries out. */
  ghost predicate Within<V>(a: seq<Entry<V>>, b: seq<Entry<V>>)
    decreases |b|
  {
    a == [] || (b != [] && (Within(a, b[1..]) || (a[0] == b[0] && Within(a[1..], b[1..]))))
  }

  lemma {:induction false} WithinLength<V>(a: seq<Entry<V>>, b: seq<Entry<V>>)
    requires Within(a, b)
    ensures |a| <= |b| && (|a| == |b| ==> a == b)
    decreases |b|
  {
    if a != [] {
      if Within(a, b[1..]) {
        WithinLength(a, b[1..]);
      } else {
        WithinLength(a[1..], b[1..]);
        assert a == [a[0]] + a[1..] && b == [b[0]] + b[1..];
      }
    }
  }

  lemma {:induction false} WithinMember<V>(a: seq<Entry<V>>, b: seq<Entry<V>>, e: Entry<V>)
    requires Within(a, b) && e in a
    ensures e in b
    decreases |b|
  {
    if Within(a, b[1..]) {
      WithinMember(a, b[1..], e);
    } else if e != a[0] {
      WithinMember(a[1..], b[1..], e);
    }
  }

  lemma {:induction false} WithinDrop<V>(a: seq<Entry<V>>, b: seq<Entry<V>>, key: string)
    requires Within(a, b)
    ensures Within(Drop(a, key), Drop(b, key))
    decreases |b|
  {
    if a != [] {
      if Within(a, b[1..]) {
        WithinDrop(a, b[1..], key);
        if b[0].key != key {
          assert Drop(b, key)[1..] == Drop(b[1..], key);
        }
      } else {
        WithinDrop(a[1..], b[1..], key);
        if b[0].key != key {
          WithinCons(Drop(a[1..], key), Drop(b[1..], key), b[0]);
        }
      }
    }
  }

  lemma WithinCons<V>(a: seq<Entry<V>>, b: seq<Entry<V>>, e: Entry<V>)
    requires Within(a, b)
    ensures Within([e] + a, [e] + b)
  {
    assert ([e] + a)[1..] == a && ([e] + b)[1..] == b;
  }

  lemma {:induction false} WithinWrite<V>(a: seq<Entry<V>>, b: seq<Entry<V>>, key: string, value: V)
    requires Within(a, b)
    ensures Within(Write(a, key, value), Write(b, key, value))
    decreases |b|
  {
    if a != [] {
      assert Write(b, key, value)[1..] == Write(b[1..], key, value);
      assert Write(a, key, value)[1..] == Write(a[1..], key, value);
      if Within(a, b[1..]) {
        WithinWrite(a, b[1..], key, value);
      } else {
        WithinWrite(a[1..], b[1..], key, value);
      }
    }
  }

  /** Both lists lose their last entries. */
  lemma {:induction false} WithinOldest<V>(a: seq<Entry<V>>, b: seq<Entry<V>>)
    requires Within(a, b)
    ensures Within(Oldest(a).list, Oldest(b).list)
    decreases |b|
  {
    if a != [] && |a| > 1 {
      var a', b' := a[..|a| - 1], b[..|b| - 1];
      if Within(a, b[1..]) {
        WithinOldest(a, b[1..]);
        WithinLength(a, b[1..]);
        assert b'[1..] == b[1..][..|b[1..]| - 1];
      } else {
        WithinOldest(a[1..], b[1..]);
        WithinLength(a[1..], b[1..]);
        assert b'[1..] == b[1..][..|b[1..]| - 1];
        assert a'[1..] == a[1..][..|a[1..]| - 1];
      }
    }
  }

  /** A key of the smaller list has the same entry in the larger one. */
  lemma LookupWithin<V>(a: seq<Entry<V>>, b: seq<Entry<V>>, key: string)
    requires Within(a, b) && Distinct(a) && Distinct(b) && Lookup(a, key).Some?
    ensures Lookup(b, key) == Lookup(a, key)
  {
    LookupSound(a, key);
    WithinMember(a, b, Lookup(a, key).value);
    var i :| 0 <= i < |b| && b[i] == Lookup(a, key).value;
    LookupAt(b, i);
  }

  /** Size n against Size m: n is positive, and m is at least n or unlimited. */
  predicate Larger(small: Config, large: Config) {
    && 1 <= small.size && (large.size == 0 || small.size <= large.size)
    && small.expiry == large.expiry
  }

  /** The smaller cache's list lies within the larger's, and the larger one holds at most
      m - n entries more. */
  ghost predicate Included<V>(small: Config, large: Config, a: seq<Entry<V>>, b: seq<Entry<V>>) {
    && Within(a, b)
    && (large.size != 0 ==> |b| - |a| <= large.size - small.size)
  }

  lemma {:induction false} WithinPrefix<V>(a: seq<Entry<V>>, b: seq<Entry<V>>)
    requires Within(a, b) && a != []
    ensures Within(a[..|a| - 1], b)
    decreases |b|
  {
    var a' := a[..|a| - 1];
    if |a| > 1 {
      if Within(a, b[1..]) {
        WithinPrefix(a, b[1..]);
      } else {
        WithinPrefix(a[1..], b[1..]);
        assert a'[1..] == a[1..][..|a[1..]| - 1];
      }
    }
  }

  /** The list an insertion of a new key leaves. */
  function Trim<V>(cfg: Config, l: seq<Entry<V>>): seq<Entry<V>> {
    if OverFull(cfg, |l|) then Oldest(l).list else l
  }

  /** `a` and `b` are the lists with the new entry in front, before any eviction. If the larger cache
      has to evict, the smaller one has to as well, because it is at most m - n entries behind. */
  lemma TrimIncluded<V>(small: Config, large: Config, a: seq<Entry<V>>, b: seq<Entry<V>>)
    requires Larger(small, large) && Within(a, b) && a != []
    requires |a| - 1 <= small.size && (large.size != 0 ==> |b| - 1 <= large.size)
    requires large.size != 0 ==> |b| - |a| <= large.size - small.size
    ensures Included(small, large, Trim(small, a), Trim(large, b))
  {
    WithinPrefix(a, b);
    WithinOldest(a, b);
    WithinLength(a, b);
  }

  /** The key is known to the larger cache only, so the smaller one may have to evict. */
  lemma ReAddIncluded<V>(small: Config, large: Config, a: seq<Entry<V>>, b: seq<Entry<V>>)
    requires Larger(small, large) && Within(a, b) && a != []
    requires |a| - 1 <= small.size && (large.size != 0 ==> |b| <= large.size)
    requires large.size != 0 ==> |b| - |a| <= large.size - small.size - 1
    ensures Included(small, large, Trim(small, a), b)
  {
    WithinPrefix(a, b);
  }

  lemma AddIncluded<V>(small: Config, large: Config, a: seq<Entry<V>>, b: seq<Entry<V>>, op: Op<V>)
    requires Larger(small, large) && Fits(small, a) && Fits(large, b) && Included(small, large, a, b) && op.Add?
    ensures Included(small, large, Step(small, a, op).list, Step(large, b, op).list)
  {
    var e := Entry(op.key, op.value, Stamp(small, op.now));
    DropIncluded(a, b, op.key);
    if Lookup(a, op.key).Some? {
      WithinCons(Drop(a, op.key), Drop(b, op.key), e);
    } else {
      WithinCons(a, Drop(b, op.key), e);
      if Lookup(b, op.key).Some? {
        ReAddIncluded(small, large, [e] + a, [e] + Drop(b, op.key));
      } else {
        TrimIncluded(small, large, [e] + a, [e] + b);
      }
    }
  }

  lemma StepIncluded<V>(small: Config, large: Config, a: seq<Entry<V>>, b: seq<Entry<V>>, op: Op<V>)
    requires Larger(small, large) && Fits(small, a) && Fits(large, b) && Included(small, large, a, b)
    ensures Included(small, large, Step(small, a, op).list, Step(large, b, op).list)
    ensures Step(small, a, op).hit.Some? ==> Step(large, b, op).hit == Step(small, a, op).hit
  {
    WithinLength(a, b);
    match op {
      case Add(_, _, _) => AddIncluded(small, large, a, b, op);
      case Get(key, now) => DropIncluded(a, b, key);
        if Lookup(a, key).Some? {
          WithinCons(Drop(a, key), Drop(b, key), Lookup(a, key).value);
        } else if Lookup(b, key).Some? {
          WithinSkip(a, Drop(b, key), Lookup(b, key).value);
        }
      case Update(key, value) => WithinWrite(a, b, key, value); WriteAt(a, key, value); WriteAt(b, key, value);
      case Remove(key) => DropIncluded(a, b, key);
      case RemoveOldest => WithinOldest(a, b);
      case Clear =>
    }
  }

  lemma WithinSkip<V>(a: seq<Entry<V>>, b: seq<Entry<V>>, e: Entry<V>)
    requires Within(a, b)
    ensures Within(a, [e] + b)
  {
    assert ([e] + b)[1..] == b;
  }

  lemma DropIncluded<V>(a: seq<Entry<V>>, b: seq<Entry<V>>, key: string)
    requires Within(a, b) && Distinct(a) && Distinct(b)
    ensures Within(Drop(a, key), Drop(b, key))
    ensures Lookup(a, key).None? ==> Drop(a, key) == a
    ensures Lookup(b, key).None? ==> Drop(b, key) == b
    ensures |Drop(a, key)| == |a| - if Lookup(a, key).Some? then 1 else 0
    ensures |Drop(b, key)| == |b| - if Lookup(b, key).Some? then 1 else 0
    ensures Lookup(a, key).Some? ==> Lookup(b, key) == Lookup(a, key)
  {
    WithinDrop(a, b, key);
    DropDistinct(a, key);
    DropDistinct(b, key);
    LookupSound(a, key);
    LookupSound(b, key);
    if Lookup(a, key).Some? {
      LookupWithin(a, b, key);
    } else {
      DropMiss(a, key);
    }
    if Lookup(b, key).None? {
      DropMiss(b, key);
    }
  }

  /** The inclusion property of LRU with expiry, updates and removals: on the same history the
      smaller cache's recency list lies within the larger's, with equal values and insert times,
      and the next operation, if it hits in the smaller cache, hits in the larger with the same
      value. */
  lemma {:induction false} Inclusion<V>(small: Config, large: Config, ops: seq<Op<V>>, next: Op<V>)
    requires Larger(small, large)
    ensures Included(small, large, Run(small, ops), Run(large, ops))
    ensures Step(small, Run(small, ops), next).hit.Some? ==>
      Step(large, Run(large, ops), next).hit == Step(small, Run(small, ops), next).hit
    decreases |ops|
  {
    if ops != [] {
      Inclusion(small, large, ops[..|ops| - 1], next);
      RunFits(small, ops[..|ops| - 1]);
      RunFits(large, ops[..|ops| - 1]);
      StepIncluded(small, large, Run(small, ops[..|ops| - 1]), Run(large, ops[..|ops| - 1]), ops[|ops| - 1]);
    }
    RunFits(small, ops);
    RunFits(large, ops);
    StepIncluded(small, large, Run(small, ops), Run(large, ops), next);
  }
}
