/** The cache itself: a map into a doubly linked list of heap nodes, each method proved to
    carry out the recency-list operation of LruSpec. */
module LruCache {
  import opened LruOrder
  import opened LruRetention
  import opened LruSpec
  import opened Options

  /** A list element with its entry. */
  class Element<V> {
    var next: Element?<V>
    var prev: Element?<V>
    const key: string
    var value: V
    var timeInsert: int

    constructor (key: string, value: V, timeInsert: int)
      ensures this.key == key && this.value == value && this.timeInsert == timeInsert
    {
      this.key, this.value, this.timeInsert := key, value, timeInsert;
      next, prev := null, null;
    }
  }

  /** The node at a position, null outside the list. */
  ghost function At<V>(nodes: seq<Element<V>>, i: int): Element?<V> {
    if 0 <= i < |nodes| then nodes[i] else null
  }

  ghost function Without<V>(nodes: seq<Element<V>>, i: nat): (cut: seq<Element<V>>)
    requires i < |nodes|
    ensures |cut| == |nodes| - 1
    ensures forall k :: 0 <= k < |cut| ==> cut[k] == nodes[if k < i then k else k + 1]
  {
    seq(|nodes| - 1, k requires 0 <= k < |nodes| - 1 => nodes[if k < i then k else k + 1])
  }

  /** The links around position `i` bypass it; all others are in place. */
  ghost predicate Bypassed<V>(nodes: seq<Element<V>>, i: nat)
    reads nodes`next, nodes`prev
  {
    && (forall j {:trigger nodes[j].next} :: 0 <= j < |nodes| && j != i ==>
          nodes[j].next == At(nodes, if j == i - 1 then i + 1 else j + 1))
    && (forall j {:trigger nodes[j].prev} :: 0 <= j < |nodes| && j != i ==>
          nodes[j].prev == At(nodes, if j == i + 1 then i - 1 else j - 1))
  }

  lemma BypassedLinks<V>(nodes: seq<Element<V>>, i: nat)
    requires i < |nodes| && Bypassed(nodes, i)
    ensures Linked(Without(nodes, i))
    ensures At(Without(nodes, i), 0) == At(nodes, if i == 0 then 1 else 0)
    ensures At(Without(nodes, i), |nodes| - 2) == At(nodes, if i == |nodes| - 1 then |nodes| - 2 else |nodes| - 1)
  {
    var cut := Without(nodes, i);
    forall k | 0 <= k < |cut|
      ensures cut[k].next == At(cut, k + 1) && cut[k].prev == At(cut, k - 1)
    {
      var j := if k < i then k else k + 1;
      assert cut[k] == nodes[j];
      assert nodes[j].next == At(nodes, if j == i - 1 then i + 1 else j + 1);
      assert nodes[j].prev == At(nodes, if j == i + 1 then i - 1 else j - 1);
    }
  }

  lemma WithoutNoRepeats<V>(nodes: seq<Element<V>>, i: nat)
    requires i < |nodes| && NoRepeats(nodes)
    ensures NoRepeats(Without(nodes, i)) && nodes[i] !in Without(nodes, i)
  {}

  /** Every node points to its neighbours. */
  ghost predicate Linked<V>(nodes: seq<Element<V>>)
    reads nodes`next, nodes`prev
  {
    && (forall i {:trigger nodes[i].next} :: 0 <= i < |nodes| ==> nodes[i].next == At(nodes, i + 1))
    && (forall i {:trigger nodes[i].prev} :: 0 <= i < |nodes| ==> nodes[i].prev == At(nodes, i - 1))
  }

  ghost predicate NoRepeats<V>(nodes: seq<Element<V>>) {
    forall i, j :: 0 <= i < j < |nodes| ==> nodes[i] != nodes[j]
  }

  /** A doubly linked list with the behaviour of Go's container/list, front first. */
  class LinkedList<V> {
    var front: Element?<V>
    var back: Element?<V>
    var len: nat
    ghost var nodes: seq<Element<V>>

    ghost predicate Valid()
      reads this, nodes
    {
      && len == |nodes|
      && NoRepeats(nodes)
      && front == At(nodes, 0)
      && back == At(nodes, |nodes| - 1)
      && Linked(nodes)
    }

    constructor ()
      ensures Valid() && nodes == []
    {
      front, back, len, nodes := null, null, 0, [];
    }

    method PushFront(e: Element<V>)
      requires Valid() && e !in nodes
      modifies this, e`next, e`prev, nodes`prev
      ensures Valid() && nodes == [e] + old(nodes)
    {
      ghost var was := nodes;
      e.prev, e.next := null, front;
      if front == null {
        back := e;
      } else {
        front.prev := e;
      }
      front, len, nodes := e, len + 1, [e] + nodes;
      forall i | 0 <= i < |nodes|
        ensures nodes[i].next == At(nodes, i + 1) && nodes[i].prev == At(nodes, i - 1)
      {
        if i > 0 {
          var x := was[i - 1];
          assert x != e && nodes[i] == x;
          assert x.next == old(x.next) == At(was, i);
          if i > 1 {
            assert was[0] != x;
            assert x.prev == old(x.prev) == At(was, i - 2);
          }
        }
      }
    }

    method Remove(e: Element<V>, ghost i: nat)
      requires Valid() && i < |nodes| && nodes[i] == e
      modifies this, nodes`next, nodes`prev
      ensures Valid() && nodes == Without(old(nodes), i)
    {
      ghost var was := nodes;
      ghost var p, n := At(nodes, i - 1), At(nodes, i + 1);
      assert e.next == n && e.prev == p;
      if e.prev == null {
        front := e.next;
      } else {
        e.prev.next := e.next;
      }
      if e.next == null {
        back := e.prev;
      } else {
        e.next.prev := e.prev;
      }
      e.next, e.prev := null, null;
      len, nodes := len - 1, Without(nodes, i);
      BypassedLinks(was, i);
      WithoutNoRepeats(was, i);
    }

    method MoveToFront(e: Element<V>, ghost i: nat)
      requires Valid() && i < |nodes| && nodes[i] == e
      modifies this, nodes`next, nodes`prev
      ensures Valid() && nodes == [e] + Without(old(nodes), i)
    {
      if front == e {
        return;
      }
      Remove(e, i);
      PushFront(e);
    }

    method Init()
      modifies this
      ensures Valid() && nodes == []
    {
      front, back, len, nodes := null, null, 0, [];
    }
  }

  // ------------------------------------------------------------ nodes, keys and entries

  /** The map sends every key of the list, and no other, to its own node. */
  ghost predicate Maps<V>(cache: map<string, Element<V>>, nodes: seq<Element<V>>) {
    && (forall i :: 0 <= i < |nodes| ==> nodes[i].key in cache && cache[nodes[i].key] == nodes[i])
    && (forall k {:trigger cache[k] in nodes} :: k in cache ==> cache[k] in nodes)
    && (forall k {:trigger cache[k].key} :: k in cache ==> cache[k].key == k)
  }

  ghost predicate SameKeys<V>(nodes: seq<Element<V>>, l: seq<Entry<V>>) {
    |l| == |nodes| && forall i :: 0 <= i < |nodes| ==> l[i].key == nodes[i].key
  }

  /** The nodes hold these entries. */
  ghost predicate Holds<V>(nodes: seq<Element<V>>, l: seq<Entry<V>>)
    reads nodes`value, nodes`timeInsert
  {
    && SameKeys(nodes, l)
    && forall i :: 0 <= i < |l| ==> l[i].value == nodes[i].value && l[i].stamp == nodes[i].timeInsert
  }

  lemma HoldsWithout<V>(nodes: seq<Element<V>>, l: seq<Entry<V>>, i: nat)
    requires Holds(nodes, l) && i < |nodes|
    ensures Holds(Without(nodes, i), l[..i] + l[i + 1..])
  {}

  lemma HoldsFront<V>(nodes: seq<Element<V>>, l: seq<Entry<V>>, e: Element<V>)
    requires Holds(nodes, l)
    ensures Holds([e] + nodes, [Entry(e.key, e.value, e.timeInsert)] + l)
  {}

  lemma MapsRemove<V>(cache: map<string, Element<V>>, nodes: seq<Element<V>>, i: nat)
    requires Maps(cache, nodes) && i < |nodes| && NoRepeats(nodes)
    ensures Maps(cache - {nodes[i].key}, Without(nodes, i))
    ensures Maps(cache, [nodes[i]] + Without(nodes, i))
  {
    forall k | k in cache && k != nodes[i].key
      ensures cache[k] in Without(nodes, i)
    {
      assert cache[k].key == k && cache[k] in nodes;
      var j :| 0 <= j < |nodes| && nodes[j] == cache[k];
      assert Without(nodes, i)[if j < i then j else j - 1] == cache[k];
    }
  }

  lemma MapsPush<V>(cache: map<string, Element<V>>, nodes: seq<Element<V>>, e: Element<V>)
    requires Maps(cache, nodes) && e.key !in cache
    ensures Maps(cache[e.key := e], [e] + nodes) && e !in nodes
  {}

  /** So no key is in the list twice. */
  lemma MapsDistinct<V>(cache: map<string, Element<V>>, nodes: seq<Element<V>>, l: seq<Entry<V>>)
    requires Maps(cache, nodes) && NoRepeats(nodes) && SameKeys(nodes, l)
    ensures Distinct(l)
  {
    forall i, j | 0 <= i < j < |l|
      ensures l[i].key != l[j].key
    {
      assert nodes[i] != nodes[j];
    }
  }

  lemma Absent<V>(cache: map<string, Element<V>>, nodes: seq<Element<V>>, l: seq<Entry<V>>, key: string)
    requires Maps(cache, nodes) && SameKeys(nodes, l) && key !in cache
    ensures Lookup(l, key) == None
  {
    LookupSound(l, key);
  }

  /** Where the node of a cached key is, and what that means for the list. */
  lemma Locate<V>(cache: map<string, Element<V>>, nodes: seq<Element<V>>, l: seq<Entry<V>>, key: string) returns (i: nat)
    requires Maps(cache, nodes) && NoRepeats(nodes) && SameKeys(nodes, l) && key in cache
    ensures i < |nodes| && nodes[i] == cache[key]
    ensures Lookup(l, key) == Some(l[i])
    ensures Drop(l, key) == l[..i] + l[i + 1..]
  {
    assert cache[key] in nodes;
    i :| 0 <= i < |nodes| && nodes[i] == cache[key];
    MapsDistinct(cache, nodes, l);
    LookupAt(l, i);
    DropAt(l, i);
  }

  lemma EntryOf<V>(cache: map<string, Element<V>>, nodes: seq<Element<V>>, l: seq<Entry<V>>, key: string)
    requires Maps(cache, nodes) && NoRepeats(nodes) && Holds(nodes, l) && key in cache
    ensures Lookup(l, key) == Some(Entry(key, cache[key].value, cache[key].timeInsert)) && cache[key].key == key
  {
    var i := Locate(cache, nodes, l, key);
  }

  /** What OnEvicted is called with for the entries that leave. */
  function Reports<V>(gone: seq<Entry<V>>): (r: seq<(string, V)>)
    ensures |r| == |gone|
    ensures forall i :: 0 <= i < |gone| ==> r[i] == (gone[i].key, gone[i].value)
  {
    if gone == [] then [] else [(gone[0].key, gone[0].value)] + Reports(gone[1..])
  }

  lemma {:induction false} ReportsSplit<V>(a: seq<Entry<V>>, b: seq<Entry<V>>)
    ensures Reports(a + b) == Reports(a) + Reports(b)
  {
    if a == [] {
      assert a + b == b;
    } else {
      assert (a + b)[1..] == a[1..] + b;
      ReportsSplit(a[1..], b);
    }
  }

  /** The calls of OnEvicted for these departures. */
  function Calls<V>(hasCallback: bool, gone: seq<Entry<V>>): seq<(string, V)> {
    if hasCallback then Reports(gone) else []
  }

  /** The list and the calls of OnEvicted, in some order, are those of the history. */
  ghost predicate Accounts<V>(cfg: Config, hasCallback: bool, history: seq<Op<V>>, list: seq<Entry<V>>,
                              evicted: seq<(string, V)>) {
    list == Run(cfg, history) && multiset(evicted) == multiset(Calls(hasCallback, Departures(cfg, history)))
  }

  lemma Recorded<V>(cfg: Config, hasCallback: bool, history: seq<Op<V>>, op: Op<V>, list: seq<Entry<V>>,
                    before: seq<(string, V)>, after: seq<(string, V)>)
    requires Accounts(cfg, hasCallback, history, list, before)
    requires multiset(after) == multiset(before) + multiset(Calls(hasCallback, Step(cfg, list, op).gone))
    ensures Accounts(cfg, hasCallback, history + [op], Step(cfg, list, op).list, after)
  {
    assert (history + [op])[..|history|] == history;
    ReportsSplit(Departures(cfg, history), Step(cfg, list, op).gone);
  }

  lemma FetchedIsFresh<V>(cfg: Config, history: seq<Op<V>>, list: seq<Entry<V>>, key: string, now: int, value: Option<V>)
    requires list == Run(cfg, history) && value == Step(cfg, list, Op.Get(key, now)).hit
    ensures value.Some? ==> value == LastWritten(history, key) && LastAdded(history, key).Some?
    ensures value.Some? && cfg.expiry != 0 ==> now - LastAdded(history, key).value <= Quotient(cfg.expiry, MILLISECOND)
  {
    if value.Some? {
      HitIsFresh(cfg, history, key, now);
    }
  }

  /** The key, and only that, was taken out. */
  ghost predicate IsGone<V>(before: seq<Entry<V>>, after: seq<Entry<V>>, key: string) {
    Lookup(after, key).None? && forall k :: k != key ==> Lookup(after, k) == Lookup(before, k)
  }

  /** What an Add lets in, and what has to leave for it. */
  lemma Admitted<V>(cfg: Config, history: seq<Op<V>>, list: seq<Entry<V>>, key: string, value: V, now: int)
    requires list == Run(cfg, history) && cfg.size >= 0
    ensures var o := Step(cfg, list, Op.Add(key, value, now));
      Lookup(o.list, key) == Some(Entry(key, value, if cfg.expiry != 0 then now else 0)) && o.gone == Victims(cfg, list, key)
  {
    RunFits(cfg, history);
    AddKeeps(cfg, list, key, value, now);
  }

  lemma OldestIsGone<V>(cfg: Config, history: seq<Op<V>>, list: seq<Entry<V>>)
    requires list == Run(cfg, history) && list != []
    ensures IsGone(list, Step(cfg, list, Op<V>.RemoveOldest).list, list[|list| - 1].key)
  {
    RunFits(cfg, history);
    RemoveOldestTakes(cfg, list);
  }

  class CacheBase<V> {
    const Expiry: int
    const Size: int
    const hasCallback: bool
    /** The calls of OnEvicted so far. */
    var evicted: seq<(string, V)>

    const ll: LinkedList<V>
    var cache: map<string, Element<V>>
    /** The recency list the heap represents, and the calls on the cache so far. */
    ghost var list: seq<Entry<V>>
    ghost var history: seq<Op<V>>

    /** The map and the heap represent the list. */
    ghost predicate Sound()
      reads this, ll, ll.nodes
    {
      && ll.Valid()
      && NoRepeats(ll.nodes)
      && Maps(cache, ll.nodes)
      && Holds(ll.nodes, list)
    }

    /** And the list is what the history leaves: so what is proved of histories holds of the cache. */
    ghost predicate Valid()
      reads this, ll, ll.nodes
    {
      Sound() && Accounts(Cfg(), hasCallback, history, list, evicted)
    }

    ghost function Cfg(): Config { Config(Size, Expiry) }

    constructor (size: int, expiry: int, hasCallback: bool)
      ensures Valid() && list == [] && history == [] && evicted == [] && fresh(ll)
      ensures Size == size && Expiry == expiry && this.hasCallback == hasCallback
    {
      Size, Expiry, this.hasCallback := size, expiry, hasCallback;
      evicted, cache, list, history := [], map[], [], [];
      ll := new LinkedList();
    }

    method Add(key: string, value: V, now: int)
      requires Valid()
      modifies this, ll, ll.nodes
      ensures Valid() && history == old(history) + [Op.Add(key, value, now)]
      ensures forall n :: n in ll.nodes ==> n in old(ll.nodes) || fresh(n)
      ensures var o := Step(Cfg(), old(list), Op.Add(key, value, now));
        list == o.list && evicted == old(evicted) + Calls(hasCallback, o.gone)
      ensures Size >= 0 ==>
        && Lookup(list, key) == Some(Entry(key, value, if Expiry != 0 then now else 0))
        && evicted == old(evicted) + Calls(hasCallback, Victims(Cfg(), old(list), key))
    {
      Put(key, value, now);
      Recorded(Cfg(), hasCallback, history, Op.Add(key, value, now), old(list), old(evicted), evicted);
      if Size >= 0 {
        Admitted(Cfg(), history, old(list), key, value, now);
      }
      history := history + [Op.Add(key, value, now)];
    }

    method Put(key: string, value: V, now: int)
      requires Sound()
      modifies this`list, this`cache, this`evicted, ll, ll.nodes
      ensures Sound() && forall n :: n in ll.nodes ==> n in old(ll.nodes) || fresh(n)
      ensures var o := Step(Cfg(), old(list), Op.Add(key, value, now));
        list == o.list && evicted == old(evicted) + Calls(hasCallback, o.gone)
    {
      var epochNow := 0;
      if Expiry != 0 {
        epochNow := now;
      }
      if key in cache {
        Refresh(key, value, epochNow);
        return;
      }
      Absent(cache, ll.nodes, list, key);
      AddNew(key, value, epochNow);
    }

    /** The branch of Add for a key that is not there. */
    method AddNew(key: string, value: V, epochNow: int)
      requires Sound() && key !in cache
      modifies this`list, this`cache, this`evicted, ll, ll.nodes
      ensures Sound() && forall n :: n in ll.nodes ==> n in old(ll.nodes) || fresh(n)
      ensures var all := [Entry(key, value, epochNow)] + old(list);
        var o := if OverFull(Cfg(), |all|) then Oldest(all) else Outcome(all, [], None);
        list == o.list && evicted == old(evicted) + Calls(hasCallback, o.gone)
    {
      var ele := new Element(key, value, epochNow);
      Insert(ele);
      if Size != 0 && ll.len > Size {
        Evict();
      }
    }

    /** The branch of Add for a key that is there. */
    method Refresh(key: string, value: V, epochNow: int)
      requires Sound() && key in cache
      modifies this`list, ll, ll.nodes
      ensures Sound() && forall n :: n in ll.nodes ==> n in old(ll.nodes)
      ensures list == [Entry(key, value, epochNow)] + Drop(old(list), key)
      ensures Lookup(old(list), key).Some?
    {
      var ee := cache[key];
      ghost var i := Locate(cache, ll.nodes, list, key);
      assert ee.key == key;
      Promote(ee, i);
      SetFront(ee, value, epochNow);
    }

    method SetFront(ee: Element<V>, value: V, timeInsert: int)
      requires Sound() && ll.nodes != [] && ll.nodes[0] == ee
      modifies this`list, ee`value, ee`timeInsert
      ensures Sound()
      ensures list == [Entry(ee.key, value, timeInsert)] + old(list)[1..]
    {
      ghost var nodes, l := ll.nodes, [Entry(ee.key, value, timeInsert)] + list[1..];
      ee.value := value;
      ee.timeInsert := timeInsert;
      list := l;
      assert forall k :: 0 < k < |l| ==> nodes[k] != ee && l[k] == old(list)[k];
    }

    /** The insertion of Add. */
    method Insert(ele: Element<V>)
      requires Sound() && ele.key !in cache
      modifies this`list, this`cache, ll, ele`next, ele`prev, ll.nodes`prev
      ensures Sound() && ll.nodes == [ele] + old(ll.nodes)
      ensures list == [Entry(ele.key, ele.value, ele.timeInsert)] + old(list)
    {
      MapsPush(cache, ll.nodes, ele);
      HoldsFront(ll.nodes, list, ele);
      ll.PushFront(ele);
      cache := cache[ele.key := ele];
      list := [Entry(ele.key, ele.value, ele.timeInsert)] + list;
    }

    /** A hit is the value last written under the key, and no older than the expiry. */
    method Get(key: string, now: int) returns (value: Option<V>)
      requires Valid()
      modifies this, ll, ll.nodes
      ensures Valid() && history == old(history) + [Op.Get(key, now)]
      ensures forall n :: n in ll.nodes ==> n in old(ll.nodes)
      ensures var o := Step(Cfg(), old(list), Op.Get(key, now));
        list == o.list && evicted == old(evicted) + Calls(hasCallback, o.gone) && value == o.hit
      ensures value.Some? ==> value == LastWritten(old(history), key) && LastAdded(old(history), key).Some?
      ensures value.Some? && Expiry != 0 ==>
        now - LastAdded(old(history), key).value <= Quotient(Expiry, MILLISECOND)
      ensures Lookup(old(list), key).Some? && (Expiry != 0 ==>
          LastAdded(old(history), key).Some? && now - LastAdded(old(history), key).value <= Quotient(Expiry, MILLISECOND))
        ==> value.Some? && Lookup(list, key) == Lookup(old(list), key)
    {
      HitIff(Cfg(), history, key, now);
      GetTakes(Cfg(), list, key, now);
      value := Fetch(key, now);
      Recorded(Cfg(), hasCallback, history, Op.Get(key, now), old(list), old(evicted), evicted);
      FetchedIsFresh(Cfg(), history, old(list), key, now, value);
      history := history + [Op.Get(key, now)];
    }

    method Fetch(key: string, now: int) returns (value: Option<V>)
      requires Sound()
      modifies this`list, this`cache, this`evicted, ll, ll.nodes
      ensures Sound() && forall n :: n in ll.nodes ==> n in old(ll.nodes)
      ensures var o := Step(Cfg(), old(list), Op.Get(key, now));
        list == o.list && evicted == old(evicted) + Calls(hasCallback, o.gone) && value == o.hit
    {
      if key in cache {
        value := FetchElement(key, cache[key], now);
      } else {
        Absent(cache, ll.nodes, list, key);
        value := None;
      }
    }

    /** The element is there: it has expired, or it is a hit. */
    method FetchElement(key: string, ele: Element<V>, now: int) returns (value: Option<V>)
      requires Sound() && key in cache && cache[key] == ele
      modifies this`list, this`cache, this`evicted, ll, ll.nodes
      ensures Sound() && forall n :: n in ll.nodes ==> n in old(ll.nodes)
      ensures Lookup(old(list), key).Some?
      ensures var e := Lookup(old(list), key).value; var out := Expired(Cfg(), e, now);
        && value == (if out then None else Some(e.value))
        && list == (if out then [] else [e]) + Drop(old(list), key)
        && evicted == old(evicted) + Calls(hasCallback, if out then [e] else [])
    {
      ghost var i := Locate(cache, ll.nodes, list, key);
      if Expiry != 0 && now - ele.timeInsert > Quotient(Expiry, MILLISECOND) {
        RemoveElement(ele, i);
        return None;
      }
      Promote(ele, i);
      return Some(ele.value);
    }

    /** A hit: the element moves to the front. */
    method Promote(ele: Element<V>, ghost i: nat)
      requires Sound() && i < |ll.nodes| && ll.nodes[i] == ele
      modifies this`list, ll, ll.nodes`next, ll.nodes`prev
      ensures Sound() && ll.nodes == [ele] + Without(old(ll.nodes), i)
      ensures forall n :: n in ll.nodes ==> n in old(ll.nodes)
      ensures list == [old(list[i])] + old(list[..i] + list[i + 1..])
    {
      MapsRemove(cache, ll.nodes, i);
      HoldsWithout(ll.nodes, list, i);
      HoldsFront(Without(ll.nodes, i), list[..i] + list[i + 1..], ele);
      ll.MoveToFront(ele, i);
      list := [list[i]] + (list[..i] + list[i + 1..]);
    }

    method UpdateElement(key: string, value: V)
      requires Valid()
      modifies this`list, this`history, ll.nodes`value
      ensures Valid() && history == old(history) + [Op.Update(key, value)]
      ensures list == Step(Cfg(), old(list), Op.Update(key, value)).list
      ensures Lookup(list, key).Some? <==> Lookup(old(list), key).Some?
      ensures Lookup(list, key).Some? ==> Lookup(list, key).value == Lookup(old(list), key).value.(value := value)
    {
      UpdateWrites(Cfg(), list, key, value);
      Overwrite(key, value);
      Recorded(Cfg(), hasCallback, history, Op.Update(key, value), old(list), evicted, evicted);
      history := history + [Op.Update(key, value)];
    }

    method Overwrite(key: string, value: V)
      requires Sound()
      modifies this`list, ll.nodes`value
      ensures Sound() && list == Write(old(list), key, value)
    {
      WriteAt(list, key, value);
      if key in cache {
        var ee := cache[key];
        assert ee in ll.nodes;
        ee.value := value;
      }
      list := Write(list, key, value);
    }

    method Remove(key: string)
      requires Valid()
      modifies this, ll, ll.nodes
      ensures Valid() && history == old(history) + [Op.Remove(key)]
      ensures forall n :: n in ll.nodes ==> n in old(ll.nodes)
      ensures var o := Step(Cfg(), old(list), Op.Remove(key));
        list == o.list && evicted == old(evicted) + Calls(hasCallback, o.gone)
      ensures IsGone(old(list), list, key)
    {
      ghost var o := Step(Cfg(), list, Op.Remove(key));
      assert IsGone(list, o.list, key) by {
        RemoveTakes(Cfg(), list, key);
      }
      Delete(key);
      Recorded(Cfg(), hasCallback, history, Op.Remove(key), old(list), old(evicted), evicted);
      history := history + [Op.Remove(key)];
    }

    method Delete(key: string)
      requires Sound()
      modifies this`list, this`cache, this`evicted, ll, ll.nodes
      ensures Sound() && forall n :: n in ll.nodes ==> n in old(ll.nodes)
      ensures var o := Step(Cfg(), old(list), Op.Remove(key));
        list == o.list && evicted == old(evicted) + Calls(hasCallback, o.gone)
    {
      if key in cache {
        ghost var i := Locate(cache, ll.nodes, list, key);
        RemoveElement(cache[key], i);
      } else {
        Absent(cache, ll.nodes, list, key);
      }
    }

    method RemoveOldest()
      requires Valid()
      modifies this, ll, ll.nodes
      ensures Valid() && history == old(history) + [Op.RemoveOldest]
      ensures forall n :: n in ll.nodes ==> n in old(ll.nodes)
      ensures var o := Step(Cfg(), old(list), Op.RemoveOldest);
        list == o.list && evicted == old(evicted) + Calls(hasCallback, o.gone)
      ensures old(list) != [] ==> IsGone(old(list), list, old(list)[|old(list)| - 1].key)
    {
      if list != [] {
        OldestIsGone(Cfg(), history, list);
      }
      Evict();
      Recorded(Cfg(), hasCallback, history, Op.RemoveOldest, old(list), old(evicted), evicted);
      history := history + [Op.RemoveOldest];
    }

    /** RemoveOldest, also as Add calls it. */
    method Evict()
      requires Sound()
      modifies this`list, this`cache, this`evicted, ll, ll.nodes
      ensures Sound() && forall n :: n in ll.nodes ==> n in old(ll.nodes)
      ensures var o := Step(Cfg(), old(list), Op.RemoveOldest);
        list == o.list && evicted == old(evicted) + Calls(hasCallback, o.gone)
    {
      var ele := ll.back;
      if ele != null {
        RemoveElement(ele, |ll.nodes| - 1);
      }
    }

    method RemoveElement(e: Element<V>, ghost i: nat)
      requires Sound() && i < |ll.nodes| && ll.nodes[i] == e
      modifies this`list, this`cache, this`evicted, ll, ll.nodes`next, ll.nodes`prev
      ensures Sound() && ll.nodes == Without(old(ll.nodes), i)
      ensures list == old(list[..i] + list[i + 1..])
      ensures evicted == old(evicted) + Calls(hasCallback, [old(list[i])])
    {
      Unlink(e, i);
      if hasCallback {
        evicted := evicted + [(e.key, e.value)];
      }
    }

    /** Out of the list and out of the map. */
    method Unlink(e: Element<V>, ghost i: nat)
      requires Sound() && i < |ll.nodes| && ll.nodes[i] == e
      modifies this`list, this`cache, ll, ll.nodes`next, ll.nodes`prev
      ensures Sound() && ll.nodes == Without(old(ll.nodes), i)
      ensures list == old(list[..i] + list[i + 1..])
    {
      MapsRemove(cache, ll.nodes, i);
      HoldsWithout(ll.nodes, list, i);
      ll.Remove(e, i);
      cache := cache - {e.key};
      list := list[..i] + list[i + 1..];
    }

    /** Len keeps to a positive Size; and every key ever newly inserted is counted in it or was reported. */
    method Len() returns (n: nat)
      requires Valid()
      ensures n == |list|
      ensures Size > 0 ==> n <= Size
      ensures hasCallback ==> |Insertions(Cfg(), history)| == |evicted| + n
    {
      RunFits(Cfg(), history);
      EvictionAccounting(Cfg(), history);
      assert |evicted| == |multiset(evicted)| == |Calls(hasCallback, Departures(Cfg(), history))|;
      n := ll.len;
    }

    /** `order` is the order in which Go's map iteration happens to visit the keys. */
    method Clear(order: seq<string>)
      requires Valid() && Visits(order, list)
      modifies this, ll
      ensures Valid() && list == [] && ll.nodes == [] && history == old(history) + [Op.Clear]
      ensures evicted == old(evicted) + if hasCallback then ReportsInOrder(old(list), order) else []
    {
      Purge(order);
      Recorded(Cfg(), hasCallback, history, Op.Clear, old(list), old(evicted), evicted);
      history := history + [Op.Clear];
    }

    method Purge(order: seq<string>)
      requires Sound() && Visits(order, list)
      modifies this`list, this`cache, this`evicted, ll
      ensures Sound() && list == [] && ll.nodes == []
      ensures evicted == old(evicted) + if hasCallback then ReportsInOrder(old(list), order) else []
      ensures multiset(evicted) == multiset(old(evicted)) + multiset(Calls(hasCallback, old(list)))
    {
      MapsDistinct(cache, ll.nodes, list);
      ClearReportsAll(list, order);
      DeleteAll(order);
      list := [];
      ll.Init();
    }

    /** The loop of Clear. */
    method DeleteAll(order: seq<string>)
      requires NoRepeats(ll.nodes) && Maps(cache, ll.nodes) && Holds(ll.nodes, list) && Visits(order, list)
      modifies this`cache, this`evicted
      ensures cache == map[]
      ensures evicted == old(evicted) + if hasCallback then ReportsInOrder(list, order) else []
    {
      ghost var all, reports := cache, ReportsInOrder(list, order);
      LeftEnds(all, ll.nodes, list, order);
      for j := 0 to |order|
        invariant cache == Left(all, order[..j])
        invariant evicted == old(evicted) + if hasCallback then reports[..j] else []
      {
        LeftStep(all, ll.nodes, list, order, j);
        assert reports[..j + 1] == reports[..j] + [reports[j]];
        var e := cache[order[j]];
        if hasCallback {
          evicted := evicted + [(e.key, e.value)];
        }
        cache := cache - {e.key};
      }
    }
  }

  /** What is left of the map after deleting the visited keys. */
  ghost function Left<V>(cache: map<string, Element<V>>, visited: seq<string>): map<string, Element<V>> {
    map k | k in cache && k !in visited :: cache[k]
  }

  lemma LeftEnds<V>(cache: map<string, Element<V>>, nodes: seq<Element<V>>, l: seq<Entry<V>>, order: seq<string>)
    requires Maps(cache, nodes) && NoRepeats(nodes) && Holds(nodes, l) && Visits(order, l)
    ensures Left(cache, order[..0]) == cache && Left(cache, order[..|order|]) == map[]
  {
    forall k | k in cache
      ensures k in order
    {
      EntryOf(cache, nodes, l, k);
    }
    assert order[..|order|] == order;
  }

  lemma LeftStep<V>(cache: map<string, Element<V>>, nodes: seq<Element<V>>, l: seq<Entry<V>>, order: seq<string>, j: nat)
    requires Maps(cache, nodes) && NoRepeats(nodes) && Holds(nodes, l) && Visits(order, l) && j < |order|
    ensures order[j] in Left(cache, order[..j])
    ensures Left(cache, order[..j]) - {order[j]} == Left(cache, order[..j + 1])
    ensures var e := cache[order[j]]; e.key == order[j] && Lookup(l, order[j]) == Some(Entry(e.key, e.value, e.timeInsert))
  {
    LookupSound(l, order[j]);
    EntryOf(cache, nodes, l, order[j]);
    assert order[..j + 1] == order[..j] + [order[j]];
  }

  /** `order` runs through the keys of `l`, each once. */
  ghost predicate Visits<V>(order: seq<string>, l: seq<Entry<V>>) {
    && (forall i, j :: 0 <= i < j < |order| ==> order[i] != order[j])
    && (forall k {:trigger Lookup(l, k)} :: k in order <==> Lookup(l, k).Some?)
  }

  /** The calls of OnEvicted that Clear makes when it visits the keys in this order. */
  ghost function ReportsInOrder<V>(l: seq<Entry<V>>, order: seq<string>): (r: seq<(string, V)>)
    requires forall k :: k in order ==> Lookup(l, k).Some?
    ensures |r| == |order|
    ensures forall j :: 0 <= j < |order| ==> r[j] == (order[j], Lookup(l, order[j]).value.value)
  {
    if order == [] then []
    else [(order[0], Lookup(l, order[0]).value.value)] + ReportsInOrder(l, order[1..])
  }

  lemma {:induction false} OnceEach<T>(s: seq<T>, x: T)
    requires forall i, j :: 0 <= i < j < |s| ==> s[i] != s[j]
    ensures multiset(s)[x] == if x in s then 1 else 0
  {
    if s != [] {
      var n := |s| - 1;
      OnceEach(s[..n], x);
      assert s == s[..n] + [s[n]];
      assert x in s <==> x in s[..n] || x == s[n];
    }
  }

  lemma SameElements<T>(a: seq<T>, b: seq<T>)
    requires forall i, j :: 0 <= i < j < |a| ==> a[i] != a[j]
    requires forall i, j :: 0 <= i < j < |b| ==> b[i] != b[j]
    requires forall x :: x in a ==> x in b
    requires forall x :: x in b ==> x in a
    ensures multiset(a) == multiset(b)
  {
    forall x | x in multiset(a) + multiset(b)
      ensures multiset(a)[x] == multiset(b)[x]
    {
      OnceEach(a, x);
      OnceEach(b, x);
    }
    assert multiset(a) <= multiset(b);
    assert multiset(b) <= multiset(a);
  }

  lemma ReportedIff<V>(l: seq<Entry<V>>, order: seq<string>, x: (string, V))
    requires Distinct(l) && Visits(order, l) && forall k :: k in order ==> Lookup(l, k).Some?
    ensures x in ReportsInOrder(l, order) <==> x in Reports(l)
  {
    var a, b := ReportsInOrder(l, order), Reports(l);
    if x in a {
      var j :| 0 <= j < |a| && a[j] == x;
      LookupSound(l, order[j]);
      var i :| 0 <= i < |l| && l[i] == Lookup(l, order[j]).value;
      assert b[i] == x;
    }
    if x in b {
      var i :| 0 <= i < |b| && b[i] == x;
      LookupAt(l, i);
      var j :| 0 <= j < |order| && order[j] == l[i].key;
      assert a[j] == x;
    }
  }

  lemma ReportsDiffer<V>(l: seq<Entry<V>>, order: seq<string>)
    requires Distinct(l) && Visits(order, l) && forall k :: k in order ==> Lookup(l, k).Some?
    ensures forall i, j :: 0 <= i < j < |order| ==> ReportsInOrder(l, order)[i] != ReportsInOrder(l, order)[j]
    ensures forall i, j :: 0 <= i < j < |l| ==> Reports(l)[i] != Reports(l)[j]
  {
    forall i, j | 0 <= i < j < |order|
      ensures ReportsInOrder(l, order)[i] != ReportsInOrder(l, order)[j]
    {
      assert order[i] != order[j];
    }
    forall i, j | 0 <= i < j < |l|
      ensures Reports(l)[i] != Reports(l)[j]
    {
      assert l[i].key != l[j].key;
    }
  }

  /** Whatever the order, Clear reports every entry exactly once. */
  lemma ClearReportsAll<V>(l: seq<Entry<V>>, order: seq<string>)
    requires Distinct(l) && Visits(order, l) && forall k :: k in order ==> Lookup(l, k).Some?
    ensures multiset(ReportsInOrder(l, order)) == multiset(Reports(l))
  {
    var a, b := ReportsInOrder(l, order), Reports(l);
    ReportsDiffer(l, order);
    forall x | x in a ensures x in b { ReportedIff(l, order, x); }
    forall x | x in b ensures x in a { ReportedIff(l, order, x); }
    SameElements(a, b);
  }
}
