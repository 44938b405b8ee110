/**
 The batch pipeline: deduplicate against Redis, group by priority, chunk, publish, and count.

 One batch is processed at one clock reading, so that nothing expires in the middle of it.  Which
 Redis and broker calls fail is a parameter (`Faults`, `Network`).
*/
module BatchProcessing {

  datatype Priority = High | Normal | Low

  /** `contentKey` is the key generated from user, type, title and body; an explicit key overrides it. */
  datatype Notification = Notification(id: string, priority: Priority, deduplicationKey: string, contentKey: string)
  {
    /** An absent or empty explicit key is falsy. */
    function Key(): (key: string)
      ensures deduplicationKey == "" ==> key == contentKey
      ensures deduplicationKey != "" ==> key == deduplicationKey
    {
      if deduplicationKey != "" then deduplicationKey else contentKey
    }
  }

  datatype Expiry = Never | At(time: int)

  type Keys = map<string, Expiry>

  datatype Fault = NoFault | GetFails | SetFails

  type Faults = nat -> Fault

  // ----- Deduplication ----------------------------------------------------------------------------------

  predicate Live(keys: Keys, key: string, now: int) {
    key in keys && (keys[key].Never? || now < keys[key].time)
  }

  /** A TTL of zero stores the key without expiry. */
  function Stamp(now: int, ttl: nat): Expiry {
    if ttl == 0 then Never else At(now + 1000 * ttl)
  }

  /** `checkDeduplication`: is it a duplicate, and the keys afterwards.  Failing open stores nothing. */
  function Check(keys: Keys, key: string, now: int, ttl: nat, fault: Fault): (bool, Keys) {
    if fault.GetFails? then (false, keys)
    else if Live(keys, key, now) then (true, keys)
    else if fault.SetFails? then (false, keys)
    else (false, keys[key := Stamp(now, ttl)])
  }

  function KeysAfter(ns: seq<Notification>, keys: Keys, now: int, ttl: nat, faults: Faults): Keys {
    if ns == [] then keys
    else
      var i := |ns| - 1;
      Check(KeysAfter(ns[..i], keys, now, ttl, faults), ns[i].Key(), now, ttl, faults(i)).1
  }

  function Duplicates(ns: seq<Notification>, keys: Keys, now: int, ttl: nat, faults: Faults): (r: seq<bool>)
    ensures |r| == |ns|
  {
    if ns == [] then []
    else
      var i := |ns| - 1;
      Duplicates(ns[..i], keys, now, ttl, faults)
      + [Check(KeysAfter(ns[..i], keys, now, ttl, faults), ns[i].Key(), now, ttl, faults(i)).0]
  }

  /** The notifications whose flag is false, in their order. */
  function Unflagged(ns: seq<Notification>, flags: seq<bool>): seq<Notification>
    requires |flags| == |ns|
  {
    if ns == [] then []
    else
      var i := |ns| - 1;
      if flags[i] then Unflagged(ns[..i], flags[..i]) else Unflagged(ns[..i], flags[..i]) + [ns[i]]
  }

  ghost predicate Earlier(ns: seq<Notification>, i: nat)
    requires i < |ns|
  {
    exists j :: 0 <= j < i && ns[j].Key() == ns[i].Key()
  }

  lemma {:induction false} KeysExactly(
      ns: seq<Notification>, keys: Keys, now: int, ttl: nat, faults: Faults, key: string)
    ensures Live(KeysAfter(ns, keys, now, ttl, faults), key, now)
        ==> Live(keys, key, now) || exists j :: 0 <= j < |ns| && ns[j].Key() == key
    ensures (forall i :: faults(i) == NoFault) ==>
      ((Live(keys, key, now) || (exists j :: 0 <= j < |ns| && ns[j].Key() == key))
       ==> Live(KeysAfter(ns, keys, now, ttl, faults), key, now))
  {
    if ns != [] {
      var before := ns[..|ns| - 1];
      KeysExactly(before, keys, now, ttl, faults, key);
      assert forall j :: 0 <= j < |before| ==> before[j] == ns[j];
    }
  }

  /**
   A notification is dropped only if its key is stored or was used earlier in the batch, whatever
   Redis does; when Redis works, exactly then.
  */
  lemma {:induction false} DroppedExactly(ns: seq<Notification>, keys: Keys, now: int, ttl: nat, faults: Faults, i: nat)
    requires i < |ns|
    ensures Duplicates(ns, keys, now, ttl, faults)[i] ==> Live(keys, ns[i].Key(), now) || Earlier(ns, i)
    ensures (forall j :: faults(j) == NoFault) ==>
      (Live(keys, ns[i].Key(), now) || Earlier(ns, i) ==> Duplicates(ns, keys, now, ttl, faults)[i])
  {
    var before := ns[..|ns| - 1];
    assert forall j :: 0 <= j < |before| ==> before[j] == ns[j];
    if i < |before| {
      DroppedExactly(before, keys, now, ttl, faults, i);
      assert Earlier(before, i) <==> Earlier(ns, i);
    } else {
      KeysExactly(before, keys, now, ttl, faults, ns[i].Key());
    }
  }

  /** With whatever faults: a key is live if it was stored, or one of its notifications met no fault. */
  ghost predicate Marked(ns: seq<Notification>, keys: Keys, now: int, faults: Faults, key: string) {
    Live(keys, key, now) || exists j :: 0 <= j < |ns| && ns[j].Key() == key && faults(j) == NoFault
  }

  lemma {:induction false} KeysUnderFaults(
      ns: seq<Notification>, keys: Keys, now: int, ttl: nat, faults: Faults, key: string)
    ensures Live(KeysAfter(ns, keys, now, ttl, faults), key, now) <==> Marked(ns, keys, now, faults, key)
  {
    if ns != [] {
      var before := ns[..|ns| - 1];
      KeysUnderFaults(before, keys, now, ttl, faults, key);
      assert forall j :: 0 <= j < |before| ==> before[j] == ns[j];
    }
  }

  /** And a notification is dropped exactly if the read works and its key is live. */
  lemma {:induction false} DroppedUnderFaults(
      ns: seq<Notification>, keys: Keys, now: int, ttl: nat, faults: Faults, i: nat)
    requires i < |ns|
    ensures Duplicates(ns, keys, now, ttl, faults)[i]
       <==> faults(i) != GetFails && Marked(ns[..i], keys, now, faults, ns[i].Key())
  {
    var before := ns[..|ns| - 1];
    if i < |before| {
      DroppedUnderFaults(before, keys, now, ttl, faults, i);
      assert before[..i] == ns[..i] && before[i] == ns[i];
    } else {
      KeysUnderFaults(before, keys, now, ttl, faults, ns[i].Key());
    }
  }

  /** What is left has pairwise distinct keys, and is the batch with the duplicates taken out. */
  lemma {:induction false} SurvivorsDistinct(ns: seq<Notification>, keys: Keys, now: int, ttl: nat, faults: Faults)
    requires forall i :: faults(i) == NoFault
    ensures var left := Unflagged(ns, Duplicates(ns, keys, now, ttl, faults));
      && (forall i, j :: 0 <= i < j < |left| ==> left[i].Key() != left[j].Key())
      && (forall n :: n in left ==> n in ns && !Live(keys, n.Key(), now))
  {
    if ns != [] {
      var i := |ns| - 1;
      var before, flags := ns[..i], Duplicates(ns, keys, now, ttl, faults);
      SurvivorsDistinct(before, keys, now, ttl, faults);
      assert flags[..i] == Duplicates(before, keys, now, ttl, faults);
      DroppedExactly(ns, keys, now, ttl, faults, i);
      var left := Unflagged(before, flags[..i]);
      if !flags[i] {
        forall k | 0 <= k < |left| ensures left[k].Key() != ns[i].Key() {
          assert left[k] in left;
          var j :| 0 <= j < |before| && before[j] == left[k];
          assert ns[j] == left[k];
        }
      }
    }
  }

  /** No key of the batch that is stored at `now` has expired at `later`. */
  ghost predicate KeysOutlive(ns: seq<Notification>, keys: Keys, now: int, later: int) {
    forall n :: n in ns && Live(keys, n.Key(), now) ==> Live(keys, n.Key(), later)
  }

  /**
   The same batch again, within the TTL, publishes nothing exactly if none of its keys that were stored
   before the first run has expired by then: the first run does not renew those.
  */
  lemma SecondRunIsEmpty(ns: seq<Notification>, keys: Keys, now: int, later: int, ttl: nat, faults: Faults)
    requires forall i :: faults(i) == NoFault
    requires now <= later && (ttl > 0 ==> later < now + 1000 * ttl)
    ensures var keys' := KeysAfter(ns, keys, now, ttl, faults);
      Unflagged(ns, Duplicates(ns, keys', later, ttl, faults)) == [] <==> KeysOutlive(ns, keys, now, later)
  {
    var keys' := KeysAfter(ns, keys, now, ttl, faults);
    var flags := Duplicates(ns, keys', later, ttl, faults);
    if KeysOutlive(ns, keys, now, later) {
      forall i | 0 <= i < |ns| ensures flags[i] {
        KeysExactly(ns, keys, now, ttl, faults, ns[i].Key());
        StillLive(ns, keys, now, later, ttl, faults, ns[i].Key());
        DroppedExactly(ns, keys', later, ttl, faults, i);
      }
      AllFlagged(ns, flags);
    } else {
      var n :| n in ns && Live(keys, n.Key(), now) && !Live(keys, n.Key(), later);
      var i := FirstUse(ns, n.Key());
      NotRenewed(ns, keys, now, ttl, faults, n.Key());
      DroppedExactly(ns, keys', later, ttl, faults, i);
      SomeUnflagged(ns, flags, i);
    }
  }

  lemma FirstUse(ns: seq<Notification>, key: string) returns (i: nat)
    requires exists n :: n in ns && n.Key() == key
    ensures i < |ns| && ns[i].Key() == key && !Earlier(ns, i)
  {
    i := 0;
    while ns[i].Key() != key
      invariant i < |ns| && forall j :: 0 <= j < i ==> ns[j].Key() != key
      invariant exists j :: i <= j < |ns| && ns[j].Key() == key
      decreases |ns| - i
    {
      i := i + 1;
    }
  }

  /** A key that is stored at the start keeps its expiry. */
  lemma {:induction false} NotRenewed(
      ns: seq<Notification>, keys: Keys, now: int, ttl: nat, faults: Faults, key: string)
    requires Live(keys, key, now)
    ensures key in KeysAfter(ns, keys, now, ttl, faults)
    ensures KeysAfter(ns, keys, now, ttl, faults)[key] == keys[key]
  {
    if ns != [] { NotRenewed(ns[..|ns| - 1], keys, now, ttl, faults, key); }
  }

  lemma {:induction false} StillLive(
      ns: seq<Notification>, keys: Keys, now: int, later: int, ttl: nat, faults: Faults, key: string)
    requires now <= later && (ttl > 0 ==> later < now + 1000 * ttl)
    requires Live(keys, key, now) ==> Live(keys, key, later)
    ensures var after := KeysAfter(ns, keys, now, ttl, faults);
      Live(after, key, now) ==> Live(after, key, later)
  {
    if ns != [] { StillLive(ns[..|ns| - 1], keys, now, later, ttl, faults, key); }
  }

  lemma {:induction false} SomeUnflagged(ns: seq<Notification>, flags: seq<bool>, i: nat)
    requires i < |flags| == |ns| && !flags[i]
    ensures Unflagged(ns, flags) != []
  {
    if i < |ns| - 1 { SomeUnflagged(ns[..|ns| - 1], flags[..|ns| - 1], i); }
  }

  lemma {:induction false} AllFlagged(ns: seq<Notification>, flags: seq<bool>)
    requires |flags| == |ns| && forall i :: 0 <= i < |flags| ==> flags[i]
    ensures Unflagged(ns, flags) == []
  {
    if ns != [] { AllFlagged(ns[..|ns| - 1], flags[..|ns| - 1]); }
  }

  /** The expiry of a key of the batch: its old one if it was stored, otherwise the TTL from now, if there is one. */
  lemma {:induction false} StoredUntil(
      ns: seq<Notification>, keys: Keys, now: int, ttl: nat, faults: Faults, key: string)
    requires forall i :: faults(i) == NoFault
    requires exists n :: n in ns && n.Key() == key
    ensures var after := KeysAfter(ns, keys, now, ttl, faults);
      key in after && after[key] == if Live(keys, key, now) then keys[key]
                                    else if ttl == 0 then Expiry.Never else Expiry.At(now + ttl * 1000)
  {
    if Live(keys, key, now) {
      NotRenewed(ns, keys, now, ttl, faults, key);
    } else {
      var before, last := ns[..|ns| - 1], ns[|ns| - 1];
      if exists n :: n in before && n.Key() == key {
        StoredUntil(before, keys, now, ttl, faults, key);
      } else {
        assert last.Key() == key;
        KeysExactly(before, keys, now, ttl, faults, key);
        assert forall j :: 0 <= j < |before| ==> before[j] in before;
      }
    }
  }

  /** When the TTL is over and older keys have expired too, each key of the batch is published again, once. */
  lemma PublishedAgain(ns: seq<Notification>, keys: Keys, now: int, later: int, ttl: nat, faults: Faults, i: nat)
    requires forall j :: faults(j) == NoFault
    requires ttl > 0 && later >= now + 1000 * ttl && (forall n :: n in ns ==> !Live(keys, n.Key(), later))
    requires i < |ns|
    ensures Duplicates(ns, KeysAfter(ns, keys, now, ttl, faults), later, ttl, faults)[i] <==> Earlier(ns, i)
  {
    assert ns[i] in ns;
    StoredUntil(ns, keys, now, ttl, faults, ns[i].Key());
    DroppedExactly(ns, KeysAfter(ns, keys, now, ttl, faults), later, ttl, faults, i);
  }

  /** Filtering goes element by element: it drops what is flagged, keeps the rest, and keeps the order. */
  lemma {:induction false} UnflaggedConcat(a: seq<Notification>, b: seq<Notification>, f: seq<bool>, g: seq<bool>)
    requires |f| == |a| && |g| == |b|
    ensures Unflagged(a + b, f + g) == Unflagged(a, f) + Unflagged(b, g)
    ensures |a| == 1 ==> Unflagged(a, f) == if f == [true] then [] else a
  {
    assert |a| == 1 ==> a[..0] == [] && [a[0]] == a && [] + [a[0]] == a;
    if b == [] {
      assert a + b == a && f + g == f;
    } else {
      var k := |b| - 1;
      UnflaggedConcat(a, b[..k], f, g[..k]);
      assert (a + b)[..|a| + k] == a + b[..k] && (f + g)[..|a| + k] == f + g[..k];
      assert (a + b)[|a| + k] == b[k] && (f + g)[|a| + k] == g[k];
    }
  }

  // ----- Groups --------------------------------------------------------------------------------------------

  /** An object keyed by priority; its entries come in the order in which the keys were first set. */
  datatype Groups = Groups(order: seq<Priority>, items: map<Priority, seq<Notification>>)

  function Added(g: Groups, n: Notification): Groups {
    var p := n.priority;
    if p in g.items then g.(items := g.items[p := g.items[p] + [n]])
    else Groups(g.order + [p], g.items[p := [n]])
  }

  function Grouped(ns: seq<Notification>): Groups {
    if ns == [] then Groups([], map[]) else Added(Grouped(ns[..|ns| - 1]), ns[|ns| - 1])
  }

  function OfPriority(ns: seq<Notification>, p: Priority): seq<Notification> {
    if ns == [] then []
    else if ns[|ns| - 1].priority == p then OfPriority(ns[..|ns| - 1], p) + [ns[|ns| - 1]]
    else OfPriority(ns[..|ns| - 1], p)
  }

  ghost predicate Consistent(g: Groups) {
    && (forall p :: p in g.order <==> p in g.items)
    && (forall i, j :: 0 <= i < j < |g.order| ==> g.order[i] != g.order[j])
  }

  /** Each occurring priority has one group, which holds its notifications in batch order. */
  ghost predicate Partition(g: Groups, ns: seq<Notification>) {
    && Consistent(g)
    && (forall p :: p in g.items ==> g.items[p] == OfPriority(ns, p) != [])
    && (forall p :: p !in g.items ==> OfPriority(ns, p) == [])
  }

  lemma {:induction false} GroupsPartition(ns: seq<Notification>)
    ensures Partition(Grouped(ns), ns)
    ensures Size(Grouped(ns).order, Grouped(ns).items) == |ns|
  {
    if ns != [] {
      var before, n := ns[..|ns| - 1], ns[|ns| - 1];
      GroupsPartition(before);
      var g, r := Grouped(before), Grouped(ns);
      AddedConsistent(g, n);
      AddedItems(g, before, n);
      assert before + [n] == ns;
      AddedSize(g, n, g.order);
      if n.priority !in g.items { assert r.order[..|g.order|] == g.order; }
    }
  }

  lemma AddedConsistent(g: Groups, n: Notification)
    requires Consistent(g)
    ensures Consistent(Added(g, n))
  {
    var r := Added(g, n);
    assert forall p :: p in r.order <==> p in g.order || p == n.priority;
  }

  lemma AddedItems(g: Groups, before: seq<Notification>, n: Notification)
    requires Partition(g, before)
    ensures var r, ns := Added(g, n), before + [n];
      && (forall p :: p in r.items ==> r.items[p] == OfPriority(ns, p) != [])
      && (forall p :: p !in r.items ==> OfPriority(ns, p) == [])
  {
    assert (before + [n])[..|before|] == before;
    assert [] + [n] == [n];
  }

  /** What a group holds goes element by element too. */
  lemma {:induction false} OfPriorityConcat(a: seq<Notification>, b: seq<Notification>, p: Priority)
    ensures OfPriority(a + b, p) == OfPriority(a, p) + OfPriority(b, p)
    ensures |a| == 1 ==> OfPriority(a, p) == if a[0].priority == p then a else []
  {
    assert |a| == 1 ==> a[..0] == [] && [a[0]] == a && [] + [a[0]] == a;
    if b == [] {
      assert a + b == a;
    } else {
      var k := |b| - 1;
      OfPriorityConcat(a, b[..k], p);
      assert (a + b)[..|a| + k] == a + b[..k] && (a + b)[|a| + k] == b[k];
    }
  }

  /** Priority `p` occurs before priority `q` does. */
  ghost predicate OccursFirst(ns: seq<Notification>, p: Priority, q: Priority) {
    exists a :: 0 <= a < |ns| && ns[a].priority == p && forall b :: 0 <= b <= a ==> ns[b].priority != q
  }

  lemma OccursFirstStill(ns: seq<Notification>, n: Notification, p: Priority, q: Priority)
    requires OccursFirst(ns, p, q)
    ensures OccursFirst(ns + [n], p, q)
  {
    var a :| 0 <= a < |ns| && ns[a].priority == p && forall b :: 0 <= b <= a ==> ns[b].priority != q;
    assert (ns + [n])[a] == ns[a];
  }

  ghost predicate InOrder(ns: seq<Notification>, order: seq<Priority>) {
    forall i, j :: 0 <= i < j < |order| ==> OccursFirst(ns, order[i], order[j])
  }

  /** The groups come in the order in which their priorities first occur. */
  lemma {:induction false} GroupsInOrder(ns: seq<Notification>)
    ensures InOrder(ns, Grouped(ns).order)
  {
    if ns != [] {
      var before, n := ns[..|ns| - 1], ns[|ns| - 1];
      GroupsInOrder(before);
      GroupsPartition(before);
      AddedInOrder(before, Grouped(before), n);
      assert ns == before + [n];
    }
  }

  lemma AddedInOrder(before: seq<Notification>, g: Groups, n: Notification)
    requires Partition(g, before) && InOrder(before, g.order)
    ensures InOrder(before + [n], Added(g, n).order)
  {
    var order := Added(g, n).order;
    forall i, j | 0 <= i < j < |order| ensures OccursFirst(before + [n], order[i], order[j]) {
      if j == |g.order| { NewPriorityLast(before, g.order[i], n.priority); }
      OccursFirstStill(before, n, order[i], order[j]);
    }
  }

  lemma NewPriorityLast(ns: seq<Notification>, p: Priority, q: Priority)
    requires OfPriority(ns, p) != [] && OfPriority(ns, q) == []
    ensures OccursFirst(ns, p, q)
  {
    var a := Occurrence(ns, p);
    NoneOfPriority(ns, q);
  }

  lemma {:induction false} Occurrence(ns: seq<Notification>, p: Priority) returns (a: nat)
    requires OfPriority(ns, p) != []
    ensures a < |ns| && ns[a].priority == p
  {
    a := |ns| - 1;
    if ns[a].priority != p { a := Occurrence(ns[..a], p); }
  }

  lemma {:induction false} NoneOfPriority(ns: seq<Notification>, p: Priority)
    requires OfPriority(ns, p) == []
    ensures forall a :: 0 <= a < |ns| ==> ns[a].priority != p
  {
    if ns != [] { NoneOfPriority(ns[..|ns| - 1], p); }
  }

  function Size(order: seq<Priority>, items: map<Priority, seq<Notification>>): nat {
    if order == [] then 0
    else
      var p := order[|order| - 1];
      Size(order[..|order| - 1], items) + if p in items then |items[p]| else 0
  }

  lemma {:induction false} AddedSize(g: Groups, n: Notification, order: seq<Priority>)
    requires forall i, j :: 0 <= i < j < |order| ==> order[i] != order[j]
    requires forall p :: p in order ==> p in g.items
    ensures Size(order, Added(g, n).items) == Size(order, g.items) + if n.priority in order then 1 else 0
  {
    if order != [] {
      var before := order[..|order| - 1];
      AddedSize(g, n, before);
      assert order == before + [order[|order| - 1]];
    }
  }

  // ----- Chunks --------------------------------------------------------------------------------------------

  function Concat(chunks: seq<seq<Notification>>): seq<Notification> {
    if chunks == [] then [] else Concat(chunks[..|chunks| - 1]) + chunks[|chunks| - 1]
  }

  function Chunks(items: seq<Notification>, size: nat): seq<seq<Notification>>
    requires size > 0
  {
    if items == [] then []
    else if |items| <= size then [items]
    else [items[..size]] + Chunks(items[size..], size)
  }

  lemma {:induction false} ConcatFront(first: seq<Notification>, rest: seq<seq<Notification>>)
    ensures Concat([first] + rest) == first + Concat(rest)
  {
    if rest == [] {
      assert [first] + rest == [first] && [first][..0] == [];
    } else {
      var k := |rest| - 1;
      assert ([first] + rest)[..k + 1] == [first] + rest[..k];
      ConcatFront(first, rest[..k]);
    }
  }

  /** The chunks concatenate back, all are full but the last, and none is empty. */
  lemma {:induction false} ChunksExact(items: seq<Notification>, size: nat)
    requires size > 0
    ensures var chunks := Chunks(items, size);
      && Concat(chunks) == items
      && (forall i :: 0 <= i < |chunks| ==> 1 <= |chunks[i]| <= size)
      && (forall i :: 0 <= i < |chunks| - 1 ==> |chunks[i]| == size)
  {
    if |items| > size {
      ChunksExact(items[size..], size);
      ConcatFront(items[..size], Chunks(items[size..], size));
      assert items == items[..size] + items[size..];
    } else if items != [] {
      assert [items][..0] == [];
    }
  }

  /** The chunks that are still to be cut when the loop has come to index `i`. */
  function ChunksFrom(items: seq<Notification>, i: nat, size: nat): seq<seq<Notification>>
    requires size > 0
  {
    if i < |items| then Chunks(items[i..], size) else []
  }

  lemma NextChunk(items: seq<Notification>, i: nat, size: nat, end: nat)
    requires size > 0 && i < |items| && end == if i + size <= |items| then i + size else |items|
    ensures ChunksFrom(items, i, size) == [items[i..end]] + ChunksFrom(items, i + size, size)
  {
    if i + size < |items| {
      assert items[i..][..size] == items[i..end] && items[i..][size..] == items[i + size..];
    } else {
      assert items[i..end] == items[i..];
    }
  }

  method ChunkArray(items: seq<Notification>, chunkSize: nat) returns (chunks: seq<seq<Notification>>)
    requires chunkSize > 0
    ensures chunks == Chunks(items, chunkSize)
  {
    chunks := [];
    var i := 0;
    assert items[0..] == items;
    while i < |items|
      invariant Chunks(items, chunkSize) == chunks + ChunksFrom(items, i, chunkSize)
    {
      var end := if i + chunkSize <= |items| then i + chunkSize else |items|;
      NextChunk(items, i, chunkSize, end);
      chunks := chunks + [items[i..end]];
      i := i + chunkSize;
    }
  }

  // ----- Publishing and counting -----------------------------------------------------------------------------

  /** Chunk `c` of a priority: does the channel open, is its `m`-th message accepted, does it close. */
  datatype Network = Network(
    opens: (Priority, nat) -> bool, accepts: (Priority, nat, nat) -> bool, closes: (Priority, nat) -> bool)

  function Accepted(net: Network, p: Priority, c: nat, size: nat): (n: nat)
    ensures n <= size
  {
    if size == 0 then 0 else Accepted(net, p, c, size - 1) + if net.accepts(p, c, size - 1) then 1 else 0
  }

  /** Sizes of the chunks that were sent but whose channel did not close; they are counted as failed again. */
  function Unclosed(net: Network, p: Priority, chunks: seq<seq<Notification>>): nat {
    if chunks == [] then 0
    else
      var c := |chunks| - 1;
      Unclosed(net, p, chunks[..c]) + if net.opens(p, c) && !net.closes(p, c) then |chunks[c]| else 0
  }

  /** Messages that the broker has accepted. */
  function Delivered(net: Network, p: Priority, chunks: seq<seq<Notification>>): nat {
    if chunks == [] then 0
    else
      var c := |chunks| - 1;
      Delivered(net, p, chunks[..c]) + if net.opens(p, c) then Accepted(net, p, c, |chunks[c]|) else 0
  }

  // The accepted messages as a set of positions, which says what the counting functions count.

  lemma OneMorePlace(net: Network, p: Priority, c: nat, m: nat)
    ensures var before := set i | 0 <= i < m && net.accepts(p, c, i);
      var all := set i | 0 <= i < m + 1 && net.accepts(p, c, i);
      m !in before && all == if net.accepts(p, c, m) then before + {m} else before
  {
  }

  lemma {:induction false} AcceptedCount(net: Network, p: Priority, c: nat, size: nat)
    ensures Accepted(net, p, c, size) == |set m | 0 <= m < size && net.accepts(p, c, m)|
  {
    if size > 0 {
      AcceptedCount(net, p, c, size - 1);
      OneMorePlace(net, p, c, size - 1);
    }
  }

  /** Chunk and place of every message of the group that the broker has accepted. */
  ghost function Positions(net: Network, p: Priority, chunks: seq<seq<Notification>>): set<(int, int)> {
    set c, m | 0 <= c < |chunks| && 0 <= m < |chunks[c]| && net.opens(p, c) && net.accepts(p, c, m) :: (c, m)
  }

  ghost function PositionsInChunk(net: Network, p: Priority, c: int, size: nat): set<(int, int)>
    requires c >= 0
  {
    set m | 0 <= m < size && net.opens(p, c) && net.accepts(p, c, m) :: (c, m)
  }

  lemma OneMorePosition(net: Network, p: Priority, c: nat, m: nat)
    ensures var before := PositionsInChunk(net, p, c, m);
      && (c, m) !in before
      && PositionsInChunk(net, p, c, m + 1) ==
           if net.opens(p, c) && net.accepts(p, c, m) then before + {(c, m)} else before
  {
  }

  lemma {:induction false} ChunkCount(net: Network, p: Priority, c: nat, size: nat)
    ensures |PositionsInChunk(net, p, c, size)| == if net.opens(p, c) then Accepted(net, p, c, size) else 0
  {
    if size == 0 {
      assert PositionsInChunk(net, p, c, size) == {};
    } else {
      ChunkCount(net, p, c, size - 1);
      OneMorePosition(net, p, c, size - 1);
    }
  }

  lemma OneMoreChunk(net: Network, p: Priority, chunks: seq<seq<Notification>>)
    requires chunks != []
    ensures var c := |chunks| - 1;
      && Positions(net, p, chunks) == Positions(net, p, chunks[..c]) + PositionsInChunk(net, p, c, |chunks[c]|)
      && Positions(net, p, chunks[..c]) !! PositionsInChunk(net, p, c, |chunks[c]|)
  {
  }

  lemma {:induction false} DeliveredCount(net: Network, p: Priority, chunks: seq<seq<Notification>>)
    ensures Delivered(net, p, chunks) == |Positions(net, p, chunks)|
  {
    if chunks == [] {
      assert Positions(net, p, chunks) == {};
    } else {
      var c := |chunks| - 1;
      DeliveredCount(net, p, chunks[..c]);
      ChunkCount(net, p, c, |chunks[c]|);
      OneMoreChunk(net, p, chunks);
    }
  }

  /** Priority, chunk and place of every accepted message of a batch. */
  ghost function PositionsIn(net: Network, order: seq<Priority>, items: map<Priority, seq<Notification>>, size: nat)
    : set<(Priority, (int, int))>
    requires size > 0
  {
    set p, cm | p in order && p in items && cm in Positions(net, p, Chunks(items[p], size)) :: (p, cm)
  }

  lemma {:induction false} TaggedCount(p: Priority, cms: set<(int, int)>)
    ensures |set cm | cm in cms :: (p, cm)| == |cms|
  {
    var pairs := set cm | cm in cms :: (p, cm);
    if cm :| cm in cms {
      TaggedCount(p, cms - {cm});
      assert pairs == (set x | x in cms - {cm} :: (p, x)) + {(p, cm)};
    }
  }

  lemma {:induction false} DeliveredInCount(
      net: Network, order: seq<Priority>, items: map<Priority, seq<Notification>>, size: nat)
    requires size > 0 && forall i, j :: 0 <= i < j < |order| ==> order[i] != order[j]
    ensures DeliveredIn(net, order, items, size) == |PositionsIn(net, order, items, size)|
  {
    if order != [] {
      var before, p := order[..|order| - 1], order[|order| - 1];
      DeliveredInCount(net, before, items, size);
      var cms: set<(int, int)> := if p in items then Positions(net, p, Chunks(items[p], size)) else {};
      if p in items { DeliveredCount(net, p, Chunks(items[p], size)); }
      TaggedCount(p, cms);
      var rest, last := PositionsIn(net, before, items, size), set cm | cm in cms :: (p, cm);
      assert forall q :: q in order <==> q in before || q == p;
      assert PositionsIn(net, order, items, size) == rest + last;
      assert p !in before;
      assert rest !! last;
    }
  }

  method PublishChunkToQueue(net: Network, p: Priority, c: nat, chunk: seq<Notification>)
    returns (successful: nat, failed: nat)
    ensures net.opens(p, c) ==> successful == |set m | 0 <= m < |chunk| && net.accepts(p, c, m)|
    ensures successful == if net.opens(p, c) then Accepted(net, p, c, |chunk|) else 0
    ensures successful + failed == |chunk| + if net.opens(p, c) && !net.closes(p, c) then |chunk| else 0
  {
    successful, failed := 0, 0;
    if !net.opens(p, c) {
      return 0, |chunk|;
    }
    var m := 0;
    while m < |chunk|
      invariant 0 <= m <= |chunk| && successful == Accepted(net, p, c, m) && successful + failed == m
    {
      if net.accepts(p, c, m) {
        successful := successful + 1;
      } else {
        failed := failed + 1;
      }
      m := m + 1;
    }
    AcceptedCount(net, p, c, |chunk|);
    if !net.closes(p, c) {
      failed := failed + |chunk|;
    }
  }

  lemma ConcatLength(chunks: seq<seq<Notification>>, k: nat)
    requires k < |chunks|
    ensures |Concat(chunks[..k + 1])| == |Concat(chunks[..k])| + |chunks[k]|
  {
    assert chunks[..k + 1][..k] == chunks[..k];
  }

  method ProcessPriorityGroup(net: Network, p: Priority, items: seq<Notification>, batchSize: nat)
    returns (successful: nat, failed: nat)
    requires batchSize > 0
    ensures successful == |Positions(net, p, Chunks(items, batchSize))|
    ensures successful == Delivered(net, p, Chunks(items, batchSize))
    ensures successful + failed == |items| + Unclosed(net, p, Chunks(items, batchSize))
  {
    successful, failed := 0, 0;
    var parts := ChunkArray(items, batchSize);
    var c := 0;
    while c < |parts|
      invariant 0 <= c <= |parts|
      invariant successful == Delivered(net, p, parts[..c])
      invariant successful + failed == |Concat(parts[..c])| + Unclosed(net, p, parts[..c])
    {
      var s, f := PublishChunkToQueue(net, p, c, parts[c]);
      ConcatLength(parts, c);
      assert parts[..c + 1][..c] == parts[..c];
      successful, failed := successful + s, failed + f;
      c := c + 1;
    }
    assert parts[..c] == parts;
    ChunksExact(items, batchSize);
    DeliveredCount(net, p, parts);
  }

  datatype Report = TooLarge | Report(totalProcessed: nat, successful: nat, failed: nat, duplicates: nat)

  datatype Settings = Settings(batchSize: nat, maxBatchSize: nat, ttl: nat)

  class BatchProcessingService {
    const settings: Settings
    var keys: Keys

    constructor (settings: Settings, keys: Keys)
      ensures this.settings == settings && this.keys == keys
    {
      this.settings, this.keys := settings, keys;
    }

    method ProcessDeduplication(ns: seq<Notification>, now: int, faults: Faults) returns (flags: seq<bool>)
      modifies this`keys
      ensures flags == Duplicates(ns, old(keys), now, settings.ttl, faults)
      ensures keys == KeysAfter(ns, old(keys), now, settings.ttl, faults)
    {
      flags := [];
      var i := 0;
      while i < |ns|
        invariant 0 <= i <= |ns|
        invariant flags == Duplicates(ns[..i], old(keys), now, settings.ttl, faults)
        invariant keys == KeysAfter(ns[..i], old(keys), now, settings.ttl, faults)
      {
        var duplicate := CheckDeduplication(ns[i].Key(), now, faults(i));
        assert ns[..i + 1][..i] == ns[..i];
        flags := flags + [duplicate];
        i := i + 1;
      }
      assert ns[..i] == ns;
    }

    method CheckDeduplication(key: string, now: int, fault: Fault) returns (duplicate: bool)
      modifies this`keys
      ensures var stored := key in old(keys) && (old(keys)[key] == Never || now < old(keys)[key].time);
        && (duplicate <==> !fault.GetFails? && stored)
        && keys == if stored || !fault.NoFault? then old(keys)
                   else old(keys)[key := if settings.ttl == 0 then Never else At(now + settings.ttl * 1000)]
      ensures (duplicate, keys) == Check(old(keys), key, now, settings.ttl, fault)
    {
      if fault == GetFails { return false; }
      if key in keys && (keys[key].Never? || now < keys[key].time) { return true; }
      if fault == SetFails { return false; }
      keys := keys[key := if settings.ttl == 0 then Never else At(now + 1000 * settings.ttl)];
      return false;
    }

    /**
     The counters are exact: what the broker accepted is successful, the rest failed or was a duplicate,
     except that a chunk whose channel fails to close after sending is counted once more as failed.
    */
    method ProcessBatch(ns: seq<Notification>, now: int, faults: Faults, net: Network) returns (r: Report)
      requires settings.batchSize > 0
      modifies this`keys
      ensures r.TooLarge? <==> |ns| > settings.maxBatchSize
      ensures r.TooLarge? ==> keys == old(keys)
      ensures r.Report? ==>
        var left := Unflagged(ns, Duplicates(ns, old(keys), now, settings.ttl, faults));
        var groups := Grouped(left);
        && keys == KeysAfter(ns, old(keys), now, settings.ttl, faults)
        && r.totalProcessed == |ns| && r.duplicates == |ns| - |left|
        && r.successful == |PositionsIn(net, groups.order, groups.items, settings.batchSize)|
        && r.successful == DeliveredIn(net, groups.order, groups.items, settings.batchSize) <= |left|
        && r.successful + r.failed + r.duplicates
           == r.totalProcessed + UnclosedIn(net, groups.order, groups.items, settings.batchSize)
    {
      if |ns| > settings.maxBatchSize { return TooLarge; }
      var flags := ProcessDeduplication(ns, now, faults);
      var unique := FilterUnflagged(ns, flags);
      UnflaggedLength(ns, flags);
      var groups := GroupByPriority(unique);
      GroupsPartition(unique);
      var successful, failed := ProcessGroups(net, groups, settings.batchSize);
      r := Report(|ns|, successful, failed, |ns| - |unique|);
    }
  }

  /** Messages accepted over all groups. */
  function DeliveredIn(net: Network, order: seq<Priority>, items: map<Priority, seq<Notification>>, size: nat): nat
    requires size > 0
  {
    if order == [] then 0
    else
      var p := order[|order| - 1];
      DeliveredIn(net, order[..|order| - 1], items, size)
      + if p in items then Delivered(net, p, Chunks(items[p], size)) else 0
  }

  /** Total size of the chunks, over all groups, that were sent through a channel that did not close. */
  function UnclosedIn(net: Network, order: seq<Priority>, items: map<Priority, seq<Notification>>, size: nat): nat
    requires size > 0
  {
    if order == [] then 0
    else
      var p := order[|order| - 1];
      UnclosedIn(net, order[..|order| - 1], items, size)
      + if p in items then Unclosed(net, p, Chunks(items[p], size)) else 0
  }

  /** When every channel closes, the three counters add up to the batch. */
  lemma {:induction false} AllClosed(
      net: Network, order: seq<Priority>, items: map<Priority, seq<Notification>>, size: nat)
    requires size > 0 && forall p, c :: net.closes(p, c)
    ensures UnclosedIn(net, order, items, size) == 0
  {
    if order != [] {
      AllClosed(net, order[..|order| - 1], items, size);
      var p := order[|order| - 1];
      if p in items { DeliveredAtMost(net, p, Chunks(items[p], size)); }
    }
  }

  /** Every chunk of the group that could be sent was sent through a channel that closed. */
  ghost predicate GroupCloses(net: Network, p: Priority, chunks: seq<seq<Notification>>) {
    forall c :: 0 <= c < |chunks| && net.opens(p, c) ==> net.closes(p, c)
  }

  lemma {:induction false} UnclosedExactly(net: Network, p: Priority, chunks: seq<seq<Notification>>)
    requires forall c :: 0 <= c < |chunks| ==> chunks[c] != []
    ensures Unclosed(net, p, chunks) == 0 <==> GroupCloses(net, p, chunks)
  {
    if chunks != [] { UnclosedExactly(net, p, chunks[..|chunks| - 1]); }
  }

  /** The three counters add up to the batch exactly if each chunk that was sent has had its channel closed. */
  lemma {:induction false} CountersExactly(
      net: Network, order: seq<Priority>, items: map<Priority, seq<Notification>>, size: nat)
    requires size > 0
    ensures UnclosedIn(net, order, items, size) == 0
       <==> forall p :: p in order && p in items ==> GroupCloses(net, p, Chunks(items[p], size))
  {
    if order != [] {
      var before, p := order[..|order| - 1], order[|order| - 1];
      CountersExactly(net, before, items, size);
      assert forall q :: q in order <==> q in before || q == p;
      if p in items {
        ChunksExact(items[p], size);
        UnclosedExactly(net, p, Chunks(items[p], size));
      }
    }
  }

  method ProcessGroups(net: Network, groups: Groups, batchSize: nat) returns (successful: nat, failed: nat)
    requires batchSize > 0 && Consistent(groups)
    ensures successful == |PositionsIn(net, groups.order, groups.items, batchSize)|
    ensures successful == DeliveredIn(net, groups.order, groups.items, batchSize) <= Size(groups.order, groups.items)
    ensures successful + failed
         == Size(groups.order, groups.items) + UnclosedIn(net, groups.order, groups.items, batchSize)
  {
    successful, failed := 0, 0;
    var order, g := groups.order, 0;
    while g < |order|
      invariant 0 <= g <= |order|
      invariant successful == DeliveredIn(net, order[..g], groups.items, batchSize) <= Size(order[..g], groups.items)
      invariant successful + failed
             == Size(order[..g], groups.items) + UnclosedIn(net, order[..g], groups.items, batchSize)
    {
      var items := groups.items[order[g]];
      var s, f := ProcessPriorityGroup(net, order[g], items, batchSize);
      ChunksExact(items, batchSize);
      DeliveredAtMost(net, order[g], Chunks(items, batchSize));
      assert order[..g + 1][..g] == order[..g];
      successful, failed := successful + s, failed + f;
      g := g + 1;
    }
    assert order[..g] == order;
    DeliveredInCount(net, order, groups.items, batchSize);
  }

  lemma {:induction false} DeliveredAtMost(net: Network, p: Priority, chunks: seq<seq<Notification>>)
    ensures Delivered(net, p, chunks) <= |Concat(chunks)|
    ensures (forall q, c :: net.closes(q, c)) ==> Unclosed(net, p, chunks) == 0
  {
    if chunks != [] { DeliveredAtMost(net, p, chunks[..|chunks| - 1]); }
  }

  lemma {:induction false} UnflaggedLength(ns: seq<Notification>, flags: seq<bool>)
    requires |flags| == |ns|
    ensures |Unflagged(ns, flags)| <= |ns|
  {
    if ns != [] { UnflaggedLength(ns[..|ns| - 1], flags[..|ns| - 1]); }
  }

  method FilterUnflagged(ns: seq<Notification>, flags: seq<bool>) returns (r: seq<Notification>)
    requires |flags| == |ns|
    ensures r == Unflagged(ns, flags)
  {
    r := [];
    var i := 0;
    while i < |ns|
      invariant 0 <= i <= |ns| && r == Unflagged(ns[..i], flags[..i])
    {
      assert ns[..i + 1][..i] == ns[..i] && flags[..i + 1][..i] == flags[..i];
      if !flags[i] { r := r + [ns[i]]; }
      i := i + 1;
    }
    assert ns[..i] == ns && flags[..i] == flags;
  }

  method GroupByPriority(ns: seq<Notification>) returns (groups: Groups)
    ensures groups == Grouped(ns)
  {
    groups := Groups([], map[]);
    var i := 0;
    while i < |ns|
      invariant 0 <= i <= |ns| && groups == Grouped(ns[..i])
    {
      assert ns[..i + 1][..i] == ns[..i];
      var p := ns[i].priority;
      if p !in groups.items {
        groups := Groups(groups.order + [p], groups.items[p := []]);
      }
      assert [] + [ns[i]] == [ns[i]];
      groups := groups.(items := groups.items[p := groups.items[p] + [ns[i]]]);
      i := i + 1;
    }
    assert ns[..i] == ns;
  }
}
