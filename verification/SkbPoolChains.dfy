/** The pool of preallocated buffers as the driver has it: entries with next pointers, spliced between
    the pool's list, the chain behind the free list's header, and the receive queue. */
module SkbPoolChains {
  import opened SkbPool

  /** The static skb_free_list; a null pointer is zero. */
  const HEADER: nat := 1

  function Head(nodes: seq<nat>): nat { if nodes == [] then 0 else nodes[0] }

  /** The entry a chain ends with, or the header if there is none. */
  function Last(nodes: seq<nat>): nat { if nodes == [] then HEADER else nodes[|nodes| - 1] }

  function Get(next: map<nat, nat>, e: nat): nat { if e in next then next[e] else 0 }

  /** What follows entry number `i`. */
  function After(nodes: seq<nat>, i: nat): nat { if i + 1 < |nodes| then nodes[i + 1] else 0 }

  /** The next pointers run through `nodes` and end. */
  ghost predicate Linked(next: map<nat, nat>, nodes: seq<nat>) {
    forall i: nat :: i < |nodes| ==> Get(next, nodes[i]) == After(nodes, i)
  }

  lemma LinkedElsewhere(next: map<nat, nat>, nodes: seq<nat>, x: nat, v: nat)
    requires Linked(next, nodes) && x !in nodes
    ensures Linked(next[x := v], nodes)
  {
  }

  /** Pointing the end of one chain to the beginning of another joins them. */
  lemma Joined(next: map<nat, nat>, a: seq<nat>, b: seq<nat>)
    requires Linked(next, a) && Linked(next, b) && a != [] && Last(a) !in b && Last(a) !in a[..|a| - 1]
    ensures Linked(next[Last(a) := Head(b)], a + b)
  {
    assert a + [] == a;
    Redirected(next, a, [], b);
  }

  /** A chain's parts: what hangs at the end of the first is the second. */
  lemma Parts(next: map<nat, nat>, a: seq<nat>, b: seq<nat>)
    requires Linked(next, a + b)
    ensures Linked(next, b) && (a != [] ==> Get(next, Last(a)) == Head(b))
    ensures forall i: nat :: i < |a| - 1 ==> Get(next, a[i]) == a[i + 1]
  {
    var c := a + b;
    forall i: nat | i < |b| ensures Get(next, b[i]) == After(b, i) {
      assert c[|a| + i] == b[i] && After(c, |a| + i) == After(b, i);
    }
    forall i: nat | i < |a| - 1 ensures Get(next, a[i]) == a[i + 1] {
      assert c[i] == a[i] && After(c, i) == a[i + 1];
    }
    if a != [] { assert c[|a| - 1] == Last(a) && After(c, |a| - 1) == Head(b); }
  }

  /** The end of a chain's first part can be pointed elsewhere. */
  lemma Redirected(next: map<nat, nat>, a: seq<nat>, b: seq<nat>, c: seq<nat>)
    requires Linked(next, a + b) && Linked(next, c) && a != [] && Last(a) !in c && Last(a) !in a[..|a| - 1]
    ensures Linked(next[Last(a) := Head(c)], a + c)
  {
    Parts(next, a, b);
    var d, after, n := a + c, next[Last(a) := Head(c)], |a|;
    forall i: nat | i < |d| ensures Get(after, d[i]) == After(d, i) {
      if i < n - 1 {
        assert d[i] == a[..n - 1][i] != Last(a);
      } else if i >= n {
        assert d[i] == c[i - n] && After(d, i) == After(c, i - n);
      }
    }
  }

  lemma Once(m: multiset<nat>, a: seq<nat>, b: seq<nat>, issued: nat)
    requires Distinct(m, issued) && multiset(a) + multiset(b) <= m && a != []
    ensures Last(a) !in b && Last(a) !in a[..|a| - 1] && 1 < Last(a) < issued
  {
    var x := Last(a);
    assert a == a[..|a| - 1] + [x];
    assert multiset(a) == multiset(a[..|a| - 1]) + multiset{x};
    assert x in m && m[x] == 1;
    assert (multiset(a) + multiset(b))[x] <= 1;
    assert x !in multiset(b) && x !in multiset(a[..|a| - 1]);
  }

  lemma NoneIs(m: multiset<nat>, a: seq<nat>, x: nat, issued: nat)
    requires Distinct(m, issued) && multiset(a) <= m && (x <= 1 || x >= issued)
    ensures x !in a
  {
    assert x !in m && x !in multiset(a);
  }

  /** What an entry's buffer holds. */
  function PacketOf(packet: map<nat, seq<int>>, e: nat): seq<int> { if e in packet then packet[e] else [] }

  function Data(packet: map<nat, seq<int>>, nodes: seq<nat>): seq<seq<int>> {
    seq(|nodes|, i requires 0 <= i < |nodes| => PacketOf(packet, nodes[i]))
  }

  lemma DataConcat(packet: map<nat, seq<int>>, a: seq<nat>, b: seq<nat>)
    ensures Data(packet, a + b) == Data(packet, a) + Data(packet, b)
  {
  }

  lemma DataElsewhere(packet: map<nat, seq<int>>, nodes: seq<nat>, e: nat, p: seq<int>)
    requires e !in nodes
    ensures Data(packet[e := p], nodes) == Data(packet, nodes) && Data(packet[e := p], [e]) == [p]
  {
  }

  lemma NotElsewhere(m: multiset<nat>, a: seq<nat>, b: seq<nat>, x: nat, issued: nat)
    requires Distinct(m, issued) && multiset(a) + multiset(b) <= m && x in a
    ensures x !in b && x > 1
  {
    assert x in multiset(a) && x in m;
    assert (multiset(a) + multiset(b))[x] <= 1;
    assert x !in multiset(b);
  }

  lemma Removed(next: map<nat, nat>, nodes: seq<nat>, x: nat)
    requires Linked(next, nodes) && x !in nodes
    ensures Linked(next - {x}, nodes)
  {
  }

  lemma Prefixes<T>(s: seq<T>, i: nat)
    requires i < |s|
    ensures s[..i + 1] == s[..i] + [s[i]]
  {
  }

  lemma TakeOneMore(s: SkbPool.Store, n: nat)
    ensures var (taken, left) := Take(s, n); var p := Pull(left);
            p.free != [] && Take(s, n + 1) == (taken + [p.free[0]], p.(free := p.free[1..]))
  {
  }

  class Pool {
    var next: map<nat, nat>
    var packet: map<nat, seq<int>>
    var poolHead: nat
    var rxqHead: nat
    var count: nat
    var issued: nat
    var handed: seq<seq<int>>
    ghost var pool: seq<nat>
    ghost var free: seq<nat>
    ghost var rxq: seq<nat>

    ghost function Store(): SkbPool.Store
      reads `pool, `free, `issued
    {
      SkbPool.Store(pool, free, issued)
    }

    /** Everything allocated and not yet freed; `used` are the entries a delivery has filled so far. */
    ghost function Live(used: seq<nat>): multiset<nat>
      reads `pool, `free, `rxq
    {
      multiset(used) + multiset(free) + multiset(pool) + multiset(rxq)
    }

    /** The pool's entries are counted; the three chains, none of them cyclic and no two with an entry in common;
        `used` still hangs between the free list's header and what is behind it. */
    ghost predicate Chained(used: seq<nat>)
      reads `next, `poolHead, `rxqHead, `count, `issued, `pool, `free, `rxq
    {
      && count == |pool| && issued > 1 && Distinct(Live(used), issued)
      && Get(next, HEADER) == Head(used + free)
      && Linked(next, used + free)
      && poolHead == Head(pool) && Linked(next, pool)
      && rxqHead == Head(rxq) && Linked(next, rxq)
    }

    ghost predicate Valid()
      reads `next, `poolHead, `rxqHead, `count, `issued, `pool, `free, `rxq
    {
      Chained([])
    }

    constructor ()
      ensures Valid() && Store() == SkbPool.Store([], [], 2) && rxq == [] && handed == [] && count == 0
    {
      next, packet, poolHead, rxqHead, count, issued, handed := map[HEADER := 0], map[], 0, 0, 0, 2, [];
      pool, free, rxq := [], [], [];
    }

    /** The entry allocated next is on no chain. */
    lemma NotIssued(used: seq<nat>)
      requires Distinct(Live(used), issued)
      ensures issued !in used + free && issued !in pool && issued !in rxq
    {
      hide Distinct;
      NoneIs(Live(used), used, issued, issued);
      NoneIs(Live(used), free, issued, issued);
      NoneIs(Live(used), pool, issued, issued);
      NoneIs(Live(used), rxq, issued, issued);
    }

    /** skbpool_entry_alloc, succeeding. */
    method EntryAlloc(ghost used: seq<nat>) returns (e: nat)
      requires Chained(used)
      modifies `next, `issued
      ensures Chained(used) && (used == [] ==> Valid()) && e == old(issued) && issued == e + 1
      ensures next == old(next)[e := 0]
    {
      hide Linked, Distinct;
      e := issued;
      MoreIssued(Live(used), issued);
      NotIssued(used);
      LinkedElsewhere(next, used + free, e, 0);
      LinkedElsewhere(next, pool, e, 0);
      LinkedElsewhere(next, rxq, e, 0);
      next := next[e := 0];
      issued := issued + 1;
    }

    /** `entry` gets a chain to follow it. */
    method Link(entry: nat, e: nat, ghost used: seq<nat>, ghost chain: seq<nat>)
      requires Chained(used) && free == [] && entry == Last(used) && chain != [] && e == chain[0] && Linked(next, chain)
      requires Distinct(Live(used) + multiset(chain), issued)
      modifies `next, `free
      ensures Chained(used) && free == chain
    {
      hide Linked, Distinct;
      ghost var all := Live(used) + multiset(chain);
      if used == [] {
        NoneIs(all, chain, HEADER, issued);
        NoneIs(all, pool, HEADER, issued);
        NoneIs(all, rxq, HEADER, issued);
        LinkedElsewhere(next, chain, HEADER, Head(chain));
        assert used + chain == chain;
      } else {
        Once(all, used, chain, issued);
        Once(all, used, pool, issued);
        Once(all, used, rxq, issued);
        Redirected(next, used, free, chain);
        assert (used + chain)[0] == (used + free)[0];
      }
      LinkedElsewhere(next, pool, entry, Head(chain));
      LinkedElsewhere(next, rxq, entry, Head(chain));
      next := next[entry := e];
      free := chain;
      assert Live(used) == all;
    }

    /** The whole pool, or if there is nothing in it one new entry. */
    method Grab(ghost used: seq<nat>) returns (e: nat, ghost chain: seq<nat>)
      requires Chained(used)
      modifies `next, `poolHead, `count, `issued, `pool
      ensures Chained(used)
      ensures pool == [] && chain != [] && e == chain[0]
      ensures Linked(next, chain)
      ensures chain == (if old(pool) != [] then old(pool) else [old(issued)])
      ensures issued == (if old(pool) != [] then old(issued) else old(issued) + 1)
      ensures Distinct(Live(used) + multiset(chain), issued)
    {
      AllReal(used);
      assert pool != [] ==> pool[0] in pool;
      e := poolHead;
      chain := pool;
      poolHead := 0;
      pool := [];
      assert Live(used) + multiset(chain) == old(Live(used));
      hide Distinct;
      PartDistinct(Live(used), multiset(chain), issued);
      if e != 0 {
        count := 0;
      } else {
        e := EntryAlloc(used);
        chain := [e];
        OneMore(Live(used), e);
      }
    }

    /** skbpool_alloc: the entry after `entry`, fetching the whole pool, or allocating one, if there is none. */
    method SkbpoolAlloc(entry: nat, ghost used: seq<nat>) returns (e: nat)
      requires Chained(used) && entry == Last(used)
      modifies `next, `poolHead, `count, `issued, `pool, `free
      ensures Chained(used) && Store() == Pull(old(Store())) && free != [] && e == free[0]
    {
      AllReal(used);
      assert free != [] ==> free[0] in free;
      Parts(next, used, free);
      assert [] + free == free;
      hide Linked, Distinct;
      if Get(next, entry) == 0 {
        ghost var chain;
        e, chain := Grab(used);
        Link(entry, e, used, chain);
      } else {
        e := Get(next, entry);
      }
    }

    /** The inner loop of skbpool_worker: a batch, each new entry in front of the last. */
    method FillBatch(batch: nat) returns (head: nat, tail: nat, ghost b: seq<nat>)
      requires Valid()
      modifies `next, `issued
      ensures Valid() && Linked(next, b) && Distinct(Live([]) + multiset(b), issued)
      ensures b == NewEntries(old(issued), batch) && issued == old(issued) + batch
      ensures head == Head(b) && (b != [] ==> tail == Last(b)) && (head == 0 <==> batch == 0)
    {
      head, tail, b := 0, 0, [];
      assert Live([]) + multiset(b) == Live([]);
      hide Linked, Distinct, Valid;
      for nr := 0 to batch
        invariant Valid() && Linked(next, b) && Distinct(Live([]) + multiset(b), issued)
        invariant b == NewEntries(old(issued), nr) && issued == old(issued) + nr
        invariant head == Head(b) && (b != [] ==> tail == Last(b))
      {
        head, tail, b := FillOne(head, tail, b, old(issued), nr);
      }
      RealHead(Live([]) + multiset(b), b, issued);
    }

    method FillOne(head: nat, tail: nat, ghost b: seq<nat>, ghost first: nat, ghost nr: nat)
      returns (entry: nat, tail': nat, ghost longer: seq<nat>)
      requires Valid() && Linked(next, b) && Distinct(Live([]) + multiset(b), issued)
      requires b == NewEntries(first, nr) && issued == first + nr && head == Head(b) && (b != [] ==> tail == Last(b))
      modifies `next, `issued
      ensures Valid() && Linked(next, longer) && Distinct(Live([]) + multiset(longer), issued)
      ensures longer == NewEntries(first, nr + 1) && issued == old(issued) + 1
      ensures entry == Head(longer) && tail' == Last(longer)
    {
      hide Linked, Distinct, Valid;
      ghost var all := Live([]) + multiset(b);
      AllocBeside(b);
      IssuedReal();
      OneMore(all, issued);
      entry := EntryAlloc([]);
      InFront(entry, head, b);
      tail' := if head != 0 then tail else entry;
      longer := [entry] + b;
      RealHead(all, b, entry);
      assert Live([]) + multiset(longer) == all + multiset([entry]);
    }

    lemma IssuedReal()
      requires Valid()
      ensures issued > 1 && Chained([])
    {
    }

    lemma AllocBeside(b: seq<nat>)
      requires Valid() && Linked(next, b) && Distinct(Live([]) + multiset(b), issued)
      ensures Linked(next[issued := 0], b)
    {
      NoneIs(Live([]) + multiset(b), b, issued, issued);
      LinkedElsewhere(next, b, issued, 0);
    }

    method InFront(entry: nat, head: nat, ghost b: seq<nat>)
      requires Valid() && Linked(next, b) && entry == issued - 1 && Get(next, entry) == 0 && head == Head(b)
      requires Distinct(Live([]) + multiset(b), entry)
      modifies `next
      ensures Valid() && Linked(next, [entry] + b)
    {
      hide Linked, Distinct;
      RealHead(Live([]) + multiset(b), b, entry);
      if head != 0 {
        AheadOf(entry, b);
        next := next[entry := head];
      } else {
        LinkedAlone(next, entry);
      }
    }

    /** A new entry in front of a chain touches no other. */
    lemma AheadOf(entry: nat, b: seq<nat>)
      requires Valid() && Linked(next, b) && entry == issued - 1 && Get(next, entry) == 0
      requires b != [] && Distinct(Live([]) + multiset(b), entry)
      ensures var n := next[entry := b[0]];
              && Linked(n, [entry] + b) && Linked(n, [] + free) && Linked(n, pool) && Linked(n, rxq)
              && Get(n, HEADER) == Get(next, HEADER)
    {
      var all := Live([]) + multiset(b);
      NoneIs(all, b, entry, entry);
      NoneIs(all, [] + free, entry, entry);
      NoneIs(all, pool, entry, entry);
      NoneIs(all, rxq, entry, entry);
      Joined(next, [entry], b);
      LinkedElsewhere(next, [] + free, entry, b[0]);
      LinkedElsewhere(next, pool, entry, b[0]);
      LinkedElsewhere(next, rxq, entry, b[0]);
    }

    /** skbpool_worker */
    method SkbpoolWorker(min: nat, batch: nat)
      requires Valid()
      modifies this
      ensures Valid() && (Store(), count) == FillTo(old(Store()), old(count), min, batch)
      ensures batch > 0 ==> |pool| >= min
      ensures rxq == old(rxq) && packet == old(packet) && handed == old(handed)
    {
      hide Linked, Distinct, Valid, NewEntries;
      while count < min
        invariant Valid() && FillTo(Store(), count, min, batch) == FillTo(old(Store()), old(count), min, batch)
        invariant rxq == old(rxq) && packet == old(packet) && handed == old(handed)
        decreases min - count
      {
        ghost var before := Store();
        ghost var b;
        var head, tail;
        head, tail, b := FillBatch(batch);
        if head == 0 { return; }
        AddToPool(head, tail, batch, b);
        assert Store() == Refilled(before, batch);
      }
      Counted();
    }

    lemma Counted()
      requires Valid()
      ensures count == |pool|
    {
      hide Linked, Distinct;
    }

    /** skbpool_add_batch on the pool's list, with the counter. */
    method AddToPool(first: nat, last: nat, nr: nat, ghost b: seq<nat>)
      requires Valid() && Linked(next, b) && b != [] && first == Head(b) && last == Last(b) && |b| == nr
      requires Distinct(Live([]) + multiset(b), issued)
      modifies `next, `poolHead, `count, `pool
      ensures Valid() && pool == b + old(pool) && count == old(count) + nr
    {
      hide Linked, Distinct;
      ghost var all := Live([]) + multiset(b);
      Once(all, b, pool, issued);
      Once(all, b, [] + free, issued);
      Once(all, b, rxq, issued);
      Joined(next, b, pool);
      LinkedElsewhere(next, [] + free, last, poolHead);
      LinkedElsewhere(next, rxq, last, poolHead);
      next := next[last := poolHead];
      poolHead := first;
      count := count + nr;
      pool := b + pool;
      assert Live([]) == all;
    }

    /** The loop of deliver_packets over the packets of acceptable length. */
    method FillAll(packets: seq<seq<int>>) returns (first: nat, last: nat, ghost taken: seq<nat>)
      requires Valid()
      modifies `next, `packet, `poolHead, `count, `issued, `pool, `free
      ensures Chained(taken) && (taken, Store()) == Take(old(Store()), |packets|)
      ensures first == Head(taken) && (first == 0 <==> taken == []) && (taken != [] ==> last == Last(taken))
      ensures Data(packet, taken) == packets && Data(packet, rxq) == old(Data(packet, rxq))
    {
      hide Distinct, Linked, Chained, Take, Data, Pull;
      StartDelivery();
      first, last, taken := 0, 0, [];
      var entry := HEADER;
      var i := 0;
      while i < |packets|
        invariant i <= |packets| && Chained(taken) && (taken, Store()) == Take(old(Store()), i)
        invariant entry == Last(taken) && first == Head(taken) && (first == 0 <==> taken == [])
        invariant taken != [] ==> last == Last(taken)
        invariant Data(packet, taken) == packets[..i] && Data(packet, rxq) == old(Data(packet, rxq))
      {
        entry := FillNext(entry, packets[i], taken);
        TakeOneMore(old(Store()), i);
        taken := taken + [entry];
        if first == 0 { first := entry; }
        last := entry;
        Prefixes(packets, i);
        i := i + 1;
      }
      assert packets[..i] == packets;
    }

    /** deliver_packets: afterwards the free list's header is left with what hangs behind the last entry
        used, and the entries up to that one are in the receive queue as one batch. */
    method Deliver(packets: seq<seq<int>>)
      requires Valid()
      modifies this
      ensures Valid() && handed == old(handed)
      ensures var (taken, left) := Take(old(Store()), |packets|); Store() == left && rxq == taken + old(rxq)
      ensures Data(packet, rxq) == packets + old(Data(packet, rxq))
    {
      hide Distinct, Linked, Take, Data;
      ghost var taken;
      var first, last;
      first, last, taken := FillAll(packets);
      if first != 0 {
        Enqueue(first, last, taken);
      }
      DataConcat(packet, taken, old(rxq));
    }

    lemma StartDelivery()
      requires Valid()
      ensures Chained([]) && ([], Store()) == Take(Store(), 0) && Data(packet, []) == []
    {
    }

    /** One packet: an entry for it, and its bytes copied. */
    method FillNext(entry: nat, p: seq<int>, ghost taken: seq<nat>) returns (e: nat)
      requires Chained(taken) && entry == Last(taken)
      modifies `next, `packet, `poolHead, `count, `issued, `pool, `free
      ensures Chained(taken + [e]) && e > 1 && Pull(old(Store())).free != []
      ensures var s := Pull(old(Store())); e == s.free[0] && Store() == s.(free := s.free[1..])
      ensures Data(packet, taken + [e]) == old(Data(packet, taken)) + [p] && Data(packet, rxq) == old(Data(packet, rxq))
    {
      hide Linked, Distinct, Data, Pull, Chained;
      e := SkbpoolAlloc(entry, taken);
      FirstIsUnused(taken, e);
      DataElsewhere(packet, taken, e, p);
      DataElsewhere(packet, rxq, e, p);
      packet := packet[e := p];
      DataConcat(packet, taken, [e]);
      UseFirst(taken);
    }

    lemma FirstIsUnused(taken: seq<nat>, e: nat)
      requires Chained(taken) && free != [] && e == free[0]
      ensures e !in taken && e !in rxq && e > 1
    {
      assert e in free;
      NotElsewhere(Live(taken), free, taken, e, issued);
      NotElsewhere(Live(taken), free, rxq, e, issued);
    }

    /** The entry handed out is now one of those used. */
    ghost method UseFirst(taken: seq<nat>)
      requires Chained(taken) && free != []
      modifies `free
      ensures Chained(taken + [old(free[0])]) && free == old(free[1..])
    {
      hide Linked, Distinct;
      var e, all := free[0], Live(taken);
      assert free == [e] + free[1..];
      assert taken + free == (taken + [e]) + free[1..];
      MovesOver(taken, e, free[1..], multiset(pool), multiset(rxq));
      free := free[1..];
      assert Live(taken + [e]) == all;
    }

    /** What follows the loop. */
    method Enqueue(first: nat, last: nat, ghost taken: seq<nat>)
      requires Chained(taken) && taken != [] && first == Head(taken) && last == Last(taken)
      modifies `next, `rxqHead, `rxq
      ensures Valid() && rxq == taken + old(rxq)
    {
      hide Linked, Distinct;
      ghost var all := Live(taken);
      EnqueueLinks(taken);
      next := next[HEADER := Get(next, last)];
      next := next[last := rxqHead];
      rxqHead := first;
      rxq := taken + rxq;
      assert Live([]) == all;
      assert [] + free == free;
    }

    /** nf10_lbuf_rx_worker: everything queued goes up, and then the entries are freed. */
    method RxWorker()
      requires Valid()
      modifies this
      ensures Valid() && Store() == old(Store()) && rxq == []
      ensures handed == old(handed) + old(Data(packet, rxq)) && count == old(count)
    {
      hide Data;
      var entry := rxqHead;
      ghost var q := rxq;
      TakenQueue();
      rxqHead := 0;
      rxq := [];
      hide Linked, Distinct;
      HandUp(entry, q);
      FreeAll(entry, q);
    }

    lemma TakenQueue()
      requires Valid()
      ensures Linked(next, rxq) && rxqHead == Head(rxq) && Linked(next, []) && issued > 1
      ensures Distinct(multiset(rxq) + (multiset(free) + multiset(pool)), issued)
      ensures Distinct(multiset([]) + multiset(free) + multiset(pool) + multiset([]), issued)
      ensures Get(next, HEADER) == Head([] + free) && Linked(next, [] + free)
      ensures poolHead == Head(pool) && Linked(next, pool)
    {
      var m := multiset(rxq) + (multiset(free) + multiset(pool));
      assert m == Live([]);
      PartDistinct(multiset(free) + multiset(pool), multiset(rxq), issued) by {
        assert (multiset(free) + multiset(pool)) + multiset(rxq) == m;
      }
      assert multiset([]) + multiset(free) + multiset(pool) + multiset([]) == multiset(free) + multiset(pool);
    }

    method HandUp(entry: nat, ghost q: seq<nat>)
      requires Linked(next, q) && entry == Head(q) && Distinct(multiset(q) + (multiset(free) + multiset(pool)), issued)
      modifies `handed
      ensures handed == old(handed) + Data(packet, q)
    {
      var p := entry;
      ghost var i := 0;
      NoNull(q);
      assert q[..0] == [] && Data(packet, []) == [];
      while p != 0
        invariant i <= |q| && p == (if i < |q| then q[i] else 0)
        invariant handed == old(handed) + Data(packet, q[..i])
        decreases |q| - i
      {
        Prefixes(q, i);
        DataConcat(packet, q[..i], [q[i]]);
        assert Data(packet, [q[i]]) == [PacketOf(packet, p)];
        handed := handed + [PacketOf(packet, p)];
        assert Get(next, q[i]) == After(q, i);
        p := Get(next, p);
        i := i + 1;
      }
      assert q[..i] == q;
    }

    lemma NoNull(q: seq<nat>)
      requires Distinct(multiset(q) + (multiset(free) + multiset(pool)), issued)
      ensures forall i :: 0 <= i < |q| ==> q[i] > 1
    {
      forall i | 0 <= i < |q| ensures q[i] > 1 {
        assert q[i] in multiset(q) + (multiset(free) + multiset(pool));
      }
    }

    /** Each entry's follower is read before the entry is freed. */
    method FreeAll(entry: nat, ghost q: seq<nat>)
      requires Valid() && Linked(next, q) && entry == Head(q) && rxq == []
      requires Distinct(multiset(q) + (multiset(free) + multiset(pool)), issued)
      modifies `next, `packet
      ensures Valid()
    {
      var p := entry;
      ghost var rest := q;
      while p != 0
        invariant Valid() && Linked(next, rest) && p == Head(rest)
        invariant Distinct(multiset(rest) + (multiset(free) + multiset(pool)), issued)
        decreases |rest|
      {
        var follower := Get(next, p);
        FreeOne(rest);
        next := next - {p};
        packet := packet - {p};
        rest := rest[1..];
        p := follower;
      }
    }

    lemma FreeOne(rest: seq<nat>)
      requires Valid() && Linked(next, rest) && rest != [] && rxq == []
      requires Distinct(multiset(rest) + (multiset(free) + multiset(pool)), issued)
      ensures var n := next - {rest[0]};
              && Get(next, rest[0]) == Head(rest[1..]) && Linked(n, rest[1..]) && Get(n, HEADER) == Get(next, HEADER)
              && Linked(n, [] + free) && Linked(n, pool) && Linked(n, rxq)
              && Distinct(multiset(rest[1..]) + (multiset(free) + multiset(pool)), issued)
    {
      var x, m := rest[0], multiset(rest) + (multiset(free) + multiset(pool));
      assert rest == [x] + rest[1..];
      Parts(next, [x], rest[1..]);
      assert multiset(rest) == multiset([x]) + multiset(rest[1..]);
      assert m == (multiset(rest[1..]) + (multiset(free) + multiset(pool))) + multiset([x]);
      PartDistinct(multiset(rest[1..]) + (multiset(free) + multiset(pool)), multiset([x]), issued);
      NotElsewhere(m, [x], rest[1..], x, issued);
      NotElsewhere(m, [x], free, x, issued);
      NotElsewhere(m, [x], pool, x, issued);
      Removed(next, rest[1..], x);
      Removed(next, [] + free, x);
      Removed(next, pool, x);
    }

    lemma EnqueueLinks(taken: seq<nat>)
      requires Chained(taken) && taken != []
      ensures var last := Last(taken); var n := next[HEADER := Get(next, last)][last := rxqHead];
              && Linked(n, taken + rxq) && Linked(n, free) && Linked(n, pool) && Get(n, HEADER) == Head(free)
    {
      var all, last := Live(taken), Last(taken);
      Parts(next, taken, free);
      var n := next[HEADER := Head(free)];
      NoneIs(all, taken + free, HEADER, issued);
      NoneIs(all, free, HEADER, issued);
      NoneIs(all, pool, HEADER, issued);
      NoneIs(all, rxq, HEADER, issued);
      LinkedElsewhere(next, taken + free, HEADER, Head(free));
      LinkedElsewhere(next, free, HEADER, Head(free));
      LinkedElsewhere(next, pool, HEADER, Head(free));
      LinkedElsewhere(next, rxq, HEADER, Head(free));
      Once(all, taken, rxq, issued);
      Once(all, taken, free, issued);
      Once(all, taken, pool, issued);
      Redirected(n, taken, free, rxq);
      LinkedElsewhere(n, free, last, rxqHead);
      LinkedElsewhere(n, pool, last, rxqHead);
    }

    /** No entry of any chain is a null pointer. */
    lemma AllReal(used: seq<nat>)
      requires Chained(used)
      ensures forall x :: x in pool || x in free || x in rxq ==> x > 1
    {
      forall x | x in pool || x in free || x in rxq ensures x > 1 {
        assert x in Live(used);
      }
    }
  }

  lemma LinkedAlone(next: map<nat, nat>, e: nat)
    requires Get(next, e) == 0
    ensures Linked(next, [e] + [])
  {
  }

  lemma RealHead(m: multiset<nat>, b: seq<nat>, issued: nat)
    requires Distinct(m, issued) && multiset(b) <= m
    ensures Head(b) == 0 <==> b == []
  {
    if b != [] { assert b[0] in multiset(b) && b[0] in m; }
  }

  lemma MovesOver(a: seq<nat>, e: nat, b: seq<nat>, c: multiset<nat>, d: multiset<nat>)
    ensures multiset(a + [e]) + multiset(b) + c + d == multiset(a) + multiset([e] + b) + c + d
  {
  }

  lemma MoreIssued(m: multiset<nat>, issued: nat)
    requires Distinct(m, issued)
    ensures Distinct(m, issued + 1)
  {
  }

  lemma OneMore(m: multiset<nat>, e: nat)
    requires Distinct(m, e) && e > 1
    ensures Distinct(m + multiset([e]), e + 1)
  {
    assert e !in m;
  }

  lemma PartDistinct(a: multiset<nat>, b: multiset<nat>, issued: nat)
    requires Distinct(a + b, issued)
    ensures Distinct(a, issued)
  {
    forall x | x in a ensures a[x] == 1 && 1 < x < issued {
      assert x in a + b;
    }
  }

  /** A delivery on the chains is the delivery on the lists: the queue's chain is its batches, latest first. */
  lemma DeliveryIsStep(l: Lists, packets: seq<seq<int>>, rxq: seq<nat>)
    requires Entries(LatestFirst(l.queue)) == rxq
    ensures var n := Step(l, SkbPool.Deliver(packets)); var (taken, left) := Take(l.s, |packets|);
            n.s == left && Entries(LatestFirst(n.queue)) == taken + rxq
  {
    var (taken, left) := Take(l.s, |packets|);
    if packets != [] {
      var batch := Filled(taken, packets);
      assert (l.queue + [batch])[..|l.queue|] == l.queue;
      EntriesConcat(batch, LatestFirst(l.queue));
      assert Entries(batch) == taken;
    }
  }
}
