/** The pool of preallocated buffers, as values: which buffers wait in the pool, behind the driver's free
    list, and in the receive queue, and which have been handed up. */
module SkbPool {
  /** A filled buffer: the pool entry and the packet in it. */
  datatype Skb = Skb(entry: nat, packet: seq<int>)

  /** The pool, the chain behind the free list's header, and the next entry the allocator gives out. */
  datatype Store = Store(pool: seq<nat>, free: seq<nat>, issued: nat)

  /** skbpool_alloc with nothing left behind the current entry takes the whole pool, or one new entry. */
  function Pull(s: Store): Store {
    if s.free != [] then s
    else if s.pool != [] then s.(pool := [], free := s.pool)
    else s.(free := [s.issued], issued := s.issued + 1)
  }

  /** Entries for `n` packets, and what is left. */
  function Take(s: Store, n: nat): (r: (seq<nat>, Store))
    ensures |r.0| == n
  {
    if n == 0 then ([], s)
    else
      var (taken, left) := Take(s, n - 1);
      var p := Pull(left);
      (taken + [p.free[0]], p.(free := p.free[1..]))
  }

  /** The entries of a batch as they are chained: each new one is put in front. */
  function NewEntries(issued: nat, n: nat): (b: seq<nat>)
    ensures |b| == n && forall i :: 0 <= i < n ==> b[i] == issued + n - 1 - i
  {
    if n == 0 then [] else [issued + n - 1] + NewEntries(issued, n - 1)
  }

  function Refilled(s: Store, n: nat): Store { s.(pool := NewEntries(s.issued, n) + s.pool, issued := s.issued + n) }

  /** skbpool_worker: batches until there are enough; nothing if the batches are empty. */
  function FillTo(s: Store, count: nat, min: nat, batch: nat): (r: (Store, nat))
    ensures count >= min || batch == 0 ==> r == (s, count)
    ensures count < min && batch > 0 ==> min <= r.1 < min + batch
    ensures |r.0.pool| + count == |s.pool| + r.1
    decreases min - count
  {
    if count < min && batch > 0 then FillTo(Refilled(s, batch), count + batch, min, batch) else (s, count)
  }

  function Filled(entries: seq<nat>, packets: seq<seq<int>>): seq<Skb>
    requires |entries| == |packets|
  {
    seq(|entries|, i requires 0 <= i < |entries| => Skb(entries[i], packets[i]))
  }

  function Flat<T>(bs: seq<seq<T>>): seq<T> { if bs == [] then [] else Flat(bs[..|bs| - 1]) + bs[|bs| - 1] }

  /** A lock-free list takes batches at its head, so it gives the latest batch first. */
  function LatestFirst<T>(bs: seq<seq<T>>): seq<T> {
    if bs == [] then [] else bs[|bs| - 1] + LatestFirst(bs[..|bs| - 1])
  }

  // ----- runs --------------------------------------------------------------------------------

  /** `queue` holds the batches in the receive queue, oldest first. */
  datatype Lists = Lists(s: Store, queue: seq<seq<Skb>>, delivered: seq<Skb>, handed: seq<Skb>)

  datatype Action =
    | Refill(n: nat)
    | Deliver(packets: seq<seq<int>>)
    | Work

  function Init(): Lists { Lists(Store([], [], 2), [], [], []) }

  function Step(l: Lists, a: Action): Lists {
    match a
    case Refill(n) => l.(s := Refilled(l.s, n))
    case Deliver(packets) =>
      var (taken, left) := Take(l.s, |packets|);
      if packets == [] then l
      else l.(s := left, queue := l.queue + [Filled(taken, packets)], delivered := l.delivered + Filled(taken, packets))
    case Work => l.(handed := l.handed + LatestFirst(l.queue), queue := [])
  }

  function Run(acts: seq<Action>): Lists
    decreases |acts|
  {
    if acts == [] then Init() else Step(Run(acts[..|acts| - 1]), acts[|acts| - 1])
  }

  // ----- every entry is in one place, every filled buffer handed up once ---------------------

  function Entries(skbs: seq<Skb>): seq<nat> { seq(|skbs|, i requires 0 <= i < |skbs| => skbs[i].entry) }

  function Stored(s: Store): multiset<nat> { multiset(s.pool) + multiset(s.free) }

  /** Distinct entries, all given out before. */
  ghost predicate Distinct(m: multiset<nat>, issued: nat) { forall x :: x in m ==> m[x] == 1 && 1 < x < issued }

  lemma FirstOut(s: seq<nat>)
    requires s != []
    ensures multiset(s) == multiset{s[0]} + multiset(s[1..])
  {
    assert s == [s[0]] + s[1..];
  }

  lemma PullKeeps(s: Store, others: multiset<nat>)
    requires Distinct(others + Stored(s), s.issued) && s.issued > 1
    ensures var p := Pull(s); p.free != [] && p.issued > 1 && Distinct(others + Stored(p), p.issued)
  {
    var p := Pull(s);
    if s.free == [] && s.pool == [] {
      assert others + Stored(s) == others;
      assert others + Stored(p) == others + multiset{s.issued};
      assert s.issued !in others;
    } else {
      assert Stored(p) == Stored(s);
    }
  }

  lemma {:induction false} TakeKeeps(s: Store, n: nat, others: multiset<nat>)
    requires Distinct(others + Stored(s), s.issued) && s.issued > 1
    ensures var (taken, left) := Take(s, n);
            left.issued > 1 && Distinct(others + multiset(taken) + Stored(left), left.issued)
    decreases n
  {
    if n == 0 {
      assert others + multiset([]) == others;
    } else {
      TakeKeeps(s, n - 1, others);
      var (taken, left) := Take(s, n - 1);
      PullKeeps(left, others + multiset(taken));
      var p := Pull(left);
      FirstOut(p.free);
      assert others + multiset(taken + [p.free[0]]) + (multiset(p.pool) + multiset(p.free[1..]))
          == others + multiset(taken) + Stored(p);
    }
  }

  lemma {:induction false} NewEntriesDistinct(issued: nat, n: nat, others: multiset<nat>)
    requires Distinct(others, issued) && issued > 1
    ensures Distinct(multiset(NewEntries(issued, n)) + others, issued + n)
    decreases n
  {
    if n == 0 {
      assert multiset(NewEntries(issued, 0)) + others == others;
    } else {
      NewEntriesDistinct(issued, n - 1, others);
      var rest := multiset(NewEntries(issued, n - 1)) + others;
      assert multiset(NewEntries(issued, n)) + others == multiset{issued + n - 1} + rest;
      assert issued + n - 1 !in rest;
    }
  }

  ghost predicate Inv(l: Lists) {
    && l.s.issued > 1
    && Distinct(multiset(Entries(l.delivered)) + Stored(l.s), l.s.issued)
    && multiset(l.handed) + multiset(Flat(l.queue)) == multiset(l.delivered)
    && forall i :: 0 <= i < |l.queue| ==> l.queue[i] != []
  }

  lemma {:induction false} SameSkbs<T>(bs: seq<seq<T>>)
    ensures multiset(LatestFirst(bs)) == multiset(Flat(bs))
    decreases |bs|
  {
    if bs != [] {
      SameSkbs(bs[..|bs| - 1]);
    }
  }

  lemma EntriesConcat(a: seq<Skb>, b: seq<Skb>)
    ensures Entries(a + b) == Entries(a) + Entries(b)
  {
  }

  lemma DeliverKeeps(l: Lists, packets: seq<seq<int>>)
    requires Inv(l) && packets != []
    ensures Inv(Step(l, Deliver(packets)))
  {
    var (taken, left) := Take(l.s, |packets|);
    TakeKeeps(l.s, |packets|, multiset(Entries(l.delivered)));
    var batch := Filled(taken, packets);
    EntriesConcat(l.delivered, batch);
    assert Entries(batch) == taken;
    assert (l.queue + [batch])[..|l.queue|] == l.queue;
    hide Distinct, Take, Entries, Filled;
    assert multiset(Entries(l.delivered + batch)) == multiset(Entries(l.delivered)) + multiset(taken);
  }

  lemma RefillKeeps(l: Lists, n: nat)
    requires Inv(l)
    ensures Inv(Step(l, Refill(n)))
  {
    var d := multiset(Entries(l.delivered));
    NewEntriesDistinct(l.s.issued, n, d + Stored(l.s));
    var b := NewEntries(l.s.issued, n);
    assert d + (multiset(b + l.s.pool) + multiset(l.s.free)) == multiset(b) + (d + Stored(l.s));
    hide Distinct, NewEntries, Entries;
  }

  lemma StepKeeps(l: Lists, a: Action)
    requires Inv(l)
    ensures Inv(Step(l, a))
  {
    match a {
      case Refill(n) => RefillKeeps(l, n);
      case Deliver(packets) => if packets != [] { DeliverKeeps(l, packets); }
      case Work =>
        SameSkbs(l.queue);
        hide Distinct, LatestFirst;
    }
  }

  lemma {:induction false} RunKeeps(acts: seq<Action>)
    ensures Inv(Run(acts))
    decreases |acts|
  {
    hide Step;
    if acts != [] {
      RunKeeps(acts[..|acts| - 1]);
      StepKeeps(Run(acts[..|acts| - 1]), acts[|acts| - 1]);
    }
  }

  /** In every run each filled buffer is handed up exactly once or still queued; no buffer is filled twice;
      and every entry is in one place only. */
  lemma HandedUpOnce(acts: seq<Action>)
    ensures var l := Run(acts);
            && multiset(l.handed) + multiset(Flat(l.queue)) == multiset(l.delivered)
            && Distinct(multiset(Entries(l.delivered)) + Stored(l.s), l.s.issued)
  {
    RunKeeps(acts);
    hide Run, Distinct;
  }

  function Packets(skbs: seq<Skb>): seq<seq<int>> { seq(|skbs|, i requires 0 <= i < |skbs| => skbs[i].packet) }

  /** The packets of all deliveries, in order. */
  function AllPackets(acts: seq<Action>): seq<seq<int>> {
    if acts == [] then []
    else
      var before, a := AllPackets(acts[..|acts| - 1]), acts[|acts| - 1];
      if a.Deliver? then before + a.packets else before
  }

  /** The entries that all refills have put into the pool. */
  function AllRefills(acts: seq<Action>): nat {
    if acts == [] then 0
    else
      var before, a := AllRefills(acts[..|acts| - 1]), acts[|acts| - 1];
      if a.Refill? then before + a.n else before
  }

  /** The entries made so far that are not in the pool or behind the header. */
  function Out(s: Store): int { s.issued - 2 - |s.pool| - |s.free| }

  lemma {:induction false} TakeCounts(s: Store, n: nat)
    ensures var left := Take(s, n).1; Out(left) == Out(s) + n && left.issued >= s.issued
  {
    if n > 0 { TakeCounts(s, n - 1); }
  }

  /** In every run all packets delivered are in buffers handed up or queued, in their order; and no entry gets
      lost: whatever the refills and single allocations have made is stored or in a delivered buffer. */
  lemma {:induction false} NothingIsLost(acts: seq<Action>)
    ensures var l := Run(acts);
            && Packets(l.delivered) == AllPackets(acts)
            && Out(l.s) == |l.delivered| && l.s.issued >= 2 + AllRefills(acts)
    decreases |acts|
  {
    if acts != [] {
      var before, a := acts[..|acts| - 1], acts[|acts| - 1];
      NothingIsLost(before);
      if a.Deliver? { TakeCounts(Run(before).s, |a.packets|); }
    }
  }

  // ----- order -------------------------------------------------------------------------------

  lemma {:induction false} FlatFirst<T>(bs: seq<seq<T>>)
    requires |bs| > 0 && bs[0] != []
    ensures |Flat(bs)| >= |bs[0]| && Flat(bs)[0] == bs[0][0]
    decreases |bs|
  {
    if |bs| == 1 {
      assert bs[..0] == [];
      assert Flat(bs) == bs[0];
    } else {
      FlatFirst(bs[..|bs| - 1]);
    }
  }

  lemma {:induction false} InFlat<T>(bs: seq<seq<T>>, i: nat, x: T)
    requires i < |bs| && x in bs[i]
    ensures x in Flat(bs)
    decreases |bs|
  {
    if i < |bs| - 1 { InFlat(bs[..|bs| - 1], i, x); }
  }

  /** The receive worker hands the queued packets up in the order they came exactly when at most one batch
      is queued. */
  lemma OrderKeptIff(l: Lists)
    requires Inv(l)
    ensures LatestFirst(l.queue) == Flat(l.queue) <==> |l.queue| <= 1
  {
    var q := l.queue;
    if |q| == 1 {
      assert q[..0] == [] && LatestFirst(q[..0]) == [] && Flat(q[..0]) == [];
    } else if |q| >= 2 {
      FlatFirst(q);
      var first, last := q[0][0], q[|q| - 1][0];
      InFlat(q[..|q| - 1], 0, first);
      QueuedOnce(l, first, last);
      assert LatestFirst(q)[0] == last;
    }
  }

  lemma QueuedOnce(l: Lists, x: Skb, y: Skb)
    requires Inv(l) && |l.queue| > 0
    requires x in Flat(l.queue[..|l.queue| - 1]) && y in l.queue[|l.queue| - 1]
    ensures x != y
  {
    var q := l.queue;
    OccursOnce(l, x);
    hide Inv;
    assert multiset(Flat(q)) == multiset(Flat(q[..|q| - 1])) + multiset(q[|q| - 1]);
    assert x in multiset(Flat(q[..|q| - 1])) && y in multiset(q[|q| - 1]);
  }

  lemma OccursOnce(l: Lists, x: Skb)
    requires Inv(l)
    ensures multiset(Flat(l.queue))[x] <= 1
  {
    EntryTwice(l.delivered, x);
    assert multiset(Flat(l.queue))[x] <= multiset(l.delivered)[x];
    var m := multiset(Entries(l.delivered)) + Stored(l.s);
    assert m[x.entry] <= 1;
  }

  lemma {:induction false} EntryTwice(skbs: seq<Skb>, x: Skb)
    ensures multiset(Entries(skbs))[x.entry] >= multiset(skbs)[x]
    decreases |skbs|
  {
    if skbs != [] {
      var n := |skbs| - 1;
      EntryTwice(skbs[..n], x);
      assert skbs == skbs[..n] + [skbs[n]];
      EntriesConcat(skbs[..n], [skbs[n]]);
      assert Entries([skbs[n]]) == [skbs[n].entry];
    }
  }

  /** At every point where the worker runs, no more than one batch is queued. */
  predicate Prompt(acts: seq<Action>)
    decreases |acts|
  {
    acts == [] || (Prompt(acts[..|acts| - 1]) && (acts[|acts| - 1] == Work ==> |Run(acts[..|acts| - 1]).queue| <= 1))
  }

  lemma FlatAppend<T>(bs: seq<seq<T>>, b: seq<T>)
    ensures Flat(bs + [b]) == Flat(bs) + b
  {
    assert (bs + [b])[..|bs|] == bs;
  }

  /** With a prompt worker the packets go up in the order they were delivered. */
  lemma {:induction false} PromptKeepsOrder(acts: seq<Action>)
    requires Prompt(acts)
    ensures Run(acts).handed + Flat(Run(acts).queue) == Run(acts).delivered
    decreases |acts|
  {
    if acts != [] {
      var before, a := acts[..|acts| - 1], acts[|acts| - 1];
      var l := Run(before);
      PromptKeepsOrder(before);
      RunKeeps(before);
      if a == Work {
        OrderKeptIff(l);
      } else if a.Deliver? && a.packets != [] {
        FlatAppend(l.queue, Filled(Take(l.s, |a.packets|).0, a.packets));
      }
      hide Inv, LatestFirst, Take, Filled, Run;
    }
  }
}
