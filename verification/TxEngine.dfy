/** The transmit read engine as a whole: requests, completions split and interleaved at will, in-order
    commit, and the reader behind it.  What is read out is what the host's buffers held, in order. */
module TxEngine {
  import opened Ring
  import opened TxReassembly
  import Q = TxRequest

  /** The completion on the bus: for request `i`, ending with its dword number `end`. */
  datatype Flight = Nothing | Flying(i: nat, end: nat)

  /** The engine with the contents of all posted buffers (`stream`), the dwords received per request (`got`),
      the count behind the committed pointer, and everything read out of the ring (`out`). */
  datatype Tx = Tx(q: Q.Requester, slots: seq<Slot>, ring: seq<Qword>, r: Regs, c: CommitRegs, stream: seq<Qword>,
                   got: seq<nat>, committed: nat, flight: Flight, out: seq<Qword>)

  /** `Post` carries what the buffer holds.  `Stray` and `Beat(false, ...)` are clocks without data, in state s1
      and in states s2 to s5; their arguments are what the bus happens to show.  A last beat may carry one dword
      and one of those. */
  datatype Action =
    | Post(addr: nat, data: seq<Qword>)
    | Ask(seenOlder: nat, seen: nat, completed: nat)
    | Header(i: nat, len: nat)
    | Stray(tag: nat, junk: Dword)
    | First
    | Beat(valid: bool, junk: Dword, junk2: Dword)
    | Commit
    | Read(count: nat)

  ghost predicate ResetOk(slots: seq<Slot>, ring: seq<Qword>) {
    |slots| == TAGS && |ring| == RING && SlotsTyped(slots) && forall t :: 0 <= t < TAGS ==> !slots[t].ready
  }

  /** Reset leaves the tag registers other than `data_ready`, the memory and the look-ahead values alone. */
  function Init(slots: seq<Slot>, ring: seq<Qword>, look: Look): Tx {
    Tx(Q.Init(), slots, ring, Regs(S0, 0, false, 0, look, 0), CommitRegs(false, 0, 0, 0), [], [], 0, Nothing, [])
  }

  /** Dword number `g` of the qwords from `base` on. */
  function HostDword(stream: seq<Qword>, base: nat, g: nat): Dword {
    if base + g / 2 >= |stream| then 0
    else if g % 2 == 0 then stream[base + g / 2].low else stream[base + g / 2].high
  }

  ghost predicate Live(x: Tx, i: nat) { x.q.done <= i < |x.q.reqs| == |x.got| && |x.slots| == TAGS && |x.ring| == RING }

  function Max(a: nat, b: nat): nat { if a < b then b else a }

  /** The count at which request `i` is written next. */
  function WriteCount(x: Tx, i: nat): nat
    requires i < |x.q.reqs| == |x.got|
  {
    x.q.reqs[i].base + x.got[i] / 2
  }

  /** Slot `t` belongs to a request that has all its dwords and waits to be committed. */
  ghost predicate Waits(x: Tx, t: nat, j: nat)
    requires j < |x.q.reqs| == |x.got|
  {
    j % TAGS == t && x.got[j] == 2 * x.q.reqs[j].size && !(x.c.closing && j == x.q.done)
  }

  /** Count `c` is of a qword in the ring that someone still needs: committed and not read, or received. */
  ghost predicate Needed(x: Tx, c: nat)
    requires |x.q.reqs| == |x.got|
  {
    || x.q.read <= c < x.committed
    || exists j :: x.q.done <= j < |x.q.reqs| && Max(x.q.read, x.q.reqs[j].base) <= c < WriteCount(x, j)
  }

  /** A clock of state s1 without data may show tag slot `t`: no request that waits for the commit, and an
      address whose ring slot nobody needs. */
  ghost predicate Tolerates(x: Tx, t: nat)
    requires t < |x.slots| && |x.q.reqs| == |x.got|
  {
    && (forall j :: x.q.done <= j < |x.q.reqs| ==> !Waits(x, t, j))
    && (forall c: nat :: Needed(x, c) ==> c % RING != x.slots[t].addr % RING)
  }

  /** Completions answer outstanding requests, each in order (section 2.4 of the PCI Express Base Specification),
      and bring at least two dwords (TxSplit says when they do); the reader stops at the committed count. */
  ghost predicate Enabled(x: Tx, a: Action) {
    match a
    case Post(addr, data) => Q.Enabled(x.q, Q.Post(addr, |data|))
    case Ask(older, seen, completed) => Q.Enabled(x.q, Q.Ask(older, seen, completed)) && |x.slots| == TAGS
    case Header(i, len) =>
      x.r.fsm == S0 && Live(x, i) && 2 <= len < 1024 && x.got[i] + len <= 2 * x.q.reqs[i].size
    case Stray(tag, _) => x.r.fsm == S1 && x.flight.Flying? && Live(x, x.flight.i) && Tolerates(x, tag % TAGS)
    case First => x.r.fsm == S1 && x.flight.Flying? && Live(x, x.flight.i)
    case Beat(_, _, _) =>
      && x.r.fsm !in {S0, S1} && x.flight.Flying? && Live(x, x.flight.i)
      && x.got[x.flight.i] < x.flight.end && x.r.tag < TAGS
    case Commit => x.c.Typed() && |x.slots| == TAGS && |x.got| == |x.q.reqs|
    case Read(count) => x.q.read <= count <= x.committed && |x.ring| == RING
  }

  function DoAsk(x: Tx, seen: nat, size: nat): Tx
    requires x.q.r.Typed() && |x.slots| == TAGS
  {
    if size == 0 then x.(q := Q.DoAsk(x.q, seen, 0))
    else
      var t := x.q.r.tag % TAGS;
      x.(q := Q.DoAsk(x.q, seen, size), slots := x.slots[t := Claim(x.slots[t], x.q.r.nextWr, size)],
         got := x.got + [0])
  }

  ghost function DoFirst(x: Tx): Tx
    requires x.flight.Flying? && Live(x, x.flight.i)
  {
    var i := x.flight.i;
    var t, dw := x.q.reqs[i].tlp.tag % TAGS, HostDword(x.stream, x.q.reqs[i].base, x.got[i]);
    var s := x.slots[t];
    x.(r := TxReassembly.First(x.r, s, t, dw, true), slots := x.slots[t := s.(ready := false)],
       ring := x.ring[s.addr % RING := Qword(s.saved, dw)], got := x.got[i := x.got[i] + 1])
  }

  /** State s1 without data: the shown tag's next slot is written all the same. */
  ghost function DoStray(x: Tx, t: nat, dw: Dword): Tx
    requires t < |x.slots| && |x.ring| == RING
  {
    var s := x.slots[t];
    x.(r := TxReassembly.First(x.r, s, t, dw, false), slots := x.slots[t := s.(ready := false)],
       ring := x.ring[s.addr % RING := Qword(s.saved, dw)])
  }

  /** What the bus shows in a clock of states s2 to s5. */
  function BusBeat(stream: seq<Qword>, base: nat, g: nat, end: nat, a: Action): TxReassembly.Beat
    requires a.Beat?
  {
    if !a.valid then TxReassembly.Beat(false, a.junk, a.junk2, false)
    else TxReassembly.Beat(true, HostDword(stream, base, g),
                           if g + 2 <= end then HostDword(stream, base, g + 1) else a.junk2, end <= g + 2)
  }

  ghost function DoBeat(x: Tx, a: Action): Tx
    requires a.Beat? && x.flight.Flying? && Live(x, x.flight.i) && x.r.tag < TAGS
  {
    var i, end := x.flight.i, x.flight.end;
    var g := x.got[i];
    var b := BusBeat(x.stream, x.q.reqs[i].base, g, end, a);
    var n := x.(r := NextRegs(x.r, b), slots := x.slots[x.r.tag := AfterBeat(x.r, x.slots[x.r.tag], b)],
                ring := x.ring[Target(x.r) % RING := Written(x.r, b)]);
    if !b.valid then n
    else if b.last then n.(got := x.got[i := end], flight := Nothing)
    else n.(got := x.got[i := g + 2])
  }

  function DoCommit(x: Tx): Tx
    requires x.c.Typed() && |x.slots| == TAGS && |x.got| == |x.q.reqs|
  {
    var n := x.(c := TxReassembly.Committed(x.c, x.slots[x.c.target]));
    if x.c.closing then
      n.(slots := x.slots[x.c.target := x.slots[x.c.target].(ready := false)], q := x.q.(done := x.q.done + 1))
    else if x.slots[x.c.target].ready && x.q.done < |x.q.reqs| then
      n.(committed := x.q.reqs[x.q.done].base + x.got[x.q.done] / 2)
    else n
  }

  /** The qwords the reader finds in the next slots. */
  function ReadOut(ring: seq<Qword>, from: nat, to: nat): seq<Qword>
    requires |ring| == RING && from <= to
  {
    seq(to - from, k requires 0 <= k => ring[(from + k) % RING])
  }

  ghost function Step(x: Tx, a: Action): Tx {
    if !Enabled(x, a) then x
    else
      match a
      case Post(addr, data) => x.(q := Q.DoPost(x.q, addr, |data|), stream := x.stream + data)
      case Ask(older, seen, completed) => DoAsk(x, seen, Q.AskSize(x.q, older, seen, completed))
      case Header(i, len) => x.(r := TxReassembly.Header(x.r, len), flight := Flying(i, x.got[i] + len))
      case Stray(tag, dw) => DoStray(x, tag % TAGS, dw)
      case First => DoFirst(x)
      case Beat(_, _, _) => DoBeat(x, a)
      case Commit => DoCommit(x)
      case Read(count) => x.(q := x.q.(read := count), out := x.out + ReadOut(x.ring, x.q.read, count))
  }

  ghost function Run(x: Tx, acts: seq<Action>): Tx
    decreases |acts|
  {
    if acts == [] then x else Step(Run(x, acts[..|acts| - 1]), acts[|acts| - 1])
  }

  // ----- the invariant -----------------------------------------------------------------------

  /** A tag's registers between completions: `g` dwords of the request have come. */
  ghost predicate IdleSlot(s: Slot, q: Q.Request, g: nat, stream: seq<Qword>) {
    && s.addr == Ptr(q.base + g / 2) && s.size == q.size && s.received == g / 2
    && s.savedEn == (g % 2 == 1) && (s.ready ==> g > 0)
    && (g % 2 == 1 ==> s.saved == HostDword(stream, q.base, g - 1))
  }

  /** During a completion only its size is sure, and that nothing of it may be committed. */
  ghost predicate BusySlot(s: Slot, q: Q.Request) { s.size == q.size && !s.ready }

  /** The registers of a completion in progress that ends with dword `end`; `g` have come. */
  ghost predicate FlightOk(r: Regs, q: Q.Request, g: nat, end: nat, i: nat, stream: seq<Qword>) {
    && g < end <= 2 * q.size
    && match r.fsm
       case S0 => false
       case S1 => r.qwords == (end - g) / 2 && r.odd == ((end - g) % 2 == 1) && end >= g + 2
       case _ => BeatsOk(r, q, g, end, stream) && r.tag == i % TAGS
  }

  /** The registers in states s2 to s5. */
  ghost predicate BeatsOk(r: Regs, q: Q.Request, g: nat, end: nat, stream: seq<Qword>) {
    && r.look.addr == Ahead(r.fsm, q.base + end / 2) && r.look.received == Ahead(r.fsm, end / 2)
    && (if r.fsm == S2 || r.fsm == S3 then g % 2 == 1 && r.dwAux == HostDword(stream, q.base, g - 1) else g % 2 == 0)
    && Target(r) == Ptr(q.base + g / 2)
    && (end % 2 == 1 <==> r.fsm == S3 || r.fsm == S4)
  }

  /** The look-ahead values leave out the qword that two saved dwords make. */
  function Ahead(fsm: Fsm, x: nat): nat { if fsm == S5 then (if x == 0 then 0 else Ptr(x - 1)) else Ptr(x) }

  ghost predicate Busy(x: Tx, i: nat) { x.r.fsm != S1 && x.flight.Flying? && x.flight.i == i }

  /** All there, so it is up for the commit. */
  ghost predicate Announced(x: Tx, i: nat)
    requires Live(x, i)
  {
    x.got[i] == 2 * x.q.reqs[i].size ==> x.slots[i % TAGS].ready || (x.c.closing && i == x.q.done)
  }

  /** Request `i` is in good order: its registers, and its received qwords in the ring. */
  ghost predicate LiveOk(x: Tx, i: nat)
    requires Live(x, i)
  {
    var q, g, s := x.q.reqs[i], x.got[i], x.slots[i % TAGS];
    && g <= 2 * q.size
    && (if Busy(x, i) then BusySlot(s, q) else IdleSlot(s, q, g, x.stream) && Announced(x, i))
    && Holds(x.ring, x.stream, Max(x.q.read, q.base), q.base + g / 2)
  }

  ghost predicate CommitOk(x: Tx)
    requires |x.got| == |x.q.reqs| && x.q.done <= |x.q.reqs|
  {
    && x.c.Typed() && x.c.target == x.q.done % TAGS && x.c.completed == x.q.done % 8
    && x.c.committed == Ptr(x.committed)
    && x.q.read <= x.committed && Q.End(x.q.reqs, x.q.done) <= x.committed
    && (x.q.done == |x.q.reqs| ==> x.committed == x.q.next && !x.c.closing)
    && (x.q.done < |x.q.reqs| ==>
          var q, g := x.q.reqs[x.q.done], x.got[x.q.done];
          x.committed <= q.base + g / 2 && (x.c.closing ==> g == 2 * q.size && x.committed == q.base + q.size))
  }

  ghost predicate FlyingOk(x: Tx)
    requires |x.got| == |x.q.reqs|
  {
    match x.flight
    case Nothing => x.r.fsm == S0
    case Flying(i, end) =>
      x.q.done <= i < |x.q.reqs| && FlightOk(x.r, x.q.reqs[i], x.got[i], end, i, x.stream)
  }

  /** The registers of tags not in use hold nothing to commit. */
  ghost predicate FreeSlots(x: Tx)
    requires |x.slots| == TAGS
  {
    forall k :: |x.q.reqs| <= k < x.q.done + TAGS ==> !x.slots[k % TAGS].ready
  }

  ghost predicate Shape(x: Tx) {
    && |x.slots| == TAGS && |x.ring| == RING && |x.got| == |x.q.reqs| && x.q.done <= |x.q.reqs|
    && x.q.r.Typed() && |x.stream| == x.q.next + Q.Remaining(x.q.r)
  }

  ghost predicate Inv(x: Tx) {
    && Q.Inv(x.q) && Shape(x) && CommitOk(x) && FlyingOk(x) && FreeSlots(x)
    && (forall i :: x.q.done <= i < |x.q.reqs| ==> LiveOk(x, i))
    && Holds(x.ring, x.stream, x.q.read, x.committed)
    && x.out == x.stream[..x.q.read]
  }

  lemma InitInv(slots: seq<Slot>, ring: seq<Qword>, look: Look)
    requires ResetOk(slots, ring)
    ensures Inv(Init(slots, ring, look))
  {
  }

  // ----- writes to the ring ------------------------------------------------------------------

  lemma ReqEnd(q: Q.Requester, i: nat)
    requires Q.Inv(q) && i < |q.reqs|
    ensures Q.End(q.reqs, i) == q.reqs[i].base && Q.End(q.reqs, i + 1) == q.reqs[i].base + q.reqs[i].size
    ensures 1 <= q.reqs[i].size <= RING && q.reqs[i].tlp.tag % TAGS == i % TAGS
    ensures q.reqs[i].base + q.reqs[i].size <= q.next <= q.read + RING
  {
    Q.TagOf(q, i);
    Q.EndOrder(q.reqs, q.buffers, i + 1, |q.reqs|);
    assert Q.RequestOk(q.reqs, q.buffers, i);
    hide Q.RequestOk, Q.BufferDone, Q.Current;
  }

  /** The requests lie one behind the other. */
  lemma ReqOrder(q: Q.Requester, i: nat, j: nat)
    requires Q.Inv(q) && i < j < |q.reqs|
    ensures q.reqs[i].base + q.reqs[i].size <= q.reqs[j].base
  {
    ReqEnd(q, i);
    ReqEnd(q, j);
    Q.EndOrder(q.reqs, q.buffers, i + 1, j);
    hide Q.Inv;
  }

  /** An unfinished qword of an outstanding request lies at or behind the committed count, before the end
      of what is reserved. */
  lemma WriteIsAhead(x: Tx, i: nat)
    requires Inv(x) && x.q.done <= i < |x.q.reqs| && x.got[i] < 2 * x.q.reqs[i].size
    ensures x.q.read <= x.committed <= WriteCount(x, i) < x.q.next <= x.q.read + RING
    ensures WriteCount(x, i) < x.q.reqs[i].base + x.q.reqs[i].size
  {
    ReqEnd(x.q, i);
    ReqEnd(x.q, x.q.done);
    assert LiveOk(x, x.q.done);
    if x.q.done < i { ReqOrder(x.q, x.q.done, i); }
    hide Q.Inv, FlyingOk, FreeSlots, LiveOk, Holds;
  }

  /** Writing there disturbs neither what is committed nor any finished qword of any request. */
  lemma WriteKeepsAll(x: Tx, i: nat, v: Qword)
    requires Inv(x) && x.q.done <= i < |x.q.reqs| && x.got[i] < 2 * x.q.reqs[i].size
    ensures var ring := x.ring[WriteCount(x, i) % RING := v];
            && Holds(ring, x.stream, x.q.read, x.committed)
            && forall j :: x.q.done <= j < |x.q.reqs| ==>
                 Holds(ring, x.stream, Max(x.q.read, x.q.reqs[j].base), WriteCount(x, j))
  {
    WriteIsAhead(x, i);
    var w := WriteCount(x, i);
    WriteApart(x.ring, x.stream, x.q.read, x.committed, x.q.read, w, v);
    forall j | x.q.done <= j < |x.q.reqs|
      ensures Holds(x.ring[w % RING := v], x.stream, Max(x.q.read, x.q.reqs[j].base), WriteCount(x, j))
    {
      OthersKept(x, i, j, v);
    }
  }

  lemma OthersKept(x: Tx, i: nat, j: nat, v: Qword)
    requires Inv(x) && x.q.done <= i < |x.q.reqs| && x.got[i] < 2 * x.q.reqs[i].size && x.q.done <= j < |x.q.reqs|
    ensures Holds(x.ring[WriteCount(x, i) % RING := v], x.stream, Max(x.q.read, x.q.reqs[j].base), WriteCount(x, j))
  {
    WriteIsAhead(x, i);
    ReqEnd(x.q, j);
    assert LiveOk(x, j);
    if i < j { ReqOrder(x.q, i, j); }
    if j < i { ReqOrder(x.q, j, i); }
    hide Q.Inv, Inv, LiveOk, Holds;
    var lo, hi, w := Max(x.q.read, x.q.reqs[j].base), WriteCount(x, j), WriteCount(x, i);
    if lo <= hi {
      WriteApart(x.ring, x.stream, lo, hi, x.q.read, w, v);
    } else {
      EmptyHolds(x.ring[w % RING := v], x.stream, lo, hi);
    }
  }

  lemma EmptyHolds(ring: seq<Qword>, stream: seq<Qword>, lo: nat, hi: nat)
    requires hi <= lo && |ring| == RING && hi <= |stream|
    ensures Holds(ring, stream, lo, hi)
  {
  }

  // ----- completions -------------------------------------------------------------------------

  /** `n` differs from `x` in what a beat for request `i` touches. */
  ghost predicate Touches(x: Tx, n: Tx, i: nat, s: Slot, v: Qword)
    requires i < |x.q.reqs| == |x.got| == |n.got| && |x.slots| == TAGS && |x.ring| == RING
  {
    n == x.(r := n.r, slots := x.slots[i % TAGS := s], ring := x.ring[WriteCount(x, i) % RING := v],
            got := x.got[i := n.got[i]], flight := n.flight)
  }

  lemma TouchKeeps(x: Tx, n: Tx, i: nat, s: Slot, v: Qword)
    requires Inv(x) && x.flight.Flying? && x.flight.i == i && |n.got| == |x.got| && Touches(x, n, i, s, v)
    requires x.got[i] <= n.got[i] && (n.flight.Flying? ==> n.flight.i == i) && n.r.fsm != S1
    requires FlyingOk(n) && LiveOk(n, i)
    ensures Inv(n)
  {
    WriteKeepsAll(x, i, v);
    forall j | x.q.done <= j < |x.q.reqs| ensures LiveOk(n, j) {
      if i != j {
        TagsDiffer(i, j, x.q.done);
        assert LiveOk(x, j);
      }
    }
    TouchFree(x, n, i, s, v);
    hide Q.Inv, FlyingOk, FreeSlots, LiveOk, Holds;
  }

  lemma TagsDiffer(i: nat, j: nat, done: nat)
    requires done <= i < done + 4 && done <= j < done + 4 && i != j
    ensures i % TAGS != j % TAGS
  {
    if i < j { SubIsDistance(j, i, 4); } else { SubIsDistance(i, j, 4); }
  }

  lemma TouchFree(x: Tx, n: Tx, i: nat, s: Slot, v: Qword)
    requires Inv(x) && x.flight.Flying? && x.flight.i == i && |n.got| == |x.got| && Touches(x, n, i, s, v)
    ensures FreeSlots(n)
  {
    hide LiveOk, Holds, Q.Space, Q.Current, Q.Lists;
    forall k | |x.q.reqs| <= k < x.q.done + TAGS ensures !n.slots[k % TAGS].ready {
      TagsDiffer(i, k, x.q.done);
    }
  }

  lemma PointerNext(w: nat)
    ensures Bump(Ptr(w)) == Ptr(w + 1)
  {
    PointerSum(w, 1);
  }

  /** Two successive dwords of a request, the first at an even place, make its qword. */
  lemma WholeQword(stream: seq<Qword>, base: nat, g: nat)
    requires g % 2 == 0 && base + g / 2 < |stream|
    ensures Qword(HostDword(stream, base, g), HostDword(stream, base, g + 1)) == stream[base + g / 2]
  {
  }

  lemma HoldsNext(ring: seq<Qword>, stream: seq<Qword>, lo: nat, w: nat)
    requires Holds(ring, stream, lo, w) && w < |stream| && ring[w % RING] == stream[w]
    ensures Holds(ring, stream, lo, w + 1)
  {
  }

  /** A beat with data completes a qword unless it is the odd end of a completion; the last one leaves the
      tag's registers as between completions; a clock without data changes nothing that counts. */
  ghost predicate BeatGood(r: Regs, s: Slot, q: Q.Request, g: nat, end: nat, i: nat, stream: seq<Qword>,
                           b: TxReassembly.Beat)
    requires q.base + g / 2 < |stream|
  {
    var n, t := NextRegs(r, b), AfterBeat(r, s, b);
    && (!b.valid ==> n == r)
    && (b.valid && (g + 2) / 2 <= (if b.last then end else g + 2) / 2 ==> Written(r, b) == stream[q.base + g / 2])
    && (b.valid && b.last ==> g < end <= g + 2 && IdleSlot(t, q, end, stream) && t.ready && n.fsm == S0)
    && (!(b.valid && b.last) ==> BusySlot(t, q))
    && (b.valid && !b.last ==> FlightOk(n, q, g + 2, end, i, stream))
  }

  lemma LowBeat(r: Regs, s: Slot, q: Q.Request, g: nat, end: nat, i: nat, stream: seq<Qword>, a: Action)
    requires a.Beat? && r.fsm in {S2, S3} && FlightOk(r, q, g, end, i, stream) && BusySlot(s, q)
    requires q.base + q.size <= |stream| && q.size <= RING
    ensures BeatGood(r, s, q, g, end, i, stream, BusBeat(stream, q.base, g, end, a))
  {
    var b := BusBeat(stream, q.base, g, end, a);
    if a.valid {
      WholeQword(stream, q.base, g - 1);
      PointerNext(q.base + g / 2);
      OddNext(g, end);
      PointerSmall(end / 2);
      hide HostDword, Bump, Ptr;
      assert b.valid && Written(r, b) == stream[q.base + g / 2] && (b.last <==> end <= g + 2);
      assert end >= g + 2 ==> b.second == HostDword(stream, q.base, g + 1);
      hide BusBeat, Written;
    }
  }

  lemma OddNext(g: nat, end: nat)
    requires g < end && g % 2 == 1
    ensures (g + 2) / 2 == g / 2 + 1 && (g + 2) % 2 == 1 && (g - 1) / 2 == g / 2
    ensures end == g + 1 || end >= g + 2
    ensures end == g + 1 || end == g + 2 ==> end / 2 == g / 2 + 1
    ensures end % 2 == 1 ==> end >= g + 2
  {
  }

  lemma HighBeat4(r: Regs, s: Slot, q: Q.Request, g: nat, end: nat, i: nat, stream: seq<Qword>, a: Action)
    requires a.Beat? && r.fsm == S4 && FlightOk(r, q, g, end, i, stream) && BusySlot(s, q)
    requires q.base + q.size <= |stream| && q.size <= RING
    ensures BeatGood(r, s, q, g, end, i, stream, BusBeat(stream, q.base, g, end, a))
  {
    var b := BusBeat(stream, q.base, g, end, a);
    if a.valid {
      WholeQword(stream, q.base, g);
      PointerNext(q.base + g / 2);
      EvenNext(g, end);
      PointerSmall(end / 2);
      hide HostDword, Bump, Ptr;
      assert b.valid && b.first == HostDword(stream, q.base, g) && (b.last <==> end == g + 1);
      assert end > g + 2 ==> Written(r, b) == stream[q.base + g / 2];
      hide BusBeat, Written;
    }
  }

  lemma EvenNext(g: nat, end: nat)
    requires g < end && g % 2 == 0 && end % 2 == 1
    ensures (g + 2) / 2 == g / 2 + 1 && (g + 2) % 2 == 0 && (g + 1) / 2 == g / 2
    ensures end == g + 1 || end > g + 2
  {
  }

  lemma HighBeat5(r: Regs, s: Slot, q: Q.Request, g: nat, end: nat, i: nat, stream: seq<Qword>, a: Action)
    requires a.Beat? && r.fsm == S5 && FlightOk(r, q, g, end, i, stream) && BusySlot(s, q)
    requires q.base + q.size <= |stream| && q.size <= RING
    ensures BeatGood(r, s, q, g, end, i, stream, BusBeat(stream, q.base, g, end, a))
  {
    var b := BusBeat(stream, q.base, g, end, a);
    EvenGap(g, end);
    if a.valid {
      WholeQword(stream, q.base, g);
      PointerNext(q.base + g / 2);
      PointerNext(q.base + end / 2 - 1);
      PointerNext(end / 2 - 1);
      PointerSmall(end / 2);
      hide HostDword, Bump, Ptr;
      assert b.valid && Written(r, b) == stream[q.base + g / 2] && (b.last <==> end == g + 2);
      hide BusBeat, Written;
      assert (g + 2) / 2 == g / 2 + 1 && (g + 2) % 2 == 0;
    }
  }

  lemma EvenGap(g: nat, end: nat)
    requires g < end && g % 2 == 0 && end % 2 == 0
    ensures g + 2 <= end
  {
  }

  lemma BeatIsGood(x: Tx, a: Action)
    requires Inv(x) && a.Beat? && Enabled(x, a)
    ensures var i, end := x.flight.i, x.flight.end;
            && WriteCount(x, i) < |x.stream| && x.r.tag == i % TAGS
            && Target(x.r) == Ptr(WriteCount(x, i))
            && BeatGood(x.r, x.slots[i % TAGS], x.q.reqs[i], x.got[i], end, i, x.stream,
                        BusBeat(x.stream, x.q.reqs[i].base, x.got[i], end, a))
  {
    var i, end := x.flight.i, x.flight.end;
    ReqEnd(x.q, i);
    WriteIsAhead(x, i);
    assert LiveOk(x, i);
    hide Q.Inv, FreeSlots, CommitOk, Holds, BeatGood, BusySlot, BeatsOk;
    var q, g, s := x.q.reqs[i], x.got[i], x.slots[i % TAGS];
    if x.r.fsm == S4 {
      HighBeat4(x.r, s, q, g, end, i, x.stream, a);
    } else if x.r.fsm == S5 {
      HighBeat5(x.r, s, q, g, end, i, x.stream, a);
    } else {
      LowBeat(x.r, s, q, g, end, i, x.stream, a);
    }
    FlightTarget(x.r, q, g, end, i, x.stream);
  }

  lemma FlightTarget(r: Regs, q: Q.Request, g: nat, end: nat, i: nat, stream: seq<Qword>)
    requires FlightOk(r, q, g, end, i, stream) && r.fsm != S1
    ensures r.tag == i % TAGS && Target(r) == Ptr(q.base + g / 2)
  {
  }

  /** A beat keeps its request in good order. */
  lemma BeatLive(x: Tx, a: Action)
    requires Inv(x) && a.Beat? && Enabled(x, a)
    ensures var n, i := DoBeat(x, a), x.flight.i;
            LiveOk(n, i) && FlyingOk(n) && n.got[i] >= x.got[i]
  {
    BeatFlying(x, a);
    BeatSlot(x, a);
    BeatHolds(x, a);
    FlightBound(x);
    hide Inv, FlyingOk, DoBeat, Holds, BusySlot, IdleSlot;
  }

  lemma BeatFlying(x: Tx, a: Action)
    requires Inv(x) && a.Beat? && Enabled(x, a)
    ensures var n, i := DoBeat(x, a), x.flight.i;
            FlyingOk(n) && n.got[i] >= x.got[i] && n.q == x.q && |n.got| == |x.got| && Live(n, i)
  {
    BeatIsGood(x, a);
    hide Q.Inv, FreeSlots, CommitOk, Holds, BusBeat, AfterBeat, NextRegs, Written, IdleSlot, BusySlot, FlightOk, Target;
  }

  lemma BeatSlot(x: Tx, a: Action)
    requires Inv(x) && a.Beat? && Enabled(x, a) && Live(DoBeat(x, a), x.flight.i)
    ensures var n, i := DoBeat(x, a), x.flight.i;
            if Busy(n, i) then BusySlot(n.slots[i % TAGS], n.q.reqs[i])
            else IdleSlot(n.slots[i % TAGS], n.q.reqs[i], n.got[i], n.stream) && Announced(n, i)
  {
    BeatIsGood(x, a);
    hide Q.Inv, FreeSlots, CommitOk, Holds, BusBeat, AfterBeat, NextRegs, Written, IdleSlot, BusySlot, FlightOk, Target;
  }

  /** The dwords that have come after beat `b`. */
  function GotAfter(g: nat, end: nat, b: TxReassembly.Beat): nat {
    if !b.valid then g else if b.last then end else g + 2
  }

  lemma BeatCount(r: Regs, s: Slot, q: Q.Request, g: nat, end: nat, i: nat, stream: seq<Qword>, b: TxReassembly.Beat)
    requires q.base + g / 2 < |stream| && BeatGood(r, s, q, g, end, i, stream, b) && g < end <= 2 * q.size
    ensures GotAfter(g, end, b) <= 2 * q.size
    ensures GotAfter(g, end, b) / 2 == g / 2
         || (GotAfter(g, end, b) / 2 == g / 2 + 1 && Written(r, b) == stream[q.base + g / 2])
  {
    hide IdleSlot, BusySlot, BeatsOk, AfterBeat, NextRegs, Written;
  }

  lemma BeatWrites(x: Tx, a: Action)
    requires Inv(x) && a.Beat? && Enabled(x, a)
    ensures var n, i, g := DoBeat(x, a), x.flight.i, x.got[x.flight.i];
            var b := BusBeat(x.stream, x.q.reqs[i].base, g, x.flight.end, a);
            && n.ring == x.ring[WriteCount(x, i) % RING := Written(x.r, b)] && n.stream == x.stream && n.q == x.q
            && n.got == x.got[i := GotAfter(g, x.flight.end, b)]
  {
    hide Inv, BeatGood, AfterBeat, NextRegs, Written, HostDword, BusBeat, Target, Ptr;
    BeatIsGood(x, a);
    PointerSlot(WriteCount(x, x.flight.i));
  }

  /** The qwords of its request stay in the ring, together with the one it completes. */
  lemma BeatHolds(x: Tx, a: Action)
    requires Inv(x) && a.Beat? && Enabled(x, a)
    ensures var n, i := DoBeat(x, a), x.flight.i;
            && Holds(n.ring, n.stream, Max(n.q.read, n.q.reqs[i].base), WriteCount(n, i))
            && n.got[i] <= 2 * n.q.reqs[i].size
  {
    var i, w := x.flight.i, WriteCount(x, x.flight.i);
    var q, g, end := x.q.reqs[i], x.got[i], x.flight.end;
    var b := BusBeat(x.stream, q.base, g, end, a);
    FlightBound(x);
    BeatIsGood(x, a);
    BeatWrites(x, a);
    BeatCount(x.r, x.slots[i % TAGS], q, g, end, i, x.stream, b);
    WriteKeepsAll(x, i, Written(x.r, b));
    hide Inv, Enabled, BeatGood, Written, GotAfter, Holds, BusBeat, DoBeat, Live;
    var ring := x.ring[w % RING := Written(x.r, b)];
    if GotAfter(g, end, b) / 2 == g / 2 + 1 {
      HoldsNext(ring, x.stream, Max(x.q.read, q.base), w);
    }
  }

  lemma FlightBound(x: Tx)
    requires Inv(x) && x.flight.Flying?
    ensures var i := x.flight.i;
            x.q.done <= i < |x.q.reqs| && x.got[i] < x.flight.end <= 2 * x.q.reqs[i].size
  {
    hide Q.Inv, CommitOk, FreeSlots, LiveOk, Holds;
  }

  lemma BeatKeeps(x: Tx, a: Action)
    requires Inv(x) && a.Beat? && Enabled(x, a)
    ensures Inv(DoBeat(x, a))
  {
    BeatLive(x, a);
    BeatIsGood(x, a);
    var i := x.flight.i;
    PointerSlot(WriteCount(x, i));
    var b := BusBeat(x.stream, x.q.reqs[i].base, x.got[i], x.flight.end, a);
    hide Inv, FlyingOk, LiveOk, BeatGood, BusBeat, AfterBeat, Written, Target, Live;
    TouchKeeps(x, DoBeat(x, a), i, AfterBeat(x.r, x.slots[i % TAGS], b), Written(x.r, b)) by {
      assert x.got[i] < 2 * x.q.reqs[i].size;
    }
  }

  /** State s1: the saved dword and the first one make a qword, or the first one waits for the next. */
  lemma FirstGood(r: Regs, s: Slot, q: Q.Request, g: nat, end: nat, i: nat, tag: nat, stream: seq<Qword>)
    requires r.fsm == S1 && FlightOk(r, q, g, end, i, stream) && IdleSlot(s, q, g, stream) && tag == i % TAGS
    requires q.base + q.size <= |stream| && q.size <= RING
    ensures var dw := HostDword(stream, q.base, g);
            && FlightOk(TxReassembly.First(r, s, tag, dw, true), q, g + 1, end, i, stream)
            && TxReassembly.First(r, s, tag, dw, true).fsm !in {S0, S1}
            && BusySlot(s.(ready := false), q)
            && s.addr == Ptr(q.base + g / 2)
            && (g % 2 == 1 ==> Qword(s.saved, dw) == stream[q.base + g / 2])
  {
    if g % 2 == 1 { WholeQword(stream, q.base, g - 1); }
    FirstLook(r, s, q, g, end, i, tag, stream);
    hide HostDword, Bump, Ahead;
  }

  lemma FirstLook(r: Regs, s: Slot, q: Q.Request, g: nat, end: nat, i: nat, tag: nat, stream: seq<Qword>)
    requires r.fsm == S1 && FlightOk(r, q, g, end, i, stream) && IdleSlot(s, q, g, stream) && q.size <= RING
    ensures var n := TxReassembly.First(r, s, tag, HostDword(stream, q.base, g), true);
            && n.look.addr == Ahead(n.fsm, q.base + end / 2) && n.look.received == Ahead(n.fsm, end / 2)
            && Target(n) == Ptr(q.base + (g + 1) / 2)
            && (end % 2 == 1 <==> n.fsm == S3 || n.fsm == S4)
  {
    var more := (end - g) / 2;
    PointerSum(q.base + g / 2, more);
    PointerSum(g / 2, more);
    PointerSmall(g / 2);
    PointerNext(q.base + g / 2);
    hide HostDword, Bump, Ptr;
    HalvesAdd(g, end);
    ParityOf(g, end);
  }

  lemma ParityOf(g: nat, end: nat)
    requires g <= end
    ensures end % 2 == 1 <==> (g % 2 == 1) != ((end - g) % 2 == 1)
    ensures (g + 1) / 2 == g / 2 + if g % 2 == 1 then 1 else 0
  {
  }

  lemma HalvesAdd(g: nat, end: nat)
    requires g <= end
    ensures g / 2 + (end - g) / 2 == end / 2 - if g % 2 == 1 && end % 2 == 0 then 1 else 0
  {
  }

  lemma IdleFacts(x: Tx)
    requires Inv(x) && x.r.fsm == S1 && x.flight.Flying?
    ensures var i := x.flight.i; var q := x.q.reqs[i];
            && IdleSlot(x.slots[i % TAGS], q, x.got[i], x.stream)
            && FlightOk(x.r, q, x.got[i], x.flight.end, i, x.stream)
            && q.tlp.tag % TAGS == i % TAGS && q.base + q.size <= |x.stream| && q.size <= RING
  {
    ReqEnd(x.q, x.flight.i);
    assert LiveOk(x, x.flight.i);
    hide Q.Inv, CommitOk, FreeSlots, Holds, IdleSlot, FlightOk;
  }

  lemma FirstKeeps(x: Tx)
    requires Inv(x) && Enabled(x, First)
    ensures Inv(DoFirst(x))
  {
    var i := x.flight.i;
    var q, g, s := x.q.reqs[i], x.got[i], x.slots[i % TAGS];
    IdleFacts(x);
    FlightBound(x);
    FirstGood(x.r, s, q, g, x.flight.end, i, i % TAGS, x.stream);
    FirstTouches(x);
    FirstLive(x);
    hide Inv, FlyingOk, LiveOk, BusySlot, IdleSlot, FlightOk, Touches, Enabled, HostDword;
    TouchKeeps(x, DoFirst(x), i, s.(ready := false), Qword(s.saved, HostDword(x.stream, q.base, g)));
  }

  lemma FirstTouches(x: Tx)
    requires Inv(x) && Enabled(x, First)
    ensures var i := x.flight.i; var s := x.slots[i % TAGS];
            var v, n := Qword(s.saved, HostDword(x.stream, x.q.reqs[i].base, x.got[i])), DoFirst(x);
            Touches(x, n, i, s.(ready := false), v) && n.flight == x.flight && n.got == x.got[i := x.got[i] + 1]
  {
    IdleFacts(x);
    PointerSlot(WriteCount(x, x.flight.i));
    hide Q.Inv, CommitOk, FlyingOk, FreeSlots, LiveOk, Holds, FlightOk, TxReassembly.First, HostDword;
  }

  lemma FirstLive(x: Tx)
    requires Inv(x) && Enabled(x, First)
    ensures LiveOk(DoFirst(x), x.flight.i) && FlyingOk(DoFirst(x)) && DoFirst(x).r.fsm != S1
  {
    var i, n := x.flight.i, DoFirst(x);
    var q, g, s := x.q.reqs[i], x.got[i], x.slots[i % TAGS];
    IdleFacts(x);
    FirstGood(x.r, s, q, g, x.flight.end, i, i % TAGS, x.stream);
    FirstTouches(x);
    FirstHolds(x, Qword(s.saved, HostDword(x.stream, q.base, g)));
    hide Q.Inv, CommitOk, FreeSlots, Holds, IdleSlot, FlightOk, TxReassembly.First, HostDword;
  }

  lemma FirstHolds(x: Tx, v: Qword)
    requires Inv(x) && x.flight.Flying?
    requires x.got[x.flight.i] % 2 == 1 ==>
               WriteCount(x, x.flight.i) < |x.stream| && v == x.stream[WriteCount(x, x.flight.i)]
    ensures var i := x.flight.i; var q := x.q.reqs[i]; var w := WriteCount(x, i);
            && x.got[i] + 1 <= 2 * q.size
            && Holds(x.ring[w % RING := v], x.stream, Max(x.q.read, q.base), q.base + (x.got[i] + 1) / 2)
  {
    var i := x.flight.i;
    var g, w := x.got[i], WriteCount(x, i);
    FlightBound(x);
    WriteKeepsAll(x, i, v);
    hide Inv, Holds;
    if g % 2 == 1 {
      assert x.q.reqs[i].base + (g + 1) / 2 == w + 1;
      HoldsNext(x.ring[w % RING := v], x.stream, Max(x.q.read, x.q.reqs[i].base), w);
    }
  }

  lemma HeaderKeeps(x: Tx, i: nat, len: nat)
    requires Inv(x) && Enabled(x, Header(i, len))
    ensures Inv(Step(x, Header(i, len)))
  {
    var n := Step(x, Header(i, len));
    hide Q.Inv, Holds, IdleSlot, BusySlot;
    assert x.flight.Nothing?;
    assert FlyingOk(n);
    hide FlyingOk;
    forall j | x.q.done <= j < |x.q.reqs| ensures LiveOk(n, j) {
      assert LiveOk(x, j);
    }
  }

  // ----- clocks without data in state s1 -----------------------------------------------------

  lemma StrayHolds(x: Tx, t: nat, dw: Dword, lo: nat, hi: nat)
    requires t < |x.slots| && |x.q.reqs| == |x.got| && |x.ring| == RING && Tolerates(x, t)
    requires Holds(x.ring, x.stream, lo, hi) && forall c: nat :: lo <= c < hi ==> Needed(x, c)
    ensures Holds(DoStray(x, t, dw).ring, x.stream, lo, hi)
  {
    forall c: nat | lo <= c < hi ensures c % RING != x.slots[t].addr % RING {
      assert Needed(x, c);
    }
    hide Tolerates, Needed, TxReassembly.First;
  }

  lemma StrayKeeps(x: Tx, t: nat, dw: Dword)
    requires Inv(x) && x.r.fsm == S1 && x.flight.Flying? && t < TAGS && Tolerates(x, t)
    ensures Inv(DoStray(x, t, dw))
  {
    var n := DoStray(x, t, dw);
    StrayHolds(x, t, dw, x.q.read, x.committed);
    forall j | x.q.done <= j < |x.q.reqs| ensures LiveOk(n, j) {
      StrayLive(x, t, dw, j);
    }
    hide Q.Inv, Holds, LiveOk, Tolerates;
  }

  lemma StrayLive(x: Tx, t: nat, dw: Dword, j: nat)
    requires Inv(x) && x.r.fsm == S1 && t < TAGS && Tolerates(x, t) && x.q.done <= j < |x.q.reqs|
    ensures LiveOk(DoStray(x, t, dw), j)
  {
    assert LiveOk(x, j) && !Waits(x, t, j);
    StrayHolds(x, t, dw, Max(x.q.read, x.q.reqs[j].base), WriteCount(x, j));
    hide Q.Inv, Holds, CommitOk, FlyingOk, FreeSlots, Tolerates;
  }

  /** A tag whose request still waits for dwords may always show, above all that of the completion at hand. */
  lemma UnfinishedTolerated(x: Tx, j: nat)
    requires Inv(x) && x.r.fsm == S1 && x.q.done <= j < |x.q.reqs| && x.got[j] < 2 * x.q.reqs[j].size
    ensures Tolerates(x, j % TAGS)
  {
    forall k | x.q.done <= k < |x.q.reqs| ensures !Waits(x, j % TAGS, k) {
      if k != j { TagsDiffer(j, k, x.q.done); }
    }
    var w := WriteCount(x, j);
    assert LiveOk(x, j) && x.slots[j % TAGS].addr % RING == w % RING by { PointerSlot(w); }
    forall c: nat | Needed(x, c) ensures c % RING != w % RING {
      NeededApart(x, j, c);
    }
    hide Inv, Needed, Waits;
  }

  lemma NeededApart(x: Tx, j: nat, c: nat)
    requires Inv(x) && x.q.done <= j < |x.q.reqs| && x.got[j] < 2 * x.q.reqs[j].size && Needed(x, c)
    ensures c % RING != WriteCount(x, j) % RING
  {
    WriteIsAhead(x, j);
    var w := WriteCount(x, j);
    if !(x.q.read <= c < x.committed) {
      var k :| x.q.done <= k < |x.q.reqs| && Max(x.q.read, x.q.reqs[k].base) <= c < WriteCount(x, k);
      GotBound(x, k);
      ReqEnd(x.q, k);
      if j < k { ReqOrder(x.q, j, k); }
      if k < j { ReqOrder(x.q, k, j); }
    }
    hide Inv;
    if c < w { SlotsDiffer(c, w); } else { SlotsDiffer(w, c); }
  }

  /** Whatever dword comes with it, a clock of state s1 without data keeps the engine in order exactly if it
      tolerates the tag that the bus shows. */
  lemma StrayIff(x: Tx, t: nat)
    requires Inv(x) && x.r.fsm == S1 && x.flight.Flying? && t < TAGS
    ensures (forall dw :: Inv(DoStray(x, t, dw))) <==> Tolerates(x, t)
  {
    assert |x.slots| == TAGS && |x.ring| == RING;
    hide Inv, Tolerates;
    if Tolerates(x, t) {
      forall dw ensures Inv(DoStray(x, t, dw)) { StrayKeeps(x, t, dw); }
    } else {
      var dw := StrayHarms(x, t);
    }
  }

  lemma StrayHarms(x: Tx, t: nat) returns (dw: Dword)
    requires Inv(x) && x.r.fsm == S1 && t < TAGS && !Tolerates(x, t)
    ensures !Inv(DoStray(x, t, dw))
  {
    if j :| x.q.done <= j < |x.q.reqs| && Waits(x, t, j) {
      dw := 0;
      var n := DoStray(x, t, dw);
      hide Q.Inv, Holds, IdleSlot, CommitOk, FlyingOk, FreeSlots;
      assert !LiveOk(n, j);
    } else {
      var c: nat :| Needed(x, c) && c % RING == x.slots[t].addr % RING;
      dw := StrayOverwrites(x, t, c);
    }
  }

  lemma StrayOverwrites(x: Tx, t: nat, c: nat) returns (dw: Dword)
    requires Inv(x) && x.r.fsm == S1 && t < TAGS && Needed(x, c) && c % RING == x.slots[t].addr % RING
    ensures !Inv(DoStray(x, t, dw))
  {
    dw := if c < |x.stream| then x.stream[c].high + 1 else 0;
    var n := DoStray(x, t, dw);
    hide Q.Inv, IdleSlot, CommitOk, FlyingOk, FreeSlots;
    if x.q.read <= c < x.committed {
      assert !Holds(n.ring, n.stream, n.q.read, n.committed);
    } else {
      var k :| x.q.done <= k < |x.q.reqs| && Max(x.q.read, x.q.reqs[k].base) <= c < WriteCount(x, k);
      assert LiveOk(x, k) && !LiveOk(n, k);
    }
  }

  /** Request `j` has all its dwords and will never be seen to have them. */
  ghost predicate Stalled(x: Tx, j: nat) {
    && |x.slots| == TAGS && |x.got| == |x.q.reqs|
    && x.q.done <= j < |x.q.reqs| <= x.q.done + 4 && x.c.target == x.q.done % TAGS
    && x.got[j] == 2 * x.q.reqs[j].size && !x.slots[j % TAGS].ready && !(x.c.closing && x.q.done == j)
    && x.q.r.sent == |x.q.reqs| % 8 && x.q.r.tag == |x.q.reqs| % 16
    && (forall i :: x.q.done <= i < |x.q.reqs| ==> x.q.reqs[i].tlp.tag % TAGS == i % TAGS)
    && (x.flight.Flying? ==> x.flight.i % TAGS != j % TAGS)
    && (x.flight.Flying? && x.r.fsm !in {S0, S1} ==> x.r.tag == x.flight.i % TAGS)
  }

  lemma StalledAsk(x: Tx, j: nat, a: Action)
    requires Stalled(x, j) && a.Ask? && Enabled(x, a)
    ensures Stalled(Step(x, a), j)
  {
    hide Q.Sizing, Q.Remaining, Q.LengthField;
    SubIsDistance(|x.q.reqs|, a.completed, 8);
    Q.NextCounts(x.q.next, 0, |x.q.reqs|);
    Q.TagSlot(|x.q.reqs|);
  }

  lemma StalledCommit(x: Tx, j: nat)
    requires Stalled(x, j) && Enabled(x, Commit)
    ensures Stalled(Step(x, Commit), j)
  {
    NextTarget(x.q.done);
  }

  lemma StalledBus(x: Tx, j: nat, a: Action)
    requires Stalled(x, j) && (a.Header? || a.Stray? || a.First? || a.Beat?) && Enabled(x, a)
    ensures Stalled(Step(x, a), j)
  {
    hide Q.Enabled, HostDword, Target, Written, Tolerates;
    if a.Header? { TagsDiffer(a.i, j, x.q.done); }
  }

  lemma {:induction false} StaysStalled(x: Tx, j: nat, acts: seq<Action>)
    requires Stalled(x, j)
    ensures Stalled(Run(x, acts), j)
    decreases |acts|
  {
    if acts != [] {
      StaysStalled(x, j, acts[..|acts| - 1]);
      var y, a := Run(x, acts[..|acts| - 1]), acts[|acts| - 1];
      if Enabled(y, a) {
        if a.Ask? { StalledAsk(y, j, a); }
        else if a.Commit? { StalledCommit(y, j); }
        else if a.Header? || a.Stray? || a.First? || a.Beat? { StalledBus(y, j, a); }
        hide Stalled;
      }
    }
  }

  /** After a clock that shows the tag of a request waiting for its commit, no run ever gets past that request. */
  lemma StrayStalls(x: Tx, t: nat, dw: Dword, j: nat, acts: seq<Action>)
    requires Inv(x) && x.r.fsm == S1 && x.flight.Flying? && t < TAGS && x.q.done <= j < |x.q.reqs| && Waits(x, t, j)
    ensures Run(DoStray(x, t, dw), acts).q.done <= j
  {
    WaitingStalls(x, t, dw, j);
    StaysStalled(DoStray(x, t, dw), j, acts);
    hide Inv, Run, Waits;
  }

  lemma WaitingStalls(x: Tx, t: nat, dw: Dword, j: nat)
    requires Inv(x) && x.r.fsm == S1 && x.flight.Flying? && t < TAGS && x.q.done <= j < |x.q.reqs| && Waits(x, t, j)
    ensures Stalled(DoStray(x, t, dw), j)
  {
    forall i | x.q.done <= i < |x.q.reqs| ensures x.q.reqs[i].tlp.tag % TAGS == i % TAGS {
      ReqEnd(x.q, i);
    }
    FlightBound(x);
    TagsDiffer(x.flight.i, j, x.q.done);
    hide Q.Lists, Q.Space, Q.Current, FlyingOk, FreeSlots, LiveOk, Holds;
  }

  // ----- commit, requests and reads ----------------------------------------------------------

  lemma ClosingKeeps(x: Tx)
    requires Inv(x) && Enabled(x, Commit) && x.c.closing
    ensures Inv(DoCommit(x))
  {
    var n := DoCommit(x);
    assert x.q.done < |x.q.reqs|;
    Q.CompleteKeeps(x.q);
    ClosingCommit(x);
    ClosingFree(x);
    forall j | x.q.done + 1 <= j < |x.q.reqs| ensures LiveOk(n, j) {
      ClosingLive(x, j);
    }
    hide Q.Inv, Holds, FlyingOk, LiveOk, CommitOk, FreeSlots, TxReassembly.Committed;
  }

  lemma ClosingLive(x: Tx, j: nat)
    requires Inv(x) && Enabled(x, Commit) && x.c.closing && x.q.done < j < |x.q.reqs|
    ensures LiveOk(DoCommit(x), j)
  {
    assert LiveOk(x, j);
    hide Q.Lists, Q.Space, Q.Current, Holds, FlyingOk, FreeSlots, IdleSlot, BusySlot, TxReassembly.Committed;
    TagsDiffer(x.q.done, j, x.q.done);
  }

  lemma ClosingFree(x: Tx)
    requires Inv(x) && Enabled(x, Commit) && x.c.closing
    ensures FreeSlots(DoCommit(x))
  {
    hide Q.Inv, Holds, FlyingOk, LiveOk, TxReassembly.Committed;
    var n, done := DoCommit(x), x.q.done;
    assert x.c.target == done % TAGS;
    hide CommitOk;
    forall k | |x.q.reqs| <= k < done + 1 + TAGS ensures !n.slots[k % TAGS].ready {
      if k < done + TAGS {
        FreeAt(x, k);
      } else {
        AddIsShift(done, TAGS, TAGS);
      }
    }
  }

  lemma ClosingCommit(x: Tx)
    requires Inv(x) && Enabled(x, Commit) && x.c.closing
    ensures CommitOk(DoCommit(x)) && FlyingOk(DoCommit(x))
  {
    var done := x.q.done;
    ReqEnd(x.q, done);
    if done + 1 < |x.q.reqs| { ReqEnd(x.q, done + 1); }
    NextTarget(done);
    hide Q.Inv, Holds, LiveOk, FreeSlots, BeatsOk;
  }

  lemma NextTarget(done: nat)
    ensures (done % 4 + 1) % 4 == (done + 1) % 4 && (done % 8 + 1) % 8 == (done + 1) % 8
  {
    AddIsShift(done, 1, 4);
    AddIsShift(done, 1, 8);
  }

  lemma ReadyIsLive(x: Tx)
    requires Inv(x) && x.slots[x.c.target].ready
    ensures x.q.done < |x.q.reqs|
  {
    hide Q.Lists, Q.Space, Q.Current, Holds, FlyingOk, LiveOk;
    if x.q.done == |x.q.reqs| { FreeAt(x, x.q.done); }
  }

  lemma FreeAt(x: Tx, k: nat)
    requires Inv(x) && |x.q.reqs| <= k < x.q.done + TAGS
    ensures !x.slots[k % TAGS].ready
  {
    hide Q.Inv, Holds, FlyingOk, LiveOk;
  }

  /** What the target's registers say when they have something to commit. */
  lemma ReadyFacts(x: Tx)
    requires Inv(x) && x.slots[x.c.target].ready
    ensures var done := x.q.done;
            && done < |x.q.reqs| && x.slots[x.c.target].addr == Ptr(WriteCount(x, done))
            && (x.slots[x.c.target].received == x.slots[x.c.target].size <==> x.got[done] == 2 * x.q.reqs[done].size)
            && x.committed <= WriteCount(x, done)
            && Holds(x.ring, x.stream, Max(x.q.read, x.q.reqs[done].base), WriteCount(x, done))
            && x.q.reqs[done].base <= x.committed
  {
    ReadyIsLive(x);
    hide Q.Inv, FlyingOk, Holds, FreeSlots;
    ReqEnd(x.q, x.q.done);
    assert LiveOk(x, x.q.done);
  }

  lemma HoldsJoin(ring: seq<Qword>, stream: seq<Qword>, lo: nat, mid: nat, from: nat, hi: nat)
    requires Holds(ring, stream, lo, mid) && Holds(ring, stream, from, hi) && from <= Max(lo, mid)
    ensures Holds(ring, stream, lo, hi)
  {
  }

  lemma CommitKeeps(x: Tx)
    requires Inv(x) && Enabled(x, Commit)
    ensures Inv(DoCommit(x))
  {
    if x.c.closing {
      ClosingKeeps(x);
    } else if x.slots[x.c.target].ready {
      ReadyKeeps(x);
    }
  }

  lemma ReadyKeeps(x: Tx)
    requires Inv(x) && Enabled(x, Commit) && !x.c.closing && x.slots[x.c.target].ready
    ensures Inv(DoCommit(x))
  {
    var n, done := DoCommit(x), x.q.done;
    ReadyFacts(x);
    assert CommitOk(n);
    HoldsJoin(x.ring, x.stream, x.q.read, x.committed, Max(x.q.read, x.q.reqs[done].base), WriteCount(x, done));
    hide Q.Inv, Holds, FlightOk, CommitOk, FreeSlots, IdleSlot, BusySlot;
    assert FreeSlots(n);
    forall j | done <= j < |x.q.reqs| ensures LiveOk(n, j) {
      assert LiveOk(x, j);
    }
  }

  /** Qwords requested later leave everything received so far alone. */
  lemma StreamGrows(x: Tx, longer: seq<Qword>, i: nat)
    requires Inv(x) && x.stream <= longer && x.q.done <= i < |x.q.reqs|
    ensures LiveOk(x.(stream := longer), i)
  {
    ReqEnd(x.q, i);
    assert LiveOk(x, i);
    hide Q.Inv, CommitOk, FlyingOk, FreeSlots, BusySlot;
    var g := x.got[i];
    if g > 0 { SameDword(x.stream, longer, x.q.reqs[i].base, g - 1); }
    hide HostDword;
  }

  lemma SameDword(stream: seq<Qword>, longer: seq<Qword>, base: nat, g: nat)
    requires stream <= longer && base + g / 2 < |stream|
    ensures HostDword(stream, base, g) == HostDword(longer, base, g)
  {
  }

  lemma FlightGrows(x: Tx, longer: seq<Qword>)
    requires Inv(x) && x.stream <= longer
    ensures FlyingOk(x.(stream := longer))
  {
    hide Q.Inv, CommitOk, FreeSlots, LiveOk, Holds;
    if x.flight.Flying? {
      ReqEnd(x.q, x.flight.i);
      if x.got[x.flight.i] > 0 {
        SameDword(x.stream, longer, x.q.reqs[x.flight.i].base, x.got[x.flight.i] - 1);
      }
    }
    hide HostDword;
  }

  lemma PostKeeps(x: Tx, addr: nat, data: seq<Qword>)
    requires Inv(x) && Enabled(x, Post(addr, data)) && Q.SafeSize(|data|)
    ensures Inv(Step(x, Post(addr, data)))
  {
    Q.PostKeeps(x.q, addr, |data|);
    FlightGrows(x, x.stream + data);
    var y := Step(x, Post(addr, data));
    forall j | x.q.done <= j < |x.q.reqs| ensures LiveOk(y, j) {
      StreamGrows(x, x.stream + data, j);
      hide Q.Inv, Holds, FlightOk, IdleSlot, BusySlot, CommitOk, FreeSlots;
    }
    assert Shape(y);
    hide Q.Inv, FlightOk, LiveOk, FreeSlots;
    HoldsGrows(x.ring, x.stream, x.stream + data, x.q.read, x.committed);
    assert y.stream[..x.q.read] == x.stream[..x.q.read];
  }

  lemma HoldsGrows(ring: seq<Qword>, stream: seq<Qword>, longer: seq<Qword>, lo: nat, hi: nat)
    requires Holds(ring, stream, lo, hi) && stream <= longer
    ensures Holds(ring, longer, lo, hi)
  {
  }

  lemma ReadKeeps(x: Tx, count: nat)
    requires Inv(x) && Enabled(x, Read(count))
    ensures Inv(Step(x, Read(count)))
  {
    ReadLimit(x, count);
    Q.ReadKeeps(x.q, count);
    OutGrows(x, count);
    var y := Step(x, Read(count));
    hide Q.Inv, FlightOk, IdleSlot, BusySlot, ReadOut;
    forall j | x.q.done <= j < |x.q.reqs| ensures LiveOk(y, j) {
      assert LiveOk(x, j);
    }
  }

  lemma ReadLimit(x: Tx, count: nat)
    requires Inv(x) && Enabled(x, Read(count))
    ensures Q.Enabled(x.q, Q.Read(count)) && count <= x.q.next
  {
    hide LiveOk, Holds, FlyingOk, FreeSlots;
    if x.q.done < |x.q.reqs| {
      ReqEnd(x.q, x.q.done);
      assert LiveOk(x, x.q.done) ==> x.got[x.q.done] <= 2 * x.q.reqs[x.q.done].size by { GotBound(x, x.q.done); }
    }
  }

  lemma GotBound(x: Tx, i: nat)
    requires Inv(x) && x.q.done <= i < |x.q.reqs|
    ensures x.got[i] <= 2 * x.q.reqs[i].size
  {
    assert LiveOk(x, i);
  }

  lemma OutGrows(x: Tx, count: nat)
    requires Inv(x) && x.q.read <= count <= x.committed <= |x.stream|
    ensures x.out + ReadOut(x.ring, x.q.read, count) == x.stream[..count]
  {
    var a := ReadOut(x.ring, x.q.read, count);
    forall k | 0 <= k < |a| ensures a[k] == x.stream[x.q.read + k] {
    }
    hide Q.Inv, CommitOk, FlyingOk, FreeSlots, LiveOk;
    assert a == x.stream[x.q.read..count];
  }

  /** A new request joins the outstanding ones. */
  lemma AskKeeps(x: Tx, older: nat, seen: nat, completed: nat)
    requires Inv(x) && Enabled(x, Ask(older, seen, completed))
    ensures Inv(Step(x, Ask(older, seen, completed)))
  {
    Q.AskKeeps(x.q, older, seen, completed);
    Q.SizeFits(x.q, older, seen, completed);
    hide Q.AskSize, Q.Inv, Inv;
    var size := Q.AskSize(x.q, older, seen, completed);
    if size == 0 {
      NoAskKeeps(x, seen);
    } else {
      NewAskKeeps(x, seen, size);
    }
  }

  lemma NoAskKeeps(x: Tx, seen: nat)
    requires Inv(x) && Q.Inv(Q.DoAsk(x.q, seen, 0))
    ensures Inv(x.(q := Q.DoAsk(x.q, seen, 0)))
  {
    var y := x.(q := Q.DoAsk(x.q, seen, 0));
    hide Q.Inv, Holds, FlightOk, IdleSlot, BusySlot;
    forall j | x.q.done <= j < |x.q.reqs| ensures LiveOk(y, j) {
      assert LiveOk(x, j);
    }
  }

  /** A request of `size` qwords may go out now. */
  ghost predicate Fits(x: Tx, size: nat)
    requires x.q.r.Typed()
  {
    0 < size <= RING && size <= Q.Remaining(x.q.r) && |x.q.reqs| < x.q.done + 4
  }

  lemma NewAskKeeps(x: Tx, seen: nat, size: nat)
    requires Inv(x) && Fits(x, size) && Q.Inv(Q.DoAsk(x.q, seen, size))
    ensures Inv(DoAsk(x, seen, size))
  {
    var y, n := DoAsk(x, seen, size), |x.q.reqs|;
    NewLive(x, seen, size);
    NewCommit(x, seen, size);
    NewFree(x, seen, size);
    NewShape(x, seen, size);
    forall j | x.q.done <= j < |y.q.reqs| ensures LiveOk(y, j) {
      if j < n { OldLive(x, seen, size, j); }
    }
    hide Q.Inv, LiveOk, FreeSlots, CommitOk, FlightOk, Shape, Holds;
  }

  lemma NewShape(x: Tx, seen: nat, size: nat)
    requires Inv(x) && Fits(x, size)
    ensures Shape(DoAsk(x, seen, size)) && FlyingOk(DoAsk(x, seen, size))
  {
    hide Q.Space, Q.Lists, FlightOk, LiveOk, Holds, CommitOk, FreeSlots;
    Q.IssuedCounts(x.q.r, size);
  }

  lemma OldLive(x: Tx, seen: nat, size: nat, j: nat)
    requires Inv(x) && Fits(x, size) && x.q.done <= j < |x.q.reqs|
    ensures LiveOk(DoAsk(x, seen, size), j)
  {
    TagsDiffer(j, |x.q.reqs|, x.q.done);
    SlotOfTag(x);
    assert LiveOk(x, j);
    hide Q.Inv, Holds, IdleSlot, BusySlot, FlyingOk, CommitOk, FreeSlots, Claim;
  }

  lemma SlotOfTag(x: Tx)
    requires Inv(x)
    ensures x.q.r.tag % TAGS == |x.q.reqs| % TAGS && x.q.r.nextWr == Ptr(x.q.next)
  {
    hide Q.Space, Q.Current, Q.Lists, CommitOk, FlyingOk, FreeSlots, LiveOk, Holds;
    Q.TagSlot(|x.q.reqs|);
  }

  lemma NewLive(x: Tx, seen: nat, size: nat)
    requires Inv(x) && Fits(x, size)
    ensures LiveOk(DoAsk(x, seen, size), |x.q.reqs|)
  {
    SlotOfTag(x);
    FreeAt(x, |x.q.reqs|);
    hide Q.Inv, FreeSlots, LiveOk, Q.LengthField, Q.Issued;
    assert !Busy(x, |x.q.reqs|);
    hide FlyingOk, CommitOk;
    var y := DoAsk(x, seen, size);
    assert IdleSlot(y.slots[|x.q.reqs| % TAGS], y.q.reqs[|x.q.reqs|], 0, y.stream);
    hide Inv;
    NewIsLive(y, |x.q.reqs|);
  }

  lemma NewIsLive(y: Tx, i: nat)
    requires Live(y, i) && y.got[i] == 0 && !Busy(y, i) && IdleSlot(y.slots[i % TAGS], y.q.reqs[i], 0, y.stream)
    requires y.q.reqs[i].base <= |y.stream| && y.q.reqs[i].size > 0
    ensures LiveOk(y, i)
  {
  }

  lemma NewCommit(x: Tx, seen: nat, size: nat)
    requires Inv(x) && Fits(x, size)
    ensures CommitOk(DoAsk(x, seen, size))
  {
    if x.q.done < |x.q.reqs| { ReqEnd(x.q, x.q.done); }
    hide Q.Lists, Q.Space, Q.Current, LiveOk, Holds, FlyingOk, FreeSlots, Q.LengthField, Q.Issued, Claim;
  }

  lemma NewFree(x: Tx, seen: nat, size: nat)
    requires Inv(x) && Fits(x, size)
    ensures FreeSlots(DoAsk(x, seen, size))
  {
    SlotOfTag(x);
    hide Q.Inv, LiveOk, Holds, FlyingOk, CommitOk, Q.LengthField, Q.Issued;
    var y, n := DoAsk(x, seen, size), |x.q.reqs|;
    forall k | n + 1 <= k < x.q.done + TAGS ensures !y.slots[k % TAGS].ready {
      TagsDiffer(n, k, x.q.done);
    }
  }

  lemma StepKeeps(x: Tx, a: Action)
    requires Inv(x) && (a.Post? ==> Q.SafeSize(|a.data|))
    ensures Inv(Step(x, a))
  {
    if Enabled(x, a) {
      match a {
        case Post(addr, data) => PostKeeps(x, addr, data);
        case Ask(older, seen, completed) => AskKeeps(x, older, seen, completed);
        case Header(i, len) => HeaderKeeps(x, i, len);
        case Stray(tag, dw) => StrayKeeps(x, tag % TAGS, dw);
        case First => FirstKeeps(x);
        case Beat(_, _, _) => BeatKeeps(x, a);
        case Commit => CommitKeeps(x);
        case Read(count) => ReadKeeps(x, count);
      }
    }
  }

  ghost predicate SafePosts(acts: seq<Action>) { forall a :: a in acts && a.Post? ==> Q.SafeSize(|a.data|) }

  lemma {:induction false} RunKeeps(slots: seq<Slot>, ring: seq<Qword>, look: Look, acts: seq<Action>)
    requires ResetOk(slots, ring) && SafePosts(acts)
    ensures Inv(Run(Init(slots, ring, look), acts))
    decreases |acts|
  {
    if acts == [] {
      InitInv(slots, ring, look);
    } else {
      RunKeeps(slots, ring, look, acts[..|acts| - 1]);
      StepKeeps(Run(Init(slots, ring, look), acts[..|acts| - 1]), acts[|acts| - 1]);
    }
  }

  // ----- main results ------------------------------------------------------------------------

  /** The contents of the buffers whose posting was taken. */
  ghost function Posted(x: Tx, acts: seq<Action>): seq<Qword>
    decreases |acts|
  {
    if acts == [] then []
    else
      var before, a := acts[..|acts| - 1], acts[|acts| - 1];
      Posted(x, before) + if a.Post? && Enabled(Run(x, before), a) then a.data else []
  }

  lemma StepStream(x: Tx, a: Action)
    ensures Step(x, a).stream == x.stream + if a.Post? && Enabled(x, a) then a.data else []
  {
    hide Enabled;
  }

  lemma {:induction false} StreamIsPosted(x: Tx, acts: seq<Action>)
    ensures Run(x, acts).stream == x.stream + Posted(x, acts)
    decreases |acts|
  {
    hide Step, Enabled;
    if acts != [] {
      var before, a := acts[..|acts| - 1], acts[|acts| - 1];
      StreamIsPosted(x, before);
      StepStream(Run(x, before), a);
      assert x.stream + Posted(x, acts)
          == (x.stream + Posted(x, before)) + if a.Post? && Enabled(Run(x, before), a) then a.data else [];
    }
  }

  /** In every run, whatever the completions' sizes and order, and with bus clocks without data anywhere (in
      state s1 those that show a tag it tolerates): what is read out is a prefix of the posted buffers' contents,
      as long as every posted size is safe. */
  lemma ReadOutIsPosted(slots: seq<Slot>, ring: seq<Qword>, look: Look, acts: seq<Action>)
    requires ResetOk(slots, ring) && SafePosts(acts)
    ensures var x := Run(Init(slots, ring, look), acts); var posted := Posted(Init(slots, ring, look), acts);
            x.q.read <= |posted| && x.out == posted[..x.q.read]
  {
    hide Inv, Run, Posted, SafePosts, ResetOk;
    var start := Init(slots, ring, look);
    RunKeeps(slots, ring, look, acts);
    StreamIsPosted(start, acts);
    OutIsPrefix(Run(start, acts));
    NothingBefore(start.stream, Posted(start, acts));
  }

  lemma NothingBefore<T>(a: seq<T>, b: seq<T>)
    ensures a == [] ==> a + b == b
  {
  }

  lemma OutIsPrefix(x: Tx)
    requires Inv(x)
    ensures x.q.read <= |x.stream| && x.out == x.stream[..x.q.read]
  {
    hide FlyingOk, FreeSlots, LiveOk, Q.Lists, Q.Current;
  }

  lemma CommitStep(x: Tx, a: Action)
    requires Inv(x) && (a.Post? ==> Q.SafeSize(|a.data|))
    ensures var n := Step(x, a);
            && x.committed <= n.committed && n.c.committed == Ptr(n.committed)
            && n.q.read <= n.committed <= n.q.next <= n.q.read + RING
            && Holds(n.ring, n.stream, n.q.read, n.committed)
  {
    StepKeeps(x, a);
    CommittedBound(Step(x, a));
    if a == Commit && Enabled(x, a) && !x.c.closing && x.slots[x.c.target].ready { ReadyFacts(x); }
    hide Inv, Q.DoAsk, Q.DoPost, DoBeat, ReadOut;
  }

  lemma CommittedBound(x: Tx)
    requires Inv(x)
    ensures x.q.read <= x.committed <= x.q.next <= x.q.read + RING && x.c.committed == Ptr(x.committed)
    ensures Holds(x.ring, x.stream, x.q.read, x.committed)
  {
    if x.q.done < |x.q.reqs| {
      ReqEnd(x.q, x.q.done);
      GotBound(x, x.q.done);
    }
    hide FlyingOk, FreeSlots, LiveOk, Holds, Q.Lists, Q.Current;
  }

  /** Every outstanding request has got all its dwords. */
  ghost predicate AllReceived(x: Tx) {
    && |x.got| == |x.q.reqs| && x.r.fsm == S0
    && forall i :: x.q.done <= i < |x.q.reqs| ==> x.got[i] == 2 * x.q.reqs[i].size
  }

  /** The clocks the commit machine still needs. */
  function ToCommit(x: Tx): int { 2 * (|x.q.reqs| - x.q.done) - if x.c.closing then 1 else 0 }

  lemma CommitProgress(x: Tx)
    requires Inv(x) && AllReceived(x) && x.q.done < |x.q.reqs|
    ensures Enabled(x, Commit) && Inv(Step(x, Commit)) && AllReceived(Step(x, Commit))
    ensures ToCommit(Step(x, Commit)) == ToCommit(x) - 1 && Step(x, Commit).q.next == x.q.next
  {
    StepKeeps(x, Commit);
    ReqEnd(x.q, x.q.done);
    assert LiveOk(x, x.q.done);
    hide Q.Inv, FreeSlots, Holds, FlyingOk;
  }

  ghost function Commits(x: Tx, n: nat): Tx
    decreases n
  {
    if n == 0 then x else Commits(Step(x, Commit), n - 1)
  }

  lemma AllCommitted(x: Tx)
    requires Inv(x) && x.q.done == |x.q.reqs|
    ensures x.committed == x.q.next && ToCommit(x) == 0
  {
    hide Q.Inv, FreeSlots, Holds, FlyingOk, LiveOk;
  }

  lemma ToCommitBound(x: Tx)
    requires Inv(x)
    ensures ToCommit(x) >= 0 && (x.q.done < |x.q.reqs| ==> ToCommit(x) > 0) && x.q.done <= |x.q.reqs|
  {
    hide Q.Inv, FreeSlots, Holds, FlyingOk, LiveOk;
  }

  lemma NoCommits(x: Tx)
    ensures Commits(x, 0) == x
  {
  }

  lemma CommitsOnce(x: Tx, n: nat)
    requires n > 0
    ensures Commits(x, n) == Commits(Step(x, Commit), n - 1)
  {
    hide Step;
  }

  lemma {:induction false} CatchesUp(x: Tx)
    requires Inv(x) && AllReceived(x)
    ensures ToCommit(x) >= 0 && Commits(x, ToCommit(x)).committed == x.q.next
    decreases ToCommit(x)
  {
    hide Inv, AllReceived, Step, ToCommit, Commits, Enabled;
    ToCommitBound(x);
    if x.q.done < |x.q.reqs| {
      CommitProgress(x);
      CommitsOnce(x, ToCommit(x));
      CatchesUp(Step(x, Commit));
    } else {
      AllCommitted(x);
      NoCommits(x);
    }
  }

  /** In every run with safe sizes: the committed pointer only advances, and everything before it that is not
      yet read is in the ring in its final form, in request order. */
  lemma CommitInOrder(slots: seq<Slot>, ring: seq<Qword>, look: Look, acts: seq<Action>, a: Action)
    requires ResetOk(slots, ring) && SafePosts(acts) && (a.Post? ==> Q.SafeSize(|a.data|))
    ensures var x := Run(Init(slots, ring, look), acts); var n := Step(x, a);
            && x.committed <= n.committed && n.c.committed == Ptr(n.committed)
            && n.q.read <= n.committed <= n.q.next <= n.q.read + RING
            && Holds(n.ring, n.stream, n.q.read, n.committed)
  {
    hide Inv, Run, Step, Holds;
    RunKeeps(slots, ring, look, acts);
    CommitStep(Run(Init(slots, ring, look), acts), a);
  }

  /** In every run with safe sizes: once all requests are answered, in whatever order, the committed pointer
      reaches the last of them in two clocks each. */
  lemma CommitCatchesUp(slots: seq<Slot>, ring: seq<Qword>, look: Look, acts: seq<Action>)
    requires ResetOk(slots, ring) && SafePosts(acts) && AllReceived(Run(Init(slots, ring, look), acts))
    ensures var x := Run(Init(slots, ring, look), acts);
            0 <= ToCommit(x) <= 2 * (|x.q.reqs| - x.q.done) && Commits(x, ToCommit(x)).committed == x.q.next
  {
    hide Inv, Run, AllReceived, Commits;
    RunKeeps(slots, ring, look, acts);
    CatchesUp(Run(Init(slots, ring, look), acts));
  }
}
