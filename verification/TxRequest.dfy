/** The transmit side's read requests: how much of a posted buffer is asked for next, given the space
    in the 512-qword ring, and the tags the requests carry.  One request is one step. */
module TxRequest {
  import opened Ring

  const U32: nat := 0x1_0000_0000
  const U64: nat := 0x1_0000_0000_0000_0000

  /** Bit 9 of a 10-bit sum. */
  predicate Bit9(x: nat) { x % SPAN >= RING }

  /** The largest chunk that leaves the sum below a ring, or none. */
  function Chunk(aux: nat): nat {
    if !Bit9(aux + 0x100) then 0x100
    else if !Bit9(aux + 0x80) then 0x80
    else if !Bit9(aux + 0x40) then 0x40
    else if !Bit9(aux + 0x20) then 0x20
    else if !Bit9(aux + 0x10) then 0x10
    else 0
  }

  /** `size` is the largest power of two from 256 down to 16 that leaves a ring with `aux` reserved slots not
      full, or zero when 16 would already fill it. */
  predicate Largest(aux: nat, size: nat) {
    && (size == 0 || size == 0x10 || size == 0x20 || size == 0x40 || size == 0x80 || size == 0x100)
    && (size > 0 ==> aux + size < RING)
    && (if size == 0 then aux + 0x10 >= RING else size == 0x100 || aux + 2 * size >= RING)
  }

  /** States s2 to s4: `diff` is the reserved space as last registered, `aux` the same a clock earlier;
      zero means to wait. */
  function Sizing(diff: nat, aux: nat, remaining: nat): nat {
    if remaining > RING then (if diff == 0 then RING else Chunk(aux))
    else if !Bit9(aux + remaining) then remaining
    else Chunk(aux)
  }

  datatype Regs = Regs(nextWr: nat, readFrom: nat, counter: nat, pageQwords: nat, sent: nat, tag: nat) {
    ghost predicate Typed() {
      nextWr < SPAN && readFrom < U64 && counter < U32 && pageQwords < U32 && sent < 8 && tag < 16
    }
  }

  /** A memory read request: its length field counts dwords modulo 1024. */
  datatype ReadTlp = ReadTlp(addr: nat, length: nat, tag: nat)

  function LengthField(size: nat): (f: nat)
    ensures f < 1024 && f % 2 == 0
  {
    2 * (size % 512)
  }

  /** Section 2.2.2 of the PCI Express Base Specification: a length of zero stands for 1024 dwords. */
  function LengthInDwords(field: nat): nat { if field == 0 then 1024 else field }

  /** The field means the size asked for exactly if that is not zero: a request for an empty buffer would ask
      for 1024 dwords, which is why none may be posted. */
  lemma LengthIsSize(size: nat)
    requires size <= RING
    ensures LengthInDwords(LengthField(size)) == 2 * size <==> size > 0
    ensures LengthInDwords(LengthField(0)) == 1024
  {
  }

  function Remaining(r: Regs): nat
    requires r.Typed()
  {
    Sub(r.pageQwords, r.counter, U32)
  }

  /** States s1 to s8 for a request of `size` qwords, taken over by the transmitter. */
  function Issued(r: Regs, size: nat): Regs {
    r.(nextWr := (r.nextWr + size) % SPAN, readFrom := (r.readFrom + 8 * size) % U64,
       counter := (r.counter + size) % U32, sent := (r.sent + 1) % 8, tag := (r.tag + 1) % 16)
  }

  /** What state s1 waits for, given the completed count as registered. */
  predicate MayAsk(r: Regs, completed: nat)
    requires r.Typed() && completed < 8
  {
    Sub(r.sent, completed, 8) < 4
  }

  /** The size of the next request as the machine decides it from two successive read pointers. */
  function Size(r: Regs, rdOlder: nat, rd: nat, completed: nat): nat
    requires r.Typed() && rdOlder < SPAN && rd < SPAN && completed < 8
  {
    if Remaining(r) > 0 && MayAsk(r, completed)
    then Sizing(Sub(r.nextWr, rd, SPAN), Sub(r.nextWr, rdOlder, SPAN), Remaining(r))
    else 0
  }

  class RequestEngine {
    var nextWr: nat
    var readFrom: nat
    var counter: nat
    var pageQwords: nat
    var sent: nat
    var tag: nat

    ghost function State(): Regs
      reads this
    {
      Regs(nextWr, readFrom, counter, pageQwords, sent, tag)
    }

    constructor ()
      ensures State() == Reset()
    {
      nextWr, readFrom, counter, pageQwords, sent, tag := 0, 0, 0, 0, 0, 0;
    }

    /** State s0: start on a posted buffer. */
    method TakePage(addr: nat, qwords: nat)
      modifies this
      ensures State() == old(State()).(readFrom := addr, counter := 0, pageQwords := qwords)
    {
      readFrom, counter, pageQwords := addr, 0, qwords;
    }

    /** States s1 to s8: decide on a size and hand the request over, or wait. */
    method Ask(rdOlder: nat, rd: nat, completed: nat) returns (size: nat, t: ReadTlp)
      requires State().Typed() && rdOlder < SPAN && rd < SPAN && completed < 8
      modifies this
      ensures size == old(Size(State(), rdOlder, rd, completed))
      ensures t == old(ReadTlp(readFrom, LengthField(size), tag))
      ensures State() == if size > 0 then Issued(old(State()), size) else old(State())
    {
      size := 0;
      var remaining := Sub(pageQwords, counter, U32);
      if remaining > 0 && Sub(sent, completed, 8) < 4 {
        var diff, aux := Sub(nextWr, rd, SPAN), Sub(nextWr, rdOlder, SPAN);
        if remaining > RING {
          if diff == 0 { size := RING; } else { size := PickChunk(aux); }
        } else if (aux + remaining) % SPAN < RING {
          size := remaining;
        } else {
          size := PickChunk(aux);
        }
      }
      t := ReadTlp(readFrom, LengthField(size), tag);
      if size > 0 {
        nextWr, readFrom := (nextWr + size) % SPAN, (readFrom + 8 * size) % U64;
        counter, sent, tag := (counter + size) % U32, (sent + 1) % 8, (tag + 1) % 16;
      }
    }

    /** With no more than a ring reserved, the largest chunk that fits. */
    static method PickChunk(aux: nat) returns (size: nat)
      ensures aux <= RING ==> Largest(aux, size)
      ensures size == Chunk(aux)
    {
      if aux <= RING { ChunkIsLargest(aux); }
      if (aux + 0x100) % SPAN < RING { return 0x100; }
      if (aux + 0x80) % SPAN < RING { return 0x80; }
      if (aux + 0x40) % SPAN < RING { return 0x40; }
      if (aux + 0x20) % SPAN < RING { return 0x20; }
      if (aux + 0x10) % SPAN < RING { return 0x10; }
      return 0;
    }
  }

  function Reset(): Regs { Regs(0, 0, 0, 0, 0, 0) }

  // ----- runs --------------------------------------------------------------------------------

  /** A posted buffer: its address and size, and how many qwords and requests went before it. */
  datatype Buffer = Buffer(addr: nat, qwords: nat, start: nat, first: nat)

  /** A request for the qwords `base` to `base + size` of everything requested, from the `nth` buffer. */
  datatype Request = Request(base: nat, size: nat, nth: nat, tlp: ReadTlp)

  /** The machine with unbounded counts: qwords requested (`next`), read out of the ring (`read`), read as
      far as a request could tell (`seen`), and requests completed (`done`). */
  datatype Requester = Requester(r: Regs, next: nat, seen: nat, read: nat, done: nat,
                                 reqs: seq<Request>, buffers: seq<Buffer>)

  function Init(): Requester { Requester(Reset(), 0, 0, 0, 0, [], []) }

  datatype Action =
    | Post(addr: nat, qwords: nat)
    | Ask(seenOlder: nat, seen: nat, completed: nat)
    | Complete
    | Read(count: nat)

  /** The qwords of the first `n` requests. */
  function End(reqs: seq<Request>, n: nat): nat
    requires n <= |reqs|
  {
    if n == 0 then 0 else reqs[n - 1].base + reqs[n - 1].size
  }

  /** Qwords up to here can have been committed: those of all completed requests and of the next one. */
  function Limit(reqs: seq<Request>, done: nat): nat
    requires done <= |reqs|
  {
    End(reqs, if done < |reqs| then done + 1 else done)
  }

  /** Buffers are posted one after the other, none empty, none beyond the address space; the read count is
      seen late but in order; the completed count is registered once. */
  ghost predicate Enabled(q: Requester, a: Action) {
    match a
    case Post(addr, n) => q.r.Typed() && Remaining(q.r) == 0 && 1 <= n < U32 && addr + 8 * n < U64
    case Ask(older, seen, completed) =>
      q.r.Typed() && q.seen <= older <= seen <= q.read && completed <= q.done <= completed + 1
    case Complete => q.done < |q.reqs|
    case Read(count) => q.done <= |q.reqs| && q.read <= count <= Limit(q.reqs, q.done)
  }

  function AskSize(q: Requester, older: nat, seen: nat, completed: nat): nat
    requires q.r.Typed()
  {
    Size(q.r, older % SPAN, seen % SPAN, completed % 8)
  }

  function DoAsk(q: Requester, seen: nat, size: nat): Requester
    requires q.r.Typed()
  {
    if size == 0 then q.(seen := seen)
    else
      var t := ReadTlp(q.r.readFrom, LengthField(size), q.r.tag);
      q.(r := Issued(q.r, size), seen := seen, next := q.next + size,
         reqs := q.reqs + [Request(q.next, size, |q.buffers|, t)])
  }

  function DoPost(q: Requester, addr: nat, n: nat): Requester {
    q.(r := q.r.(readFrom := addr, counter := 0, pageQwords := n),
       buffers := q.buffers + [Buffer(addr, n, q.next, |q.reqs|)])
  }

  ghost function Step(q: Requester, a: Action): Requester {
    if !Enabled(q, a) then q
    else
      match a
      case Post(addr, n) => DoPost(q, addr, n)
      case Ask(older, seen, completed) => DoAsk(q, seen, AskSize(q, older, seen, completed))
      case Complete => q.(done := q.done + 1)
      case Read(count) => q.(read := count)
  }

  ghost function Run(q: Requester, acts: seq<Action>): Requester
    decreases |acts|
  {
    if acts == [] then q else Step(Run(q, acts[..|acts| - 1]), acts[|acts| - 1])
  }

  // ----- the sizing decision -----------------------------------------------------------------

  lemma Bit9Is(x: nat)
    requires x <= SPAN
    ensures Bit9(x) <==> RING <= x < SPAN
  {
  }

  /** Short of a ring, the chunk is the largest of 256, 128, 64, 32 and 16 that leaves the ring not full, and
      there is none exactly when 16 do not fit. */
  lemma ChunkIsLargest(aux: nat)
    requires aux <= RING
    ensures Largest(aux, Chunk(aux))
  {
    Bit9Is(aux + 0x100);
    Bit9Is(aux + 0x80);
    Bit9Is(aux + 0x40);
    Bit9Is(aux + 0x20);
    Bit9Is(aux + 0x10);
    hide Bit9;
  }

  lemma LargestFits(aux: nat, size: nat)
    requires aux <= RING && Largest(aux, size)
    ensures size % 16 == 0 && size <= 0x100 && (size > 0 ==> aux + size < RING)
  {
  }

  /** A request overruns the ring in exactly one case: half the pointer range reserved as seen a clock
      earlier, exactly a ring's worth left to ask for, and the space not yet seen to be free. */
  lemma SizingFitsIff(diff: nat, aux: nat, remaining: nat)
    requires diff <= aux <= RING && 1 <= remaining
    ensures diff + Sizing(diff, aux, remaining) <= RING <==> !(aux == RING && remaining == RING && diff > 0)
    ensures Sizing(diff, aux, remaining) <= remaining
    ensures Sizing(diff, aux, remaining) < remaining ==> Sizing(diff, aux, remaining) % 16 == 0
  {
    if remaining <= RING { Bit9Is(aux + remaining); }
    ChunkFits(aux, remaining);
    hide Chunk, Bit9;
  }

  lemma ChunkFits(aux: nat, remaining: nat)
    requires aux <= RING
    ensures Chunk(aux) % 16 == 0 && (Chunk(aux) > 0 ==> aux + Chunk(aux) < RING)
    ensures remaining > RING || aux + remaining >= RING ==> Chunk(aux) <= remaining
  {
    ChunkIsLargest(aux);
    LargestFits(aux, Chunk(aux));
    hide Chunk, Largest;
  }

  /** Otherwise only a whole-ring chunk into the empty ring fills it, and then more is to come. */
  lemma FillsOnlyByChunk(diff: nat, aux: nat, remaining: nat)
    requires diff <= aux <= RING && 1 <= remaining && !(aux == RING && remaining == RING)
    requires Sizing(diff, aux, remaining) > 0 && diff + Sizing(diff, aux, remaining) >= RING
    ensures diff == 0 && remaining > RING && Sizing(diff, aux, remaining) == RING
  {
    if remaining <= RING { Bit9Is(aux + remaining); }
    ChunkFits(aux, remaining);
    hide Chunk, Bit9;
  }

  // ----- the invariant -----------------------------------------------------------------------

  /** The buffer sizes for which the overrun cannot happen. */
  predicate SafeSize(n: nat) { !(n >= 1024 && n % 16 == 0) }

  ghost predicate Counts(q: Requester) {
    && q.r.nextWr == q.next % SPAN && q.r.sent == |q.reqs| % 8 && q.r.tag == |q.reqs| % 16
    && q.done <= |q.reqs| <= q.done + 4
    && q.next == End(q.reqs, |q.reqs|)
  }

  /** Reserved space never exceeds the ring, and the overrun case is not about to happen. */
  ghost predicate Space(q: Requester)
    requires q.r.Typed()
  {
    && q.seen <= q.read <= q.next <= q.seen + RING
    && (Remaining(q.r) == 0 || Remaining(q.r) == RING ==> q.next < q.seen + RING)
    && (Remaining(q.r) > 0 ==> SafeSize(q.r.pageQwords) && Remaining(q.r) % 16 == q.r.pageQwords % 16)
  }

  /** The buffer being requested: what is asked for so far, and from where it goes on. */
  ghost predicate Current(q: Requester) {
    && q.r.counter <= q.r.pageQwords
    && (q.buffers == [] ==> q.r.pageQwords == q.next == |q.reqs| == 0)
    && (q.buffers != [] ==>
          var b := q.buffers[|q.buffers| - 1];
          && b.qwords == q.r.pageQwords && b.start + q.r.counter == q.next && b.addr + 8 * b.qwords < U64
          && q.r.readFrom == b.addr + 8 * q.r.counter && b.first <= |q.reqs| && End(q.reqs, b.first) == b.start)
  }

  /** Request `k` continues where the one before ended, stays inside its buffer, and its TLP asks for exactly
      those qwords. */
  ghost predicate RequestOk(reqs: seq<Request>, buffers: seq<Buffer>, k: nat)
    requires k < |reqs|
  {
    var q := reqs[k];
    && q.base == End(reqs, k) && 1 <= q.size <= RING && 1 <= q.nth <= |buffers|
    && var b := buffers[q.nth - 1];
       && b.first <= k && (q.nth < |buffers| ==> k < buffers[q.nth].first)
       && b.start <= q.base && q.base + q.size <= b.start + b.qwords
       && q.tlp.addr == b.addr + 8 * (q.base - b.start)
       && LengthInDwords(q.tlp.length) == 2 * q.size && q.tlp.tag == k % 16
  }

  /** A buffer before the current one has been requested from its start to its end. */
  ghost predicate BufferDone(reqs: seq<Request>, buffers: seq<Buffer>, k: nat)
    requires k + 1 < |buffers|
  {
    var b, c := buffers[k], buffers[k + 1];
    && b.first <= c.first <= |reqs| && End(reqs, b.first) == b.start
    && End(reqs, c.first) == c.start == b.start + b.qwords
  }

  ghost predicate Lists(reqs: seq<Request>, buffers: seq<Buffer>) {
    && (forall k :: 0 <= k < |reqs| ==> RequestOk(reqs, buffers, k))
    && (forall k :: 0 <= k < |buffers| - 1 ==> BufferDone(reqs, buffers, k))
  }

  ghost predicate Inv(q: Requester) {
    && q.r.Typed() && Counts(q) && Space(q) && Current(q) && Lists(q.reqs, q.buffers)
    && q.read <= Limit(q.reqs, q.done)
  }

  /** All posted sizes are safe ones. */
  ghost predicate SafePosts(acts: seq<Action>) { forall a :: a in acts && a.Post? ==> SafeSize(a.qwords) }

  lemma AskDistances(q: Requester, older: nat, seen: nat, completed: nat)
    requires Inv(q) && Enabled(q, Ask(older, seen, completed))
    ensures Sub(q.r.nextWr, seen % SPAN, SPAN) == q.next - seen
    ensures Sub(q.r.nextWr, older % SPAN, SPAN) == q.next - older
    ensures Sub(q.r.sent, completed % 8, 8) == |q.reqs| - completed
  {
    hide Lists, Current;
    SubIsDistance(q.next, seen, SPAN);
    SubIsDistance(q.next, older, SPAN);
    SubIsDistance(|q.reqs|, completed, 8);
  }

  lemma RemainingIs(r: Regs)
    requires r.Typed() && r.counter <= r.pageQwords
    ensures Remaining(r) == r.pageQwords - r.counter
  {
  }

  /** What a decided size guarantees. */
  lemma SizeFits(q: Requester, older: nat, seen: nat, completed: nat)
    requires Inv(q) && Enabled(q, Ask(older, seen, completed))
    ensures var size := AskSize(q, older, seen, completed);
            size > 0 ==>
              && size <= Remaining(q.r) && size <= RING && q.next + size <= seen + RING
              && |q.reqs| < q.done + 4
              && (size < Remaining(q.r) ==> size % 16 == 0)
              && (q.next + size == seen + RING ==> Remaining(q.r) > RING == size)
  {
    AskDistances(q, older, seen, completed);
    hide Lists, Current, Counts, Sizing, Sub;
    var diff, aux, rem := q.next - seen, q.next - older, Remaining(q.r);
    if AskSize(q, older, seen, completed) > 0 {
      SizingFitsIff(diff, aux, rem);
      if diff + Sizing(diff, aux, rem) >= RING { FillsOnlyByChunk(diff, aux, rem); }
      assert |q.reqs| - completed < 4;
    }
  }

  lemma NextCounts(a: nat, size: nat, k: nat)
    requires size <= RING
    ensures (a % SPAN + size) % SPAN == (a + size) % SPAN
    ensures (k % 8 + 1) % 8 == (k + 1) % 8 && (k % 16 + 1) % 16 == (k + 1) % 16
  {
    AddIsShift(a, size, SPAN);
    AddIsShift(a % SPAN, size, SPAN);
  }

  /** A new request behind a well-formed list. */
  lemma NewRequestOk(q: Requester, size: nat)
    requires Inv(q) && 1 <= size <= Remaining(q.r) && size <= RING
    ensures var t := ReadTlp(q.r.readFrom, LengthField(size), q.r.tag);
            Lists(q.reqs + [Request(q.next, size, |q.buffers|, t)], q.buffers)
  {
    var reqs := q.reqs + [Request(q.next, size, |q.buffers|, ReadTlp(q.r.readFrom, LengthField(size), q.r.tag))];
    LengthIsSize(size);
    RemainingIs(q.r);
    forall k | 0 <= k < |reqs| ensures RequestOk(reqs, q.buffers, k) {
      if k < |q.reqs| {
        assert RequestOk(q.reqs, q.buffers, k);
      } else {
        assert q.buffers != [];
      }
    }
    hide RequestOk;
    forall k | 0 <= k < |q.buffers| - 1 ensures BufferDone(reqs, q.buffers, k) {
      assert BufferDone(q.reqs, q.buffers, k);
    }
  }

  lemma IssuedCounts(r: Regs, size: nat)
    requires r.Typed() && r.counter <= r.pageQwords && size <= Remaining(r) && r.readFrom + 8 * size < U64
    ensures var n := Issued(r, size);
            && n.Typed() && n.counter == r.counter + size && n.readFrom == r.readFrom + 8 * size
            && Remaining(n) == Remaining(r) - size
  {
    RemainingIs(r);
  }

  lemma AskKeeps(q: Requester, older: nat, seen: nat, completed: nat)
    requires Inv(q) && Enabled(q, Ask(older, seen, completed))
    ensures Inv(DoAsk(q, seen, AskSize(q, older, seen, completed)))
  {
    var size := AskSize(q, older, seen, completed);
    SizeFits(q, older, seen, completed);
    hide AskSize, Lists, Issued, LengthField;
    if size > 0 {
      NewRequestOk(q, size);
      RemainingIs(q.r);
      IssuedCounts(q.r, size);
      NextCounts(q.next, size, |q.reqs|);
      IssuedKeeps(q, seen, size);
    }
  }

  lemma SameRemainder(a: nat, b: nat)
    requires b <= a && b % 16 == 0
    ensures (a - b) % 16 == a % 16
  {
  }

  lemma IssuedKeeps(q: Requester, seen: nat, size: nat)
    requires Inv(q) && 1 <= size <= Remaining(q.r) && size <= RING && q.next + size <= seen + RING
    requires q.seen <= seen <= q.read && |q.reqs| < q.done + 4
    requires size < Remaining(q.r) ==> size % 16 == 0
    requires q.next + size == seen + RING ==> Remaining(q.r) > RING == size
    requires Lists(DoAsk(q, seen, size).reqs, q.buffers)
    ensures Inv(DoAsk(q, seen, size))
  {
    IssuedSpace(q, seen, size);
    IssuedCurrent(q, seen, size);
    NextCounts(q.next, size, |q.reqs|);
    hide Lists, Space, Current, Remaining, LengthField;
  }

  lemma IssuedSpace(q: Requester, seen: nat, size: nat)
    requires Inv(q) && 1 <= size <= Remaining(q.r) && size <= RING && q.next + size <= seen + RING
    requires q.seen <= seen <= q.read && (size < Remaining(q.r) ==> size % 16 == 0)
    requires q.next + size == seen + RING ==> Remaining(q.r) > RING == size
    ensures DoAsk(q, seen, size).r.Typed() && Space(DoAsk(q, seen, size))
  {
    RemainingIs(q.r);
    IssuedCounts(q.r, size);
    SameRemainder(Remaining(q.r), if size < Remaining(q.r) then size else 0);
    hide Lists, Remaining, LengthField;
  }

  lemma IssuedCurrent(q: Requester, seen: nat, size: nat)
    requires Inv(q) && 1 <= size <= Remaining(q.r)
    ensures Current(DoAsk(q, seen, size))
  {
    RemainingIs(q.r);
    IssuedCounts(q.r, size);
    hide Lists, Space, Remaining, LengthField;
  }

  lemma PostKeeps(q: Requester, addr: nat, n: nat)
    requires Inv(q) && Enabled(q, Post(addr, n)) && SafeSize(n)
    ensures Inv(DoPost(q, addr, n))
  {
    var m := DoPost(q, addr, n);
    RemainingIs(q.r);
    forall k | 0 <= k < |q.reqs| ensures RequestOk(q.reqs, m.buffers, k) {
      assert RequestOk(q.reqs, q.buffers, k);
    }
    forall k | 0 <= k < |m.buffers| - 1 ensures BufferDone(q.reqs, m.buffers, k) {
      if k < |q.buffers| - 1 { assert BufferDone(q.reqs, q.buffers, k); }
    }
    hide RequestOk, BufferDone;
  }

  lemma {:induction false} EndOrder(reqs: seq<Request>, buffers: seq<Buffer>, i: nat, j: nat)
    requires Lists(reqs, buffers) && i <= j <= |reqs|
    ensures End(reqs, i) + (j - i) <= End(reqs, j)
    decreases j
  {
    if i < j {
      EndOrder(reqs, buffers, i, j - 1);
      assert RequestOk(reqs, buffers, j - 1);
    }
  }

  lemma CompleteKeeps(q: Requester)
    requires Inv(q) && Enabled(q, Complete)
    ensures Inv(Step(q, Complete))
  {
    hide Remaining, RequestOk, BufferDone;
    if q.done + 1 < |q.reqs| {
      EndOrder(q.reqs, q.buffers, q.done + 1, q.done + 2);
    }
  }

  lemma ReadKeeps(q: Requester, count: nat)
    requires Inv(q) && Enabled(q, Read(count))
    ensures Inv(Step(q, Read(count)))
  {
    EndOrder(q.reqs, q.buffers, if q.done < |q.reqs| then q.done + 1 else q.done, |q.reqs|);
    hide Lists, Current;
  }

  lemma StepKeeps(q: Requester, a: Action)
    requires Inv(q) && (a.Post? ==> SafeSize(a.qwords))
    ensures Inv(Step(q, a))
  {
    if Enabled(q, a) {
      match a {
        case Post(addr, n) => PostKeeps(q, addr, n);
        case Ask(older, seen, completed) => AskKeeps(q, older, seen, completed);
        case Complete => CompleteKeeps(q);
        case Read(count) => ReadKeeps(q, count);
      }
    }
  }

  lemma {:induction false} RunKeeps(acts: seq<Action>)
    requires SafePosts(acts)
    ensures Inv(Run(Init(), acts))
    decreases |acts|
  {
    if acts != [] {
      RunKeeps(acts[..|acts| - 1]);
      StepKeeps(Run(Init(), acts[..|acts| - 1]), acts[|acts| - 1]);
    }
  }

  // ----- what the requests add up to ---------------------------------------------------------

  function SumSizes(reqs: seq<Request>, i: nat, j: nat): nat
    requires i <= j <= |reqs|
    decreases j
  {
    if i == j then 0 else SumSizes(reqs, i, j - 1) + reqs[j - 1].size
  }

  lemma {:induction false} SumIsDistance(reqs: seq<Request>, buffers: seq<Buffer>, i: nat, j: nat)
    requires Lists(reqs, buffers) && i <= j <= |reqs|
    ensures End(reqs, i) + SumSizes(reqs, i, j) == End(reqs, j)
    decreases j
  {
    if i < j {
      SumIsDistance(reqs, buffers, i, j - 1);
      assert RequestOk(reqs, buffers, j - 1);
    }
  }

  /** The requests for buffer `k` that have gone out: up to the next buffer's, or all. */
  function LastOf(q: Requester, k: nat): nat
    requires k < |q.buffers|
  {
    if k + 1 < |q.buffers| then q.buffers[k + 1].first else |q.reqs|
  }

  /** The requests for a buffer ask for consecutive qwords from its start on, none twice, none left out, and
      exactly when the buffer is done they sum up to its size. */
  ghost predicate Tiled(q: Requester, k: nat)
    requires k < |q.buffers| && q.r.Typed()
  {
    var b := q.buffers[k];
    && b.first <= LastOf(q, k) <= |q.reqs|
    && var asked := SumSizes(q.reqs, b.first, LastOf(q, k));
       && asked <= b.qwords
       && (k + 1 < |q.buffers| || Remaining(q.r) == 0 <==> asked == b.qwords)
       && forall i :: b.first <= i < LastOf(q, k) ==>
            && q.reqs[i].tlp.addr == b.addr + 8 * SumSizes(q.reqs, b.first, i)
            && LengthInDwords(q.reqs[i].tlp.length) == 2 * q.reqs[i].size
            && q.reqs[i].tlp.tag == i % 16
  }

  lemma TiledIn(q: Requester, k: nat)
    requires Inv(q) && k < |q.buffers|
    ensures Tiled(q, k)
  {
    hide Space, Counts;
    BufferFacts(q, k);
    var b, last := q.buffers[k], LastOf(q, k);
    SumIsDistance(q.reqs, q.buffers, b.first, last);
    forall i | b.first <= i < last
      ensures q.reqs[i].tlp.addr == b.addr + 8 * SumSizes(q.reqs, b.first, i)
      ensures LengthInDwords(q.reqs[i].tlp.length) == 2 * q.reqs[i].size && q.reqs[i].tlp.tag == i % 16
    {
      SumIsDistance(q.reqs, q.buffers, b.first, i);
      RequestsBuffer(q, i, k);
    }
  }

  lemma BufferFacts(q: Requester, k: nat)
    requires Inv(q) && k < |q.buffers|
    ensures var b := q.buffers[k];
            && b.first <= LastOf(q, k) <= |q.reqs| && End(q.reqs, b.first) == b.start
            && End(q.reqs, LastOf(q, k)) <= b.start + b.qwords
            && (k + 1 < |q.buffers| || Remaining(q.r) == 0 <==> End(q.reqs, LastOf(q, k)) == b.start + b.qwords)
  {
    hide RequestOk, Space;
    RemainingIs(q.r);
    if k + 1 < |q.buffers| { assert BufferDone(q.reqs, q.buffers, k); }
  }

  lemma RequestsBuffer(q: Requester, i: nat, k: nat)
    requires Inv(q) && k < |q.buffers| && q.buffers[k].first <= i < LastOf(q, k) <= |q.reqs|
    ensures q.reqs[i].nth == k + 1 && RequestOk(q.reqs, q.buffers, i)
  {
    hide Space, Counts;
    var n := q.reqs[i].nth - 1;
    assert RequestOk(q.reqs, q.buffers, i);
    if n < k {
      FirstsOrder(q, n + 1, k);
    } else if k < n {
      FirstsOrder(q, k + 1, n);
    }
  }

  lemma {:induction false} FirstsOrder(q: Requester, i: nat, j: nat)
    requires Inv(q) && i <= j < |q.buffers|
    ensures q.buffers[i].first <= q.buffers[j].first
    decreases j
  {
    hide RequestOk, Space, Counts, Current;
    if i < j {
      FirstsOrder(q, i, j - 1);
      assert BufferDone(q.reqs, q.buffers, j - 1);
    }
  }

  /** In every run with safe buffer sizes the requests for each buffer tile it. */
  lemma RequestsTileBuffer(acts: seq<Action>, k: nat)
    requires SafePosts(acts) && k < |Run(Init(), acts).buffers|
    ensures var q := Run(Init(), acts);
            q.r.Typed() && Tiled(q, k)
  {
    hide Run, Tiled;
    RunKeeps(acts);
    TiledIn(Run(Init(), acts), k);
    hide Counts, Space, Current, Lists;
  }

  /** At most four requests are outstanding; their tags differ in the two bits that index the tag arrays, and
      no two qwords requested but not yet read share a ring slot. */
  ghost predicate Apart(q: Requester) {
    && |q.reqs| - q.done <= 4 && q.next - q.read <= RING
    && (forall i, j :: 0 <= q.done <= i < j < |q.reqs| ==> q.reqs[i].tlp.tag % 4 != q.reqs[j].tlp.tag % 4)
    && forall x, y :: q.read <= x < y < q.next ==> x % RING != y % RING
  }

  /** So it is in every run with safe buffer sizes. */
  lemma OutstandingApart(acts: seq<Action>)
    requires SafePosts(acts)
    ensures Apart(Run(Init(), acts))
  {
    hide Run, Apart, Inv;
    RunKeeps(acts);
    ApartIn(Run(Init(), acts));
  }

  lemma ApartIn(q: Requester)
    requires Inv(q)
    ensures Apart(q)
  {
    forall i, j | q.done <= i < j < |q.reqs| ensures q.reqs[i].tlp.tag % 4 != q.reqs[j].tlp.tag % 4 {
      TagOf(q, i);
      TagOf(q, j);
      SubIsDistance(j, i, 4);
    }
    forall x, y | q.read <= x < y < q.next ensures x % RING != y % RING {
      SlotsDiffer(x, y);
    }
  }

  lemma TagOf(q: Requester, i: nat)
    requires Inv(q) && i < |q.reqs|
    ensures q.reqs[i].tlp.tag % 4 == i % 4
  {
    assert RequestOk(q.reqs, q.buffers, i);
    TagSlot(i);
    hide Inv, RequestOk;
  }

  /** The tag arrays are indexed by the low two bits of a tag. */
  lemma TagSlot(n: nat)
    ensures n % 16 % 4 == n % 4
  {
    var p := n % 16;
    Remainder(n, 4 * (n / 16) + p / 4, 4);
  }
}
