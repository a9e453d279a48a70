/** The Xen back end's copier: received buffers go to the guest page by page, each page into one request
    of the ring shared with the front end, and every request taken is answered once, in order. */
module XenCopier {
  import opened Ring

  /** Slots of the one-page shared ring, and of the arrays the copier collects its work in. */
  const SLOTS: nat := 256
  const PAGE_SIZE: nat := 4096
  const U32: nat := 0x1_0000_0000

  /** A shared slot: a request from the front end, or the response that takes its place. */
  datatype Slot = Unused | Req(id: nat, gref: nat) | Rsp(id: nat, status: int)

  /** A received buffer and how much of it has been copied. */
  datatype Buffer = Buffer(kern: nat, size: nat, offset: nat)

  /** A copy of `len` bytes from `addr` into the guest's page. */
  datatype Copy = Copy(addr: nat, len: nat, gref: nat)

  /** What is kept of a request for its response. */
  datatype Meta = Meta(id: nat, size: nat)

  const RSP_ERROR: int := -1

  /** The copier's state: the shared ring with its producer index, the copier's two indices, the buffers
      still to copy, those done in this call, what the call has collected, and how much it has answered. */
  datatype Vif = Vif(slots: seq<Slot>, reqProd: nat, reqCons: nat, rspProd: nat, queue: seq<Buffer>, done: seq<Buffer>,
                     meta: seq<Meta>, ops: seq<Copy>, answering: bool, copyCons: nat)

  ghost predicate Typed(v: Vif) { |v.slots| == SLOTS && v.reqProd < U32 && v.reqCons < U32 && v.rspProd < U32 }

  /** xenvif_rx_ring_slots_available for one slot, in 32-bit arithmetic. */
  predicate SlotAvailable(v: Vif)
    requires v.reqProd < U32 && v.reqCons < U32
  {
    Sub(v.reqProd, v.reqCons, U32) >= 1
  }

  /** The bytes of the next chunk. */
  function Chunk(b: Buffer): nat {
    if b.size - b.offset < PAGE_SIZE && b.offset <= b.size then b.size - b.offset else PAGE_SIZE
  }

  /** One round of the copying loops: the next page of the first buffer, or the buffer is done, or there is
      no buffer or no request left and the answers follow. */
  function CopyStep(v: Vif): Vif
    requires Typed(v)
  {
    if v.queue == [] then v.(answering := true)
    else
      var b := v.queue[0];
      if b.offset >= b.size then v.(queue := v.queue[1..], done := v.done + [b])
      else if !SlotAvailable(v) then v.(answering := true)
      else
        var req := v.slots[v.reqCons % SLOTS];
        var id, gref := if req.Unused? then 0 else req.id, if req.Req? then req.gref else 0;
        v.(reqCons := Add(v.reqCons, 1, U32), meta := v.meta + [Meta(id, Chunk(b))],
           ops := v.ops + [Copy(b.kern + b.offset, Chunk(b), gref)],
           queue := [b.(offset := b.offset + Chunk(b))] + v.queue[1..])
  }

  /** make_rx_response: the status is the size unless the copy failed. */
  function Response(m: Meta, ok: bool): Slot { Rsp(m.id, if ok then m.size else RSP_ERROR) }

  /** One round of the answering loop, or the end of the call. */
  function AnswerStep(v: Vif, ok: bool): Vif
    requires Typed(v)
  {
    if v.copyCons < |v.meta| then
      v.(slots := v.slots[v.rspProd % SLOTS := Response(v.meta[v.copyCons], ok)], rspProd := Add(v.rspProd, 1, U32),
         copyCons := v.copyCons + 1)
    else v.(done := [], meta := [], ops := [], answering := false, copyCons := 0)
  }

  // ----- runs --------------------------------------------------------------------------------

  /** The copier with its front end: all requests and responses so far, how many requests the copier has
      `taken`, how many responses the front end has `heard` and what it read there, all copies made, the
      results of those answered, and all buffers posted and released. */
  datatype System = System(v: Vif, requests: seq<Slot>, responses: seq<Slot>, taken: nat, heard: nat,
                           received: seq<Slot>, copies: seq<Copy>, results: seq<bool>, posted: seq<Buffer>,
                           released: seq<Buffer>)

  datatype Action =
    | Post(b: Buffer)
    | Push(id: nat, gref: nat)
    | Hear
    | Work(ok: bool)

  predicate ResetOk(slots: seq<Slot>) { |slots| == SLOTS }

  function Init(slots: seq<Slot>): System {
    System(Vif(slots, 0, 0, 0, [], [], [], [], false, 0), [], [], 0, 0, [], [], [], [], [])
  }

  /** The front end never has more than a ring of requests it has not heard the answer to; buffers are
      page-aligned and start uncopied. */
  ghost predicate Enabled(x: System, a: Action) {
    && Typed(x.v)
    && match a
       case Post(b) => b.offset == 0 && b.kern % PAGE_SIZE == 0
       case Push(_, _) => |x.requests| < x.heard + SLOTS
       case Hear => x.heard < |x.responses|
       case Work(_) => true
  }

  function DoCopy(x: System): System
    requires Typed(x.v)
  {
    var n := CopyStep(x.v);
    if |n.ops| == |x.v.ops| then x.(v := n)
    else x.(v := n, taken := x.taken + 1, copies := x.copies + n.ops[|x.v.ops|..])
  }

  function DoAnswer(x: System, ok: bool): System
    requires Typed(x.v)
  {
    var n := AnswerStep(x.v, ok);
    if x.v.copyCons < |x.v.meta|
    then x.(v := n, responses := x.responses + [Response(x.v.meta[x.v.copyCons], ok)], results := x.results + [ok])
    else x.(v := n, released := x.released + x.v.done)
  }

  ghost function Step(x: System, a: Action): System {
    if !Enabled(x, a) then x
    else
      match a
      case Post(b) => x.(v := x.v.(queue := x.v.queue + [b]), posted := x.posted + [b])
      case Push(id, gref) =>
        x.(v := x.v.(slots := x.v.slots[x.v.reqProd % SLOTS := Req(id, gref)], reqProd := Add(x.v.reqProd, 1, U32)),
           requests := x.requests + [Req(id, gref)])
      case Hear => x.(heard := x.heard + 1, received := x.received + [x.v.slots[x.heard % SLOTS]])
      case Work(ok) => if x.v.answering then DoAnswer(x, ok) else DoCopy(x)
  }

  ghost function Run(x: System, acts: seq<Action>): System
    decreases |acts|
  {
    if acts == [] then x else Step(Run(x, acts[..|acts| - 1]), acts[|acts| - 1])
  }

  // ----- what is to be copied ----------------------------------------------------------------

  /** A piece of a buffer, wherever it goes. */
  datatype Piece = Piece(addr: nat, len: nat)

  function Source(c: Copy): Piece { Piece(c.addr, c.len) }

  function Sources(cs: seq<Copy>): seq<Piece> { seq(|cs|, i requires 0 <= i < |cs| => Source(cs[i])) }

  /** The pieces of a buffer from its offset on. */
  function Pieces(b: Buffer): seq<Piece>
    decreases b.size - b.offset
  {
    if b.offset >= b.size then []
    else [Piece(b.kern + b.offset, Chunk(b))] + Pieces(b.(offset := b.offset + Chunk(b)))
  }

  function AllPieces(bs: seq<Buffer>): seq<Piece> { if bs == [] then [] else Pieces(bs[0]) + AllPieces(bs[1..]) }

  lemma {:induction false} AllPiecesConcat(a: seq<Buffer>, b: seq<Buffer>)
    ensures AllPieces(a + b) == AllPieces(a) + AllPieces(b)
    decreases |a|
  {
    if a == [] {
      assert a + b == b;
    } else {
      AllPiecesConcat(a[1..], b);
      assert (a + b)[1..] == a[1..] + b;
      Assoc3(Pieces(a[0]), AllPieces(a[1..]), AllPieces(b));
    }
  }

  lemma Assoc3<T>(a: seq<T>, b: seq<T>, c: seq<T>)
    ensures (a + b) + c == a + (b + c) && [] + a == a && a + [] == a
  {
  }

  /** The pieces of a page-aligned buffer cover its bytes once each: every piece starts on a page, the first
      at the buffer's start, each next one a page further, and together they are as long as the buffer. */
  lemma {:induction false} PiecesCover(b: Buffer, k: nat)
    requires b.kern % PAGE_SIZE == 0 && b.offset % PAGE_SIZE == 0 && b.offset <= b.size && k < |Pieces(b)|
    ensures var p := Pieces(b)[k];
            && p.addr == b.kern + b.offset + PAGE_SIZE * k && p.addr % PAGE_SIZE == 0
            && 1 <= p.len <= PAGE_SIZE
            && (if k + 1 < |Pieces(b)| then p.len == PAGE_SIZE else p.addr + p.len == b.kern + b.size)
    decreases k
  {
    var n := b.(offset := b.offset + Chunk(b));
    OnPage(b.kern, b.offset, k);
    if k > 0 {
      assert Chunk(b) == PAGE_SIZE && Pieces(b)[k] == Pieces(n)[k - 1];
      NextPage(b.offset);
      PiecesCover(n, k - 1);
    } else if |Pieces(b)| > 1 {
      assert Pieces(n) != [];
    }
  }

  lemma OnPage(kern: nat, offset: nat, k: nat)
    requires kern % PAGE_SIZE == 0 && offset % PAGE_SIZE == 0
    ensures (kern + offset + PAGE_SIZE * k) % PAGE_SIZE == 0
  {
    assert kern + offset + PAGE_SIZE * k == PAGE_SIZE * (kern / PAGE_SIZE + offset / PAGE_SIZE + k);
  }

  lemma NextPage(offset: nat)
    requires offset % PAGE_SIZE == 0
    ensures (offset + PAGE_SIZE) % PAGE_SIZE == 0
  {
  }

  // ----- the invariant -----------------------------------------------------------------------

  /** The shared slots hold the stretch of a history from `lo` to `hi`. */
  ghost predicate Keeps(slots: seq<Slot>, history: seq<Slot>, lo: nat, hi: nat) {
    |slots| == SLOTS && hi <= |history| && forall k :: lo <= k < hi ==> slots[k % SLOTS] == history[k]
  }

  ghost predicate Counts(x: System) {
    && x.v.reqProd == |x.requests| % U32 && x.v.reqCons == x.taken % U32 && x.v.rspProd == |x.responses| % U32
    && x.heard <= |x.responses| <= x.taken <= |x.requests| <= x.heard + SLOTS
    && |x.copies| == x.taken
  }

  ghost predicate Shared(x: System) {
    && Keeps(x.v.slots, x.requests, x.taken, |x.requests|)
    && Keeps(x.v.slots, x.responses, x.heard, |x.responses|)
    && x.heard <= |x.responses| && x.received == x.responses[..x.heard]
  }

  /** What the call has collected belongs to the requests taken and not answered when it began. */
  ghost predicate Collected(x: System) {
    && x.v.copyCons <= |x.v.meta| == |x.v.ops| <= SLOTS && x.v.copyCons <= |x.responses|
    && (!x.v.answering ==> x.v.copyCons == 0)
    && CollectedFrom(x, |x.responses| - x.v.copyCons)
  }

  ghost predicate CollectedFrom(x: System, start: nat)
    requires |x.v.meta| == |x.v.ops|
  {
    && x.taken == start + |x.v.meta| && |x.copies| == x.taken <= |x.requests|
    && forall j :: 0 <= j < |x.v.meta| ==> CollectedAt(x, start, j)
  }

  ghost predicate CollectedAt(x: System, start: nat, j: nat)
    requires j < |x.v.meta| == |x.v.ops| && start + j < |x.copies| <= |x.requests|
  {
    var k := start + j;
    x.requests[k].Req? && x.v.meta[j] == Meta(x.requests[k].id, x.copies[k].len) && x.v.ops[j] == x.copies[k]
  }

  /** Request `k` has been copied into, and answered with its own id and the result of the copy. */
  ghost predicate AnsweredAt(x: System, k: nat)
    requires k < |x.responses| == |x.results| && k < |x.copies| && k < |x.requests|
  {
    && x.requests[k].Req? && x.responses[k].Rsp? && x.responses[k].id == x.requests[k].id
    && x.responses[k].status == if x.results[k] then x.copies[k].len else -1
  }

  ghost predicate Answered(x: System) {
    && |x.results| == |x.responses| <= |x.copies| <= |x.requests|
    && (forall k :: 0 <= k < |x.responses| ==> AnsweredAt(x, k))
    && (forall k :: 0 <= k < |x.copies| ==> x.requests[k].Req? && x.copies[k].gref == x.requests[k].gref)
    && forall k :: 0 <= k < |x.requests| ==> x.requests[k].Req?
  }

  function Whole(bs: seq<Buffer>): seq<Buffer> { seq(|bs|, i requires 0 <= i < |bs| => bs[i].(offset := 0)) }

  ghost predicate Complete(bs: seq<Buffer>) { forall b :: b in bs ==> b.offset >= b.size }

  /** Nothing of any buffer is lost, copied twice, or released before it is copied. */
  ghost predicate Buffers(x: System) {
    && Sources(x.copies) + AllPieces(x.v.queue) == AllPieces(x.posted)
    && Whole(x.released) + Whole(x.v.done) + Whole(x.v.queue) == x.posted
    && Complete(x.released) && Complete(x.v.done)
  }

  ghost predicate Inv(x: System) {
    Typed(x.v) && Counts(x) && Shared(x) && Collected(x) && Answered(x) && Buffers(x)
  }

  lemma IndexSlot(k: nat)
    ensures k % U32 % SLOTS == k % SLOTS
  {
    var q, p := k / U32, k % U32;
    Remainder(k, 0x100_0000 * q + p / SLOTS, SLOTS);
  }

  lemma NextIndex(k: nat)
    ensures Add(k % U32, 1, U32) == (k + 1) % U32
  {
    AddIsShift(k, 1, U32);
  }

  lemma SharedSlotsDiffer(i: nat, j: nat)
    requires i < j < i + SLOTS
    ensures i % SLOTS != j % SLOTS
  {
    SubIsDistance(j, i, SLOTS);
  }

  lemma WriteBeside(slots: seq<Slot>, history: seq<Slot>, lo: nat, hi: nat, w: nat, s: Slot, from: nat)
    requires Keeps(slots, history, lo, hi) && from <= lo && hi <= from + SLOTS
    requires from <= w < from + SLOTS && (w < lo || hi <= w)
    ensures Keeps(slots[w % SLOTS := s], history, lo, hi)
  {
    forall k | lo <= k < hi ensures slots[w % SLOTS := s][k % SLOTS] == history[k] {
      if k < w { SharedSlotsDiffer(k, w); } else { SharedSlotsDiffer(w, k); }
    }
  }

  lemma WriteNext(slots: seq<Slot>, history: seq<Slot>, lo: nat, s: Slot)
    requires Keeps(slots, history, lo, |history|) && lo <= |history| < lo + SLOTS
    ensures Keeps(slots[|history| % SLOTS := s], history + [s], lo, |history| + 1)
  {
    var w := |history|;
    WriteBeside(slots, history, lo, w, w, s, lo);
  }

  lemma PushKeeps(x: System, id: nat, gref: nat)
    requires Inv(x) && Enabled(x, Push(id, gref))
    ensures Inv(Step(x, Push(id, gref)))
  {
    var w, s, n := |x.requests|, Req(id, gref), Step(x, Push(id, gref));
    IndexSlot(w);
    NextIndex(w);
    WriteNext(x.v.slots, x.requests, x.taken, s);
    WriteBeside(x.v.slots, x.responses, x.heard, |x.responses|, w, s, x.heard);
    hide Keeps, Buffers;
    PushCollected(x, n);
    PushAnswered(x, n);
    assert Shared(n) && Counts(n);
    hide Counts, Shared, Collected, Answered;
    BuffersSame(x, n);
  }

  lemma BuffersSame(x: System, n: System)
    requires Buffers(x) && n.copies == x.copies && n.posted == x.posted && n.released == x.released
    requires n.v.queue == x.v.queue && n.v.done == x.v.done
    ensures Buffers(n)
  {
  }

  lemma PushCollected(x: System, n: System)
    requires Collected(x) && x.requests <= n.requests && n == x.(v := n.v, requests := n.requests)
    requires n.v == x.v.(slots := n.v.slots, reqProd := n.v.reqProd)
    ensures Collected(n)
  {
    var start := |x.responses| - x.v.copyCons;
    forall j | 0 <= j < |n.v.meta| ensures CollectedAt(n, start, j) {
      assert CollectedAt(x, start, j);
    }
  }

  lemma PushAnswered(x: System, n: System)
    requires Answered(x) && n == x.(v := n.v, requests := n.requests)
    requires |n.requests| == |x.requests| + 1 && x.requests <= n.requests && n.requests[|x.requests|].Req?
    ensures Answered(n)
  {
    forall k | 0 <= k < |n.responses| ensures AnsweredAt(n, k) {
      assert AnsweredAt(x, k);
    }
  }

  lemma HearKeeps(x: System)
    requires Inv(x) && Enabled(x, Hear)
    ensures Inv(Step(x, Hear))
  {
    var n := Step(x, Hear);
    assert x.v.slots[x.heard % SLOTS] == x.responses[x.heard];
    assert x.responses[..x.heard + 1] == x.responses[..x.heard] + [x.responses[x.heard]];
    hide Buffers, Collected, Answered;
    BuffersSame(x, n);
    HearSame(x, n);
  }

  lemma HearSame(x: System, n: System)
    requires Collected(x) && Answered(x) && n == x.(heard := n.heard, received := n.received)
    ensures Collected(n) && Answered(n)
  {
    var start := |x.responses| - x.v.copyCons;
    forall j | 0 <= j < |n.v.meta| ensures CollectedAt(n, start, j) {
      assert CollectedAt(x, start, j);
    }
    forall k | 0 <= k < |n.responses| ensures AnsweredAt(n, k) {
      assert AnsweredAt(x, k);
    }
  }

  lemma PostKeeps(x: System, b: Buffer)
    requires Inv(x) && Enabled(x, Post(b))
    ensures Inv(Step(x, Post(b)))
  {
    var n := Step(x, Post(b));
    AllPiecesConcat(x.v.queue, [b]);
    AllPiecesConcat(x.posted, [b]);
    assert Whole(x.v.queue + [b]) == Whole(x.v.queue) + [b];
    Assoc3(Sources(x.copies), AllPieces(x.v.queue), AllPieces([b]));
    Assoc3(Whole(x.released) + Whole(x.v.done), Whole(x.v.queue), [b]);
    assert Buffers(n);
    hide Buffers, Whole, AllPieces, Sources;
    SameExchange(x, n);
  }

  /** What the requests and responses have to do with each other does not look at the buffers. */
  lemma SameExchange(x: System, n: System)
    requires Typed(x.v) && Counts(x) && Shared(x) && Collected(x) && Answered(x)
    requires n == x.(v := n.v, posted := n.posted, released := n.released)
    requires n.v == x.v.(queue := n.v.queue, done := n.v.done)
    ensures Typed(n.v) && Counts(n) && Shared(n) && Collected(n) && Answered(n)
  {
    var start := |x.responses| - x.v.copyCons;
    forall j | 0 <= j < |n.v.meta| ensures CollectedAt(n, start, j) {
      assert CollectedAt(x, start, j);
    }
    forall k | 0 <= k < |n.responses| ensures AnsweredAt(n, k) {
      assert AnsweredAt(x, k);
    }
    hide Keeps;
  }

  /** The call turns to its answers. */
  lemma TurnKeeps(x: System)
    requires Inv(x) && !x.v.answering
    ensures Inv(x.(v := x.v.(answering := true)))
  {
    var n := x.(v := x.v.(answering := true));
    var start := |x.responses|;
    forall j | 0 <= j < |n.v.meta| ensures CollectedAt(n, start, j) {
      assert CollectedAt(x, start, j);
    }
    forall k | 0 <= k < |n.responses| ensures AnsweredAt(n, k) {
      assert AnsweredAt(x, k);
    }
    hide Keeps;
    BuffersSame(x, n);
    hide Buffers;
  }

  lemma DoneKeeps(x: System)
    requires Inv(x) && x.v.queue != [] && x.v.queue[0].offset >= x.v.queue[0].size
    ensures Inv(x.(v := x.v.(queue := x.v.queue[1..], done := x.v.done + [x.v.queue[0]])))
  {
    var b, rest := x.v.queue[0], x.v.queue[1..];
    var n := x.(v := x.v.(queue := rest, done := x.v.done + [b]));
    assert x.v.queue == [b] + rest;
    assert AllPieces(x.v.queue) == Pieces(b) + AllPieces(rest) == AllPieces(rest);
    assert Whole(x.v.done + [b]) == Whole(x.v.done) + Whole([b]);
    assert Whole(x.v.queue) == Whole([b]) + Whole(rest);
    Assoc3(Whole(x.released) + Whole(x.v.done), Whole([b]), Whole(rest));
    Assoc3(Whole(x.released), Whole(x.v.done), Whole([b]));
    assert Buffers(n);
    hide Buffers, Whole, AllPieces, Sources;
    SameExchange(x, n);
  }

  /** The request the copier takes next, if there is one. */
  lemma NextRequest(x: System)
    requires Inv(x)
    ensures SlotAvailable(x.v) <==> x.taken < |x.requests|
    ensures x.taken < |x.requests| ==> x.v.slots[x.v.reqCons % SLOTS] == x.requests[x.taken] && x.requests[x.taken].Req?
  {
    SubIsDistance(|x.requests|, x.taken, U32);
    IndexSlot(x.taken);
    hide Collected, Buffers;
  }

  lemma TakeKeeps(x: System)
    requires Inv(x) && !x.v.answering && x.taken < |x.requests|
    requires x.v.queue != [] && x.v.queue[0].offset < x.v.queue[0].size
    ensures Inv(DoCopy(x))
  {
    var n, b := DoCopy(x), x.v.queue[0];
    NextRequest(x);
    NextIndex(x.taken);
    var c := Copy(b.kern + b.offset, Chunk(b), x.requests[x.taken].gref);
    assert n.v.ops == x.v.ops + [c] && n.copies == x.copies + [c];
    TakeCollected(x, n, c);
    TakeAnswered(x, n);
    TakeBuffers(x, n, c);
    hide Collected, Answered, Buffers;
    assert Counts(n) && Shared(n);
  }

  lemma TakeCollected(x: System, n: System, c: Copy)
    requires Inv(x) && !x.v.answering && x.taken < |x.requests| && x.requests[x.taken].Req?
    requires n.v == x.v.(reqCons := n.v.reqCons, queue := n.v.queue, ops := x.v.ops + [c],
                         meta := x.v.meta + [Meta(x.requests[x.taken].id, c.len)])
    requires n == x.(v := n.v, taken := x.taken + 1, copies := x.copies + [c])
    ensures Collected(n)
  {
    hide Buffers, Answered, Keeps;
    var start := |x.responses|;
    forall j | 0 <= j < |n.v.meta| ensures CollectedAt(n, start, j) {
      if j < |x.v.meta| { assert CollectedAt(x, start, j); }
    }
  }

  lemma TakeAnswered(x: System, n: System)
    requires Inv(x) && x.taken < |x.requests| && x.copies <= n.copies && |n.copies| == |x.copies| + 1
    requires n.copies[|x.copies|].gref == x.requests[x.taken].gref && x.requests[x.taken].Req?
    requires n == x.(v := n.v, taken := x.taken + 1, copies := n.copies)
    ensures Answered(n)
  {
    hide Buffers, Collected, Keeps;
    forall k | 0 <= k < |n.responses| ensures AnsweredAt(n, k) {
      assert AnsweredAt(x, k);
    }
  }

  lemma TakeBuffers(x: System, n: System, c: Copy)
    requires Buffers(x) && x.v.queue != [] && x.v.queue[0].offset < x.v.queue[0].size
    requires n.copies == x.copies + [c] && n.posted == x.posted && n.released == x.released && n.v.done == x.v.done
    requires var b := x.v.queue[0];
             Source(c) == Piece(b.kern + b.offset, Chunk(b))
             && n.v.queue == [b.(offset := b.offset + Chunk(b))] + x.v.queue[1..]
    ensures Buffers(n)
  {
    var b, rest := x.v.queue[0], x.v.queue[1..];
    var m := b.(offset := b.offset + Chunk(b));
    assert n.v.queue[1..] == rest;
    assert AllPieces(x.v.queue) == Pieces(b) + AllPieces(rest);
    assert AllPieces(n.v.queue) == Pieces(m) + AllPieces(rest);
    assert Pieces(b) == [Source(c)] + Pieces(m);
    assert Sources(x.copies + [c]) == Sources(x.copies) + [Source(c)];
    Assoc3([Source(c)], Pieces(m), AllPieces(rest));
    Assoc3(Sources(x.copies), [Source(c)], AllPieces(n.v.queue));
    assert Whole(n.v.queue) == Whole(x.v.queue);
  }

  lemma AnswerKeeps(x: System, ok: bool)
    requires Inv(x) && x.v.answering && x.v.copyCons < |x.v.meta|
    ensures Inv(DoAnswer(x, ok))
  {
    var n, k, start := DoAnswer(x, ok), |x.responses|, |x.responses| - x.v.copyCons;
    var r := Response(x.v.meta[x.v.copyCons], ok);
    assert CollectedAt(x, start, x.v.copyCons);
    IndexSlot(k);
    NextIndex(k);
    WriteNext(x.v.slots, x.responses, x.heard, r);
    WriteBeside(x.v.slots, x.requests, x.taken, |x.requests|, k, r, k);
    assert n.received == n.responses[..n.heard];
    AnswerCollected(x, n);
    AnswerAnswered(x, n, ok);
    BuffersSame(x, n);
    hide Keeps, Collected, Answered, Buffers;
    assert Shared(n) && Counts(n);
  }

  lemma AnswerCollected(x: System, n: System)
    requires Collected(x) && x.v.answering && x.v.copyCons < |x.v.meta|
    requires n.v == x.v.(slots := n.v.slots, rspProd := n.v.rspProd, copyCons := x.v.copyCons + 1)
    requires |n.responses| == |x.responses| + 1 && n == x.(v := n.v, responses := n.responses, results := n.results)
    ensures Collected(n)
  {
    var start := |x.responses| - x.v.copyCons;
    forall j | 0 <= j < |n.v.meta| ensures CollectedAt(n, start, j) {
      assert CollectedAt(x, start, j);
    }
  }

  lemma AnswerAnswered(x: System, n: System, ok: bool)
    requires Answered(x) && Collected(x) && x.v.copyCons < |x.v.meta|
    requires n == x.(v := n.v, responses := x.responses + [Response(x.v.meta[x.v.copyCons], ok)],
                     results := x.results + [ok])
    ensures Answered(n)
  {
    assert CollectedAt(x, |x.responses| - x.v.copyCons, x.v.copyCons);
    forall k | 0 <= k < |n.responses| ensures AnsweredAt(n, k) {
      if k < |x.responses| { assert AnsweredAt(x, k); }
    }
  }

  lemma EndKeeps(x: System, ok: bool)
    requires Inv(x) && x.v.answering && x.v.copyCons == |x.v.meta|
    ensures Inv(DoAnswer(x, ok))
  {
    var n := DoAnswer(x, ok);
    assert Whole(x.released + x.v.done) == Whole(x.released) + Whole(x.v.done);
    assert Whole([]) == [];
    assert Buffers(n);
    hide Buffers, Keeps;
    forall k | 0 <= k < |n.responses| ensures AnsweredAt(n, k) {
      assert AnsweredAt(x, k);
    }
  }

  lemma StepKeeps(x: System, a: Action)
    requires Inv(x)
    ensures Inv(Step(x, a))
  {
    if Enabled(x, a) {
      match a {
        case Post(b) => PostKeeps(x, b);
        case Push(id, gref) => PushKeeps(x, id, gref);
        case Hear => HearKeeps(x);
        case Work(ok) => WorkKeeps(x, ok);
      }
    }
  }

  lemma WorkKeeps(x: System, ok: bool)
    requires Inv(x)
    ensures Inv(if x.v.answering then DoAnswer(x, ok) else DoCopy(x))
  {
    NextRequest(x);
    if x.v.answering {
      assert x.v.copyCons <= |x.v.meta|;
      if x.v.copyCons < |x.v.meta| { AnswerKeeps(x, ok); } else { EndKeeps(x, ok); }
    } else if x.v.queue == [] || (x.v.queue[0].offset < x.v.queue[0].size && !SlotAvailable(x.v)) {
      TurnKeeps(x);
    } else if x.v.queue[0].offset >= x.v.queue[0].size {
      DoneKeeps(x);
    } else {
      TakeKeeps(x);
    }
  }

  lemma InitInv(slots: seq<Slot>)
    requires ResetOk(slots)
    ensures Inv(Init(slots))
  {
  }

  lemma {:induction false} RunKeeps(slots: seq<Slot>, acts: seq<Action>)
    requires ResetOk(slots)
    ensures Inv(Run(Init(slots), acts))
    decreases |acts|
  {
    hide Step, Inv;
    if acts == [] {
      InitInv(slots);
    } else {
      RunKeeps(slots, acts[..|acts| - 1]);
      StepKeeps(Run(Init(slots), acts[..|acts| - 1]), acts[|acts| - 1]);
    }
  }

  // ----- main results ------------------------------------------------------------------------

  /** In every run the front end reads one response per request, in order, with the request's id and the
      length of what was copied for it if that copy succeeded, and otherwise an error. */
  lemma OneResponseEach(slots: seq<Slot>, acts: seq<Action>, k: nat)
    requires ResetOk(slots) && k < |Run(Init(slots), acts).received|
    ensures var x := Run(Init(slots), acts);
            && k < |x.copies| && k < |x.requests| && k < |x.results| && x.received[k].Rsp? && x.requests[k].Req?
            && x.received[k].id == x.requests[k].id && x.copies[k].gref == x.requests[k].gref
            && x.received[k].status == if x.results[k] then x.copies[k].len else -1
  {
    RunKeeps(slots, acts);
    var x := Run(Init(slots), acts);
    hide Run, Buffers, Collected, Keeps;
    assert AnsweredAt(x, k);
  }

  /** In every run a call collects no more than its arrays hold, and between calls every request taken has
      been answered. */
  lemma WithinArrays(slots: seq<Slot>, acts: seq<Action>)
    requires ResetOk(slots)
    ensures var x := Run(Init(slots), acts);
            && |x.v.meta| == |x.v.ops| <= SLOTS
            && (x.v.meta == [] ==> |x.responses| == x.taken == |x.copies|)
  {
    RunKeeps(slots, acts);
    hide Run, Buffers, Answered, Keeps, CollectedAt;
  }

  /** In every run, however the calls are interrupted: the pieces copied so far, followed by those still to
      come, are the pieces of the posted buffers, each once, in order; and what is released is a prefix of
      the posted buffers, all of whose bytes have been copied. */
  lemma BuffersCopiedOnce(slots: seq<Slot>, acts: seq<Action>)
    requires ResetOk(slots)
    ensures var x := Run(Init(slots), acts);
            && Sources(x.copies) + AllPieces(x.v.queue) == AllPieces(x.posted)
            && Whole(x.released) <= x.posted && AllPieces(Whole(x.released)) <= Sources(x.copies)
  {
    RunKeeps(slots, acts);
    var x := Run(Init(slots), acts);
    hide Run, Collected, Answered, Keeps;
    ReleasedAreCopied(x);
  }

  lemma ReleasedAreCopied(x: System)
    requires Buffers(x)
    ensures Whole(x.released) <= x.posted && AllPieces(Whole(x.released)) <= Sources(x.copies)
  {
    var d, q := Whole(x.released) + Whole(x.v.done), Whole(x.v.queue);
    AllPiecesConcat(d, q);
    AllPiecesConcat(Whole(x.released), Whole(x.v.done));
    QueueIsShorter(x.v.queue);
    assert AllPieces(d) + AllPieces(q) == Sources(x.copies) + AllPieces(x.v.queue);
    hide Whole, AllPieces, Sources;
    PrefixOfSum(AllPieces(d), AllPieces(q), Sources(x.copies), AllPieces(x.v.queue));
  }

  lemma PrefixOfSum<T>(a: seq<T>, b: seq<T>, c: seq<T>, d: seq<T>)
    requires a + b == c + d && |d| <= |b|
    ensures a <= c
  {
    assert (a + b)[..|a|] == a && (c + d)[..|c|] == c;
  }

  lemma {:induction false} QueueIsShorter(q: seq<Buffer>)
    ensures |AllPieces(q)| <= |AllPieces(Whole(q))|
    decreases |q|
  {
    if q != [] {
      QueueIsShorter(q[1..]);
      assert Whole(q)[1..] == Whole(q[1..]);
      FewerLeft(q[0], 0);
    }
  }

  lemma {:induction false} FewerLeft(b: Buffer, from: nat)
    requires from <= b.offset
    ensures |Pieces(b)| <= |Pieces(b.(offset := from))|
    decreases b.size - from
  {
    var a := b.(offset := from);
    if a.offset < a.size && b.offset < b.size {
      var m, n := a.(offset := a.offset + Chunk(a)), b.(offset := b.offset + Chunk(b));
      if m.offset <= n.offset {
        FewerLeft(n, m.offset);
      }
    }
  }
}
