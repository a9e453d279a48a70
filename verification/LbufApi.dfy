/** Layout of a receive large buffer and the two walkers that parse it.

    A large buffer is a 2 MB page: 16 reserved qwords whose first dword counts the qwords written
    after them, then packets.  A packet is a header qword (timestamp dword, length dword) followed
    by its bytes, padded to a qword.  The driver walks a page with the LBUF_* macros, the
    user-space application with an explicit branch on the length's remainder.

    The specification counts in qwords; the walkers themselves count in dwords, as the source does. */
module LbufApi {
  /** A byte, 0 to 255; nothing below depends on the bound. */
  type Byte = int

  /** A 64-bit word, least significant byte first: the order in which it lies in host memory. */
  type Qword = q: seq<Byte> | |q| == 8 witness [0, 0, 0, 0, 0, 0, 0, 0]

  const U32: nat := 0x1_0000_0000
  const PAGE_QWORDS: nat := 0x4_0000
  const RESERVED_DWORDS: nat := 32
  const RESERVED_QWORDS: nat := 16
  const LBUF_DWORDS: nat := 0x8_0000
  const ZERO_QWORD: Qword := [0, 0, 0, 0, 0, 0, 0, 0]

  type Page = p: seq<Qword> | |p| == PAGE_QWORDS witness seq<Qword>(PAGE_QWORDS, _ => ZERO_QWORD)

  /** The result of an unsigned 32-bit addition. */
  function Wrap32(x: nat): (w: nat)
    requires x < 2 * U32
    ensures w < U32
  {
    if x < U32 then x else x - U32
  }

  function LowDword(q: Qword): (d: nat)
    ensures d < U32
  {
    (q[0] + 0x100 * q[1] + 0x1_0000 * q[2] + 0x100_0000 * q[3]) % U32
  }

  function HighDword(q: Qword): (d: nat)
    ensures d < U32
  {
    (q[4] + 0x100 * q[5] + 0x1_0000 * q[6] + 0x100_0000 * q[7]) % U32
  }

  /** A dword of the page as the driver indexes it. */
  function Dword(p: Page, k: nat): (d: nat)
    requires k < LBUF_DWORDS
    ensures d < U32
  {
    if k % 2 == 0 then LowDword(p[k / 2]) else HighDword(p[k / 2])
  }

  /** A byte of the page, or of the memory that happens to follow it. */
  function ByteAt(p: Page, beyond: seq<Byte>, k: nat): Byte {
    if k < 8 * PAGE_QWORDS then p[k / 8][k % 8]
    else if k - 8 * PAGE_QWORDS < |beyond| then beyond[k - 8 * PAGE_QWORDS]
    else 0
  }

  /** A 32-bit left shift by one followed by an addition. */
  function CountToDwords(count: nat): nat { Wrap32(2 * (count % 0x8000_0000) + RESERVED_DWORDS) }

  function NrDwords(p: Page): nat { CountToDwords(LowDword(p[0])) }

  predicate IsValid(nrDwords: nat) { RESERVED_DWORDS < nrDwords <= LBUF_DWORDS }

  /** LBUF_NEXT_DWORD_IDX in unsigned 32-bit arithmetic: the rounding up to a qword can wrap. */
  function NextIdx(idx: nat, len: nat): nat
    requires idx < LBUF_DWORDS && len < U32
  {
    Wrap32(idx + 2 + Wrap32(len + 7) / 8 * 2)
  }

  // ----- the driver's walk, counted in qwords ------------------------------------------------

  function PktLen(p: Page, at: nat): (len: nat)
    requires at < PAGE_QWORDS
    ensures len < U32
  {
    HighDword(p[at])
  }

  function Next(p: Page, at: nat): (next: nat)
    requires at < PAGE_QWORDS
    ensures at < next
  {
    at + 1 + Wrap32(PktLen(p, at) + 7) / 8
  }

  /** The packet positions a do-while walk from `at` visits. */
  function Visits(p: Page, at: nat, end: nat): (v: seq<nat>)
    requires at < end <= PAGE_QWORDS
    ensures v != [] && v[0] == at && forall i :: 0 <= i < |v| ==> at <= v[i] < end
    decreases end - at
  {
    [at] + if Next(p, at) < end then Visits(p, Next(p, at), end) else []
  }

  /** The walk ends and every header it reads lies inside the written part of the buffer; each
      position follows from the one before and the last packet is the first to reach the end. */
  lemma {:induction false} WalkIsSound(p: Page, at: nat, end: nat, i: nat)
    requires at < end <= PAGE_QWORDS && i < |Visits(p, at, end)|
    ensures var v := Visits(p, at, end);
            && at <= v[i] < end
            && if i + 1 < |v| then v[i + 1] == Next(p, v[i]) else end <= Next(p, v[i])
    decreases end - at
  {
    if i > 0 {
      WalkIsSound(p, Next(p, at), end, i - 1);
    }
  }

  function PktBytes(p: Page, beyond: seq<Byte>, at: nat, n: nat): seq<Byte> {
    seq(n, i requires 0 <= i => ByteAt(p, beyond, 8 * (at + 1) + i))
  }

  function Packet(p: Page, beyond: seq<Byte>, at: nat): seq<Byte> {
    if at < PAGE_QWORDS then PktBytes(p, beyond, at, PktLen(p, at)) else []
  }

  function Packets(p: Page, beyond: seq<Byte>, v: seq<nat>): seq<seq<Byte>> {
    seq(|v|, i requires 0 <= i < |v| => Packet(p, beyond, v[i]))
  }

  lemma PacketsCons(p: Page, beyond: seq<Byte>, at: nat, v: seq<nat>)
    ensures Packets(p, beyond, [at] + v) == [Packet(p, beyond, at)] + Packets(p, beyond, v)
    ensures [at] + [] == [at] && Packets(p, beyond, []) == []
  {
  }

  /** Everything a valid page parses to; nothing for a page whose header is not valid. */
  function Parse(p: Page, beyond: seq<Byte>): seq<seq<Byte>> {
    if IsValid(NrDwords(p)) then Packets(p, beyond, Visits(p, RESERVED_QWORDS, NrDwords(p) / 2)) else []
  }

  predicate LengthAccepted(len: nat) { 60 <= len <= 1518 }

  /** What the network stack gets for one frame: nothing, or the frame without its last four bytes. */
  function Strip(f: seq<Byte>): seq<seq<Byte>> {
    if LengthAccepted(|f|) then [f[..|f| - 4]] else []
  }

  function Delivered(frames: seq<seq<Byte>>): seq<seq<Byte>> {
    if frames == [] then [] else Strip(frames[0]) + Delivered(frames[1..])
  }

  lemma Assoc<T>(a: seq<T>, b: seq<T>, c: seq<T>)
    ensures (a + b) + c == a + (b + c)
    ensures a + [] == a && [] + a == a
  {
  }

  lemma {:induction false} DeliveredConcat(a: seq<seq<Byte>>, b: seq<seq<Byte>>)
    ensures Delivered(a + b) == Delivered(a) + Delivered(b)
    decreases |a|
  {
    if a == [] {
      assert a + b == b;
    } else {
      DeliveredConcat(a[1..], b);
      assert (a + b)[1..] == a[1..] + b;
      Assoc(Strip(a[0]), Delivered(a[1..]), Delivered(b));
    }
  }

  /** `skbs` are the frames of 60 to 1518 bytes, those at the positions `at`, in order, each but for its last four
      bytes. */
  ghost predicate Picks(frames: seq<seq<Byte>>, skbs: seq<seq<Byte>>, at: seq<nat>) {
    && |at| == |skbs| && (forall i, j :: 0 <= i < j < |at| ==> at[i] < at[j])
    && (forall j :: 0 <= j < |at| ==> PicksAt(frames, skbs[j], at[j]))
    && forall k :: 0 <= k < |frames| && 60 <= |frames[k]| <= 1518 ==> k in at
  }

  predicate PicksAt(frames: seq<seq<Byte>>, skb: seq<Byte>, k: nat) {
    k < |frames| && 60 <= |frames[k]| <= 1518 && |skb| + 4 == |frames[k]| && skb <= frames[k]
  }

  lemma {:induction false} DeliveredPicks(frames: seq<seq<Byte>>) returns (at: seq<nat>)
    ensures Picks(frames, Delivered(frames), at)
    decreases |frames|
  {
    if frames == [] {
      at := [];
    } else {
      var rest := DeliveredPicks(frames[1..]);
      var later := seq(|rest|, i requires 0 <= i < |rest| => rest[i] + 1);
      at := (if 60 <= |frames[0]| <= 1518 then [0] else []) + later;
      PicksMore(frames, Delivered(frames[1..]), rest, later);
    }
  }

  lemma PicksMore(frames: seq<seq<Byte>>, skbs: seq<seq<Byte>>, rest: seq<nat>, later: seq<nat>)
    requires frames != [] && Picks(frames[1..], skbs, rest)
    requires |later| == |rest| && forall i :: 0 <= i < |rest| ==> later[i] == rest[i] + 1
    ensures Picks(frames, Strip(frames[0]) + skbs, (if 60 <= |frames[0]| <= 1518 then [0] else []) + later)
  {
    hide PicksAt;
    var first := if 60 <= |frames[0]| <= 1518 then [0] else [];
    var at, all := first + later, Strip(frames[0]) + skbs;
    forall j | 0 <= j < |at| ensures PicksAt(frames, all[j], at[j]) {
      if j >= |first| {
        PicksLater(frames, skbs[j - |first|], rest[j - |first|]);
      } else {
        PicksFirst(frames);
      }
    }
    hide Strip;
    forall k | 0 <= k < |frames| && 60 <= |frames[k]| <= 1518 ensures k in at {
      if k > 0 {
        assert frames[1..][k - 1] == frames[k] && k - 1 in rest;
        var i :| 0 <= i < |rest| && rest[i] == k - 1;
        assert at[|first| + i] == k;
      } else {
        assert at[0] == 0;
      }
    }
    InOrder(first, rest, later);
  }

  lemma PicksLater(frames: seq<seq<Byte>>, skb: seq<Byte>, k: nat)
    requires frames != [] && PicksAt(frames[1..], skb, k)
    ensures PicksAt(frames, skb, k + 1)
  {
  }

  lemma PicksFirst(frames: seq<seq<Byte>>)
    requires frames != [] && 60 <= |frames[0]| <= 1518
    ensures |Strip(frames[0])| == 1 && PicksAt(frames, Strip(frames[0])[0], 0)
  {
  }

  lemma InOrder(first: seq<nat>, rest: seq<nat>, later: seq<nat>)
    requires first == [] || first == [0]
    requires |later| == |rest| && forall i :: 0 <= i < |rest| ==> later[i] == rest[i] + 1
    requires forall i, j :: 0 <= i < j < |rest| ==> rest[i] < rest[j]
    ensures forall i, j :: 0 <= i < j < |first + later| ==> (first + later)[i] < (first + later)[j]
  {
    forall i, j | 0 <= i < j < |first + later| ensures (first + later)[i] < (first + later)[j] {
      if i >= |first| { assert rest[i - |first|] < rest[j - |first|]; }
    }
  }

  /** The buffers the driver's walk fills from position `at` on. */
  function SkbsFrom(p: Page, beyond: seq<Byte>, at: nat, end: nat): seq<seq<Byte>>
    requires at < end <= PAGE_QWORDS
    decreases end - at
  {
    Skb(p, beyond, at) + if Next(p, at) < end then SkbsFrom(p, beyond, Next(p, at), end) else []
  }

  function Skb(p: Page, beyond: seq<Byte>, at: nat): seq<seq<Byte>>
    requires at < PAGE_QWORDS
  {
    if LengthAccepted(PktLen(p, at)) then [PktBytes(p, beyond, at, PktLen(p, at) - 4)] else []
  }

  lemma SkbIsStrippedPacket(p: Page, beyond: seq<Byte>, at: nat)
    requires at < PAGE_QWORDS
    ensures Strip(Packet(p, beyond, at)) == Skb(p, beyond, at)
  {
    var len := PktLen(p, at);
    if LengthAccepted(len) {
      assert PktBytes(p, beyond, at, len - 4) == Packet(p, beyond, at)[..len - 4];
    }
  }

  lemma {:induction false} SkbsAreStrippedPackets(p: Page, beyond: seq<Byte>, at: nat, end: nat)
    requires at < end <= PAGE_QWORDS
    ensures SkbsFrom(p, beyond, at, end) == Delivered(Packets(p, beyond, Visits(p, at, end)))
    decreases end - at
  {
    var rest := if Next(p, at) < end then Visits(p, Next(p, at), end) else [];
    PacketsCons(p, beyond, at, rest);
    assert ([Packet(p, beyond, at)] + Packets(p, beyond, rest))[1..] == Packets(p, beyond, rest);
    SkbIsStrippedPacket(p, beyond, at);
    if Next(p, at) < end {
      SkbsAreStrippedPackets(p, beyond, Next(p, at), end);
    }
  }

  lemma DwordStep(p: Page, idx: nat, at: nat)
    requires at < PAGE_QWORDS && idx == 2 * at
    ensures Dword(p, idx + 1) == PktLen(p, at) && NextIdx(idx, PktLen(p, at)) == 2 * Next(p, at)
  {
    assert (idx + 1) / 2 == at;
  }

  /** One iteration of the driver's walk in its own units. */
  lemma WalkStep(p: Page, beyond: seq<Byte>, idx: nat, at: nat, end: nat, skbs: seq<seq<Byte>>)
    requires at < end <= PAGE_QWORDS && idx == 2 * at
    ensures Dword(p, idx + 1) == PktLen(p, at) && NextIdx(idx, PktLen(p, at)) == 2 * Next(p, at)
    ensures Skb(p, beyond, at)
         == if LengthAccepted(PktLen(p, at)) then [PktBytes(p, beyond, idx / 2, PktLen(p, at) - 4)] else []
    ensures (skbs + Skb(p, beyond, at)) + (if Next(p, at) < end then SkbsFrom(p, beyond, Next(p, at), end) else [])
         == skbs + SkbsFrom(p, beyond, at, end)
    ensures skbs + [] == skbs
  {
    DwordStep(p, idx, at);
    hide PktLen, Dword, NextIdx, Next, PktBytes;
    Assoc(skbs, Skb(p, beyond, at), if Next(p, at) < end then SkbsFrom(p, beyond, Next(p, at), end) else []);
  }

  /** deliver_packets: the walk over a page in dword indices, without the pool it draws buffers from. */
  method DeliverPackets(p: Page, beyond: seq<Byte>) returns (skbs: seq<seq<Byte>>, rxPackets: nat)
    ensures skbs == Delivered(Parse(p, beyond)) && rxPackets == |skbs|
    ensures exists at :: Picks(Parse(p, beyond), skbs, at)
  {
    ghost var at := DeliveredPicks(Parse(p, beyond));
    var nrDwords := NrDwords(p);
    if !IsValid(nrDwords) { return [], 0; }
    skbs, rxPackets := WalkPage(p, beyond, nrDwords);
    SkbsAreStrippedPackets(p, beyond, RESERVED_QWORDS, nrDwords / 2);
  }

  method WalkPage(p: Page, beyond: seq<Byte>, nrDwords: nat) returns (skbs: seq<seq<Byte>>, rxPackets: nat)
    requires IsValid(nrDwords) && nrDwords == 2 * (nrDwords / 2)
    ensures skbs == SkbsFrom(p, beyond, RESERVED_QWORDS, nrDwords / 2) && rxPackets == |skbs|
  {
    hide SkbsFrom, Skb, PktBytes, Next, Dword;
    skbs, rxPackets := [], 0;
    var idx := RESERVED_DWORDS;
    ghost var at, end := RESERVED_QWORDS, nrDwords / 2;
    ghost var all := SkbsFrom(p, beyond, at, end);
    ghost var rest := all;
    while true
      invariant idx == 2 * at && at < end && rxPackets == |skbs|
      invariant rest == SkbsFrom(p, beyond, at, end) && skbs + rest == all
      decreases end - at
    {
      WalkStep(p, beyond, idx, at, end, skbs);
      var pktLen := Dword(p, idx + 1);
      if LengthAccepted(pktLen) {
        var dataLen := pktLen - 4;
        skbs := skbs + [PktBytes(p, beyond, idx / 2, dataLen)];
        rxPackets := rxPackets + 1;
      }
      idx := NextIdx(idx, pktLen);
      at := Next(p, at);
      rest := if at < end then SkbsFrom(p, beyond, at, end) else [];
      assert skbs + rest == all;
      if idx >= nrDwords { break; }
    }
    Assoc(skbs, [], []);
  }

  // ----- packets laid out by the hardware ----------------------------------------------------

  function FrameQwords(f: seq<Byte>): nat { 1 + (|f| + 7) / 8 }

  /** The qwords the first `k` frames occupy. */
  function Offset(fs: seq<seq<Byte>>, k: nat): (o: nat)
    requires k <= |fs|
  {
    if k == 0 then 0 else Offset(fs, k - 1) + FrameQwords(fs[k - 1])
  }

  lemma {:induction false} OffsetGrows(fs: seq<seq<Byte>>, i: nat, j: nat)
    requires i <= j <= |fs|
    ensures Offset(fs, i) + (j - i) <= Offset(fs, j)
    decreases j
  {
    if i < j { OffsetGrows(fs, i, j - 1); }
  }

  lemma {:induction false} OffsetAppend(fs: seq<seq<Byte>>, f: seq<Byte>, k: nat)
    requires k <= |fs|
    ensures Offset(fs + [f], k) == Offset(fs, k)
    decreases k
  {
    if k > 0 { OffsetAppend(fs, f, k - 1); }
  }

  /** From `at` on, `qs` holds a header with the frame's length, then its bytes with arbitrary padding. */
  ghost predicate EncodedAt(qs: seq<Qword>, at: nat, f: seq<Byte>) {
    && at + FrameQwords(f) <= |qs|
    && HighDword(qs[at]) == |f|
    && forall i :: 0 <= i < |f| ==> qs[at + 1 + i / 8][i % 8] == f[i]
  }

  lemma PacketEncoded(p: Page, beyond: seq<Byte>, at: nat, f: seq<Byte>)
    requires EncodedAt(p, at, f)
    ensures Packet(p, beyond, at) == f && Next(p, at) == at + FrameQwords(f)
  {
    forall i | 0 <= i < |f| ensures Packet(p, beyond, at)[i] == f[i] {
      assert (8 * (at + 1) + i) / 8 == at + 1 + i / 8;
      assert (8 * (at + 1) + i) % 8 == i % 8;
    }
  }

  /** From `at` on, `qs` holds frames `k` to `n` of a list, one after the other. */
  ghost predicate HoldsFrames(qs: seq<Qword>, at: nat, fs: seq<seq<Byte>>, k: nat, n: nat)
    requires k <= n <= |fs|
  {
    forall j :: k <= j < n ==> Offset(fs, k) <= Offset(fs, j)
                               && EncodedAt(qs, at + Offset(fs, j) - Offset(fs, k), fs[j])
  }

  lemma HoldsRest(qs: seq<Qword>, at: nat, fs: seq<seq<Byte>>, k: nat, n: nat)
    requires k < n <= |fs| && HoldsFrames(qs, at, fs, k, n)
    ensures EncodedAt(qs, at, fs[k]) && HoldsFrames(qs, at + FrameQwords(fs[k]), fs, k + 1, n)
  {
    assert Offset(fs, k + 1) == Offset(fs, k) + FrameQwords(fs[k]);
    forall j | k + 1 <= j < n
      ensures Offset(fs, k + 1) <= Offset(fs, j)
      ensures EncodedAt(qs, at + FrameQwords(fs[k]) + Offset(fs, j) - Offset(fs, k + 1), fs[j])
    {
      OffsetGrows(fs, k + 1, j);
    }
  }

  /** The walk over a stretch of a page that holds frames `k` to `n` of a list meets exactly those. */
  lemma {:induction false} WalkEncoded(p: Page, beyond: seq<Byte>, at: nat, end: nat,
                                       fs: seq<seq<Byte>>, k: nat, n: nat)
    requires k < n <= |fs| && end <= PAGE_QWORDS && at + Offset(fs, n) == end + Offset(fs, k)
    requires HoldsFrames(p, at, fs, k, n)
    ensures at < end && Packets(p, beyond, Visits(p, at, end)) == fs[k..n]
    decreases n - k
  {
    hide HoldsFrames, EncodedAt, Packets, Packet, Next;
    HoldsRest(p, at, fs, k, n);
    PacketEncoded(p, beyond, at, fs[k]);
    OffsetGrows(fs, k + 1, n);
    var next := at + FrameQwords(fs[k]);
    assert Offset(fs, k + 1) == Offset(fs, k) + FrameQwords(fs[k]);
    hide Offset, FrameQwords;
    if k + 1 < n {
      WalkEncoded(p, beyond, next, end, fs, k + 1, n);
      PacketsCons(p, beyond, at, Visits(p, next, end));
    } else {
      PacketsCons(p, beyond, at, []);
    }
    FirstOf(fs, k, n);
  }

  lemma FirstOf<T>(fs: seq<T>, k: nat, n: nat)
    requires k < n <= |fs|
    ensures fs[k..n] == [fs[k]] + fs[k + 1..n]
  {
  }

  /** A page whose header counts the qwords of frames `k` to `n` is valid and parses to those frames. */
  lemma ParseEncoded(p: Page, beyond: seq<Byte>, fs: seq<seq<Byte>>, k: nat, n: nat)
    requires k < n <= |fs| && LowDword(p[0]) + Offset(fs, k) == Offset(fs, n)
    requires RESERVED_QWORDS + LowDword(p[0]) <= PAGE_QWORDS && HoldsFrames(p, RESERVED_QWORDS, fs, k, n)
    ensures IsValid(NrDwords(p)) && Parse(p, beyond) == fs[k..n]
  {
    hide LowDword, Offset, EncodedAt, HoldsFrames, Visits, Packets;
    var end := RESERVED_QWORDS + LowDword(p[0]);
    assert NrDwords(p) == 2 * end;
    WalkEncoded(p, beyond, RESERVED_QWORDS, end, fs, k, n);
    assert NrDwords(p) / 2 == end;
  }

  // ----- the application's walk --------------------------------------------------------------

  function ToInt32(x: nat): int { if x < 0x8000_0000 then x else x - U32 }

  /** max_dword_idx, a signed variable. */
  function AppMax(p: Page): (max: int)
    ensures max == 2 * (max / 2)
  {
    ToInt32(CountToDwords(LowDword(p[0])))
  }

  predicate AppAccepts(p: Page) { LowDword(p[0]) != 0 && AppMax(p) <= LBUF_DWORDS }

  /** The application rounds without wrapping. */
  function AppNext(p: Page, at: nat): (next: nat)
    requires at < PAGE_QWORDS
    ensures at < next
  {
    at + 1 + (PktLen(p, at) + 7) / 8
  }

  function AppVisits(p: Page, at: nat, end: int): (v: seq<nat>)
    requires at < PAGE_QWORDS && end <= PAGE_QWORDS
    decreases PAGE_QWORDS - at
  {
    [at] + if AppNext(p, at) < end then AppVisits(p, AppNext(p, at), end) else []
  }

  /** Stepping by whole dwords and then correcting for the remainder rounds up to a qword. */
  lemma StepInQwords(len: nat)
    ensures len / 4 + (if len % 8 >= 4 then 1 else if len % 8 > 0 then 2 else 0) == 2 * ((len + 7) / 8)
  {
    var k, r := len / 8, len % 8;
    assert len == 8 * k + r;
    assert (len + 7) / 8 == if r == 0 then k else k + 1;
    assert len / 4 == if r >= 4 then 2 * k + 1 else 2 * k;
  }

  function AcceptedCount(p: Page, v: seq<nat>): nat {
    if v == [] then 0
    else AcceptedCount(p, v[1..]) + if v[0] < PAGE_QWORDS && LengthAccepted(PktLen(p, v[0])) then 1 else 0
  }

  /** The positions of packets of 60 to 1518 bytes are counted, and no others. */
  lemma {:induction false} AcceptedCountIs(p: Page, v: seq<nat>)
    requires forall i :: 0 <= i < |v| ==> v[i] < PAGE_QWORDS
    ensures AcceptedCount(p, v) == |set i: nat | i < |v| && 60 <= PktLen(p, v[i]) <= 1518|
    decreases |v|
  {
    hide PktLen;
    var all := set i: nat | i < |v| && 60 <= PktLen(p, v[i]) <= 1518;
    if v != [] {
      AcceptedCountIs(p, v[1..]);
      var rest := set i: nat | i < |v[1..]| && 60 <= PktLen(p, v[1..][i]) <= 1518;
      var later := set i: nat | 0 < i < |v| && 60 <= PktLen(p, v[i]) <= 1518;
      Shifted(rest, later) by {
        assert forall i: nat :: i in rest <==> i + 1 in later;
      }
      assert all == if 60 <= PktLen(p, v[0]) <= 1518 then {0 as nat} + later else later;
    }
  }

  lemma {:induction false} Shifted(a: set<nat>, b: set<nat>)
    requires (forall i :: i in a <==> i + 1 in b) && 0 !in b
    ensures |a| == |b|
    decreases |b|
  {
    if b == {} {
      assert a == {};
    } else {
      var x :| x in b;
      assert x - 1 in a;
      Shifted(a - {x - 1}, b - {x});
    }
  }

  lemma AppWalkStep(p: Page, at: nat, end: int)
    requires at < PAGE_QWORDS && end <= PAGE_QWORDS
    ensures var len := PktLen(p, at);
            && Dword(p, 2 * at + 1) == len
            && 2 * AppNext(p, at) == 2 * at + 2 + len / 4 + (if len % 8 >= 4 then 1 else if len % 8 > 0 then 2 else 0)
    ensures AcceptedCount(p, AppVisits(p, at, end))
         == (if AppNext(p, at) < end then AcceptedCount(p, AppVisits(p, AppNext(p, at), end)) else 0)
            + if LengthAccepted(PktLen(p, at)) then 1 else 0
  {
    hide Wrap32, HighDword, LowDword, LengthAccepted;
    StepInQwords(PktLen(p, at));
    assert (2 * at + 1) / 2 == at;
    assert AppVisits(p, at, end)[1..] == if AppNext(p, at) < end then AppVisits(p, AppNext(p, at), end) else [];
  }

  /** The body of the application's main loop for one buffer. */
  method AppWalk(p: Page) returns (rxPackets: nat)
    ensures rxPackets
         == if AppAccepts(p) then AcceptedCount(p, AppVisits(p, RESERVED_QWORDS, AppMax(p) / 2)) else 0
  {
    hide AppVisits, AcceptedCount, AppNext, AppMax, PktLen;
    rxPackets := 0;
    var maxIdx := AppMax(p);
    if LowDword(p[0]) == 0 || maxIdx > LBUF_DWORDS { return; }
    var idx := RESERVED_DWORDS;
    ghost var at, end := RESERVED_QWORDS, maxIdx / 2;
    ghost var all := AppVisits(p, at, end);
    while true
      invariant idx == 2 * at && maxIdx == 2 * end && at < PAGE_QWORDS && end <= PAGE_QWORDS
      invariant rxPackets + AcceptedCount(p, AppVisits(p, at, end)) == AcceptedCount(p, all)
      decreases PAGE_QWORDS - at
    {
      AppWalkStep(p, at, end);
      idx := idx + 1;
      var pktLen := Dword(p, idx);
      idx := idx + 1;
      if LengthAccepted(pktLen) {
        rxPackets := rxPackets + 1;
      }
      idx := idx + pktLen / 4;
      var remainder := pktLen % 8;
      if remainder >= 4 {
        idx := idx + 1;
      } else if remainder > 0 {
        idx := idx + 2;
      }
      at := AppNext(p, at);
      if idx >= maxIdx { break; }
    }
  }

  /** The two walkers accept the same headers except where the doubled count leaves the signed range
      or wraps to at most the reserved area. */
  lemma AcceptanceAgreesIff(p: Page)
    ensures var count := LowDword(p[0]);
            (IsValid(NrDwords(p)) <==> AppAccepts(p))
            <==> (count == 0 || 0 < count % 0x8000_0000 < 0x4000_0000 - RESERVED_QWORDS)
    ensures IsValid(NrDwords(p)) ==> AppAccepts(p) && AppMax(p) == NrDwords(p)
  {
    var count := LowDword(p[0]);
    assert count % 0x8000_0000 == if count < 0x8000_0000 then count else count - 0x8000_0000;
  }

  predicate RoundsWithoutWrap(p: Page, at: nat) { at < PAGE_QWORDS && PktLen(p, at) <= U32 - 8 }

  lemma NextAgreesIff(p: Page, at: nat)
    requires at < PAGE_QWORDS
    ensures Next(p, at) == AppNext(p, at) <==> RoundsWithoutWrap(p, at)
    ensures !RoundsWithoutWrap(p, at) ==> Next(p, at) == at + 1 && AppNext(p, at) >= PAGE_QWORDS
  {
  }

  /** No visited packet, other than one in the last qword, has a length whose rounding wraps. */
  predicate NoWrap(p: Page, v: seq<nat>, end: nat) {
    forall i :: 0 <= i < |v| && v[i] + 1 < end ==> RoundsWithoutWrap(p, v[i])
  }

  lemma NoWrapCons(p: Page, at: nat, rest: seq<nat>, end: nat)
    ensures NoWrap(p, [at] + rest, end) <==> (at + 1 < end ==> RoundsWithoutWrap(p, at)) && NoWrap(p, rest, end)
  {
    var v := [at] + rest;
    assert v[0] == at;
    if NoWrap(p, v, end) {
      forall i | 0 <= i < |rest| && rest[i] + 1 < end ensures RoundsWithoutWrap(p, rest[i]) {
        assert v[i + 1] == rest[i];
      }
    }
  }

  lemma SameHead<T>(x: T, a: seq<T>, b: seq<T>)
    ensures [x] + a == [x] + b <==> a == b
  {
    assert ([x] + a)[1..] == a && ([x] + b)[1..] == b;
  }

  /** On a page both accept, the walkers visit the same positions exactly when no rounding wraps. */
  lemma {:induction false} WalksAgreeIff(p: Page, at: nat, end: nat)
    requires at < end <= PAGE_QWORDS
    ensures Visits(p, at, end) == AppVisits(p, at, end) <==> NoWrap(p, Visits(p, at, end), end)
    decreases end - at
  {
    NextAgreesIff(p, at);
    var next := Next(p, at);
    var rest := if next < end then Visits(p, next, end) else [];
    NoWrapCons(p, at, rest, end);
    if next < end {
      assert rest != [];
      SameHead(at, rest, if RoundsWithoutWrap(p, at) then AppVisits(p, next, end) else []);
      if RoundsWithoutWrap(p, at) {
        WalksAgreeIff(p, next, end);
      }
    }
  }
}
