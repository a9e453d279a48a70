/** The huge-page writer: turns each request into a memory-write TLP of ring qwords, and ends a page
    by writing its qword count over the page's first qword.  One TLP is one step. */
module RxWrPktToHugepages {
  import opened LbufApi
  import opened Ring
  import opened RxTlpTrigger

  const PAGE_BYTES: nat := 0x20_0000
  const RESERVED_BYTES: nat := 0x80

  /** send_fsm between TLPs: s0 waits for a huge page, s1 for a request. */
  datatype WriterRegs = WriterRegs(ready: bool, base: nat, hostAddr: nat, counter: nat, remember: bool,
                                   rd: nat, tlpNumber: nat)

  /** A posted write of whole qwords; data in host memory order. */
  datatype Tlp = Tlp(addr: nat, tag: nat, data: seq<Qword>)

  /** The count as the first dword of a page, the second dword zero. */
  function CountQword(n: nat): Qword {
    [n % 0x100, n / 0x100 % 0x100, n / 0x1_0000 % 0x100, n / 0x100_0000, 0, 0, 0, 0]
  }

  /** `n` qwords of the ring from slot `rd` on. */
  function Slots(ring: seq<Qword>, rd: nat, n: nat): seq<Qword>
    requires |ring| == RING
  {
    seq(n, i requires 0 <= i => ring[(rd + i) % RING])
  }

  function DataTlp(r: WriterRegs, ring: seq<Qword>, n: nat): Tlp
    requires |ring| == RING
  {
    Tlp(r.hostAddr, r.tlpNumber % 16, Slots(ring, r.rd, n))
  }

  function AfterTlp(r: WriterRegs, n: nat): WriterRegs {
    r.(hostAddr := r.hostAddr + 8 * n, counter := r.counter + n, rd := (r.rd + n) % RING,
       tlpNumber := (r.tlpNumber + 1) % U32)
  }

  function HeaderTlp(r: WriterRegs): Tlp { Tlp(r.base, 0, [CountQword(r.counter)]) }

  class HugepageWriter {
    var ready: bool
    var base: nat
    var hostAddr: nat
    var counter: nat
    var remember: bool
    var rd: nat
    var tlpNumber: nat

    ghost function State(): WriterRegs
      reads this
    {
      WriterRegs(ready, base, hostAddr, counter, remember, rd, tlpNumber)
    }

    constructor ()
      ensures State() == WriterRegs(false, 0, 0, 0, false, 0, 0)
    {
      ready, base, hostAddr, counter, remember, rd, tlpNumber := false, 0, 0, 0, false, 0, 0;
    }

    method TakePage(addr: nat)
      requires !ready
      modifies this
      ensures State() == NewPage(old(State()), addr)
    {
      ready, base, hostAddr, counter := true, addr, addr + RESERVED_BYTES, 0;
    }

    /** States s2 to s5: header, then one ring qword after the other; RxTlpSender has them clock by clock, and says
        for which stalls of the endpoint this is what they do. */
    method SendTlp(ring: array<Qword>, n: nat) returns (t: Tlp)
      requires ring.Length == RING
      modifies this
      ensures t == old(DataTlp(State(), ring[..], n)) && State() == AfterTlp(old(State()), n)
    {
      var data := [];
      for i := 0 to n
        invariant data == Slots(ring[..], rd, i)
        invariant State() == old(State())
      {
        data := data + [ring[(rd + i) % RING]];
      }
      t := Tlp(hostAddr, tlpNumber % 16, data);
      hostAddr, counter := hostAddr + 8 * n, counter + n;
      rd, tlpNumber := (rd + n) % RING, (tlpNumber + 1) % U32;
    }

    /** State s1: an owed or requested page end first, then a last TLP, then a full one.  `taken` is the
        acknowledgement; a last TLP is acknowledged only with the page end that follows it. */
    method Serve(ring: array<Qword>, q: Request) returns (t: Tlp, taken: bool)
      requires ring.Length == RING && ready
      modifies this
      ensures State() == Served(old(State()), q) && taken == Takes(old(State()), q)
      ensures t == old(ServedTlp(State(), ring[..], q))
    {
      taken := true;
      if q == Change || remember {
        remember, ready := false, false;
        t := Tlp(base, 0, [CountQword(counter)]);
      } else if q.Last? {
        remember, taken := true, false;
        t := SendTlp(ring, q.qwords);
      } else {
        t := SendTlp(ring, TLP_QWORDS);
      }
    }
  }

  function NewPage(r: WriterRegs, addr: nat): WriterRegs {
    r.(ready := true, base := addr, hostAddr := addr + RESERVED_BYTES, counter := 0)
  }

  predicate Closes(r: WriterRegs, q: Request) { q == Change || r.remember }

  predicate Takes(r: WriterRegs, q: Request) { Closes(r, q) || q == Data }

  function Served(r: WriterRegs, q: Request): WriterRegs {
    if Closes(r, q) then r.(remember := false, ready := false)
    else AfterTlp(r.(remember := q.Last?), Size(q))
  }

  function ServedTlp(r: WriterRegs, ring: seq<Qword>, q: Request): Tlp
    requires |ring| == RING
  {
    if Closes(r, q) then HeaderTlp(r) else DataTlp(r, ring, Size(q))
  }

  // ----- what ends up in host memory ---------------------------------------------------------

  /** A page given back to the host: the TLPs that wrote it and the qwords they carried. */
  datatype Returned = Returned(base: nat, tlps: seq<Tlp>, data: seq<Qword>)

  /** The writer with the count behind `rd`, the TLPs and qwords of the current page, and the pages returned. */
  datatype Writer = Writer(r: WriterRegs, rdCount: nat, tlps: seq<Tlp>, data: seq<Qword>, returned: seq<Returned>)

  function Init(): Writer { Writer(WriterRegs(false, 0, 0, 0, false, 0, 0), 0, [], [], []) }

  function TakePage(w: Writer, addr: nat): Writer {
    w.(r := NewPage(w.r, addr), tlps := [], data := [])
  }

  /** The TLP `t` has been sent for the request. */
  function Sent(w: Writer, q: Request, t: Tlp): Writer {
    var n := w.(r := Served(w.r, q), tlps := w.tlps + [t]);
    if Closes(w.r, q)
    then n.(returned := w.returned + [Returned(w.r.base, w.tlps + [t], w.data)], data := [], tlps := [])
    else n.(data := w.data + t.data, rdCount := w.rdCount + Size(q))
  }

  function Serve(w: Writer, ring: seq<Qword>, q: Request): Writer
    requires |ring| == RING
  {
    Sent(w, q, ServedTlp(w.r, ring, q))
  }

  /** Every data TLP starts on a 128-byte boundary of the page and carries 1 to 16 qwords. */
  predicate Aligned(t: Tlp, base: nat) { base % PAGE_BYTES == 0 && t.addr % 128 == 0 && 1 <= |t.data| <= TLP_QWORDS }

  /** No TLP crosses a 4 KB boundary (section 2.2.7 of the PCI Express Base Specification). */
  predicate WithinFourKb(t: Tlp) { |t.data| > 0 && t.addr / 0x1000 == (t.addr + 8 * |t.data| - 1) / 0x1000 }

  lemma AlignedStaysWithin(t: Tlp, base: nat)
    requires Aligned(t, base)
    ensures WithinFourKb(t)
  {
    var k := t.addr / 128;
    assert t.addr == 128 * k;
    assert t.addr / 0x1000 == k / 32;
    assert (t.addr + 8 * |t.data| - 1) / 128 == k;
  }

  /** The TLPs lay out `data` without gaps behind the reserved area of the page at `base`. */
  ghost predicate Laid(tlps: seq<Tlp>, base: nat, data: seq<Qword>)
    decreases |tlps|
  {
    if tlps == [] then data == []
    else
      var t := tlps[|tlps| - 1];
      var before := |data| - |t.data|;
      && before >= 0
      && t.addr == base + RESERVED_BYTES + 8 * before
      && t.data == data[before..]
      && Aligned(t, base)
      && Laid(tlps[..|tlps| - 1], base, data[..before])
  }

  lemma LaidAppend(tlps: seq<Tlp>, base: nat, data: seq<Qword>, t: Tlp)
    requires Laid(tlps, base, data) && Aligned(t, base) && t.addr == base + RESERVED_BYTES + 8 * |data|
    ensures Laid(tlps + [t], base, data + t.data)
  {
    assert (tlps + [t])[..|tlps|] == tlps;
    assert (data + t.data)[|data|..] == t.data && (data + t.data)[..|data|] == data;
  }

  /** A page of host memory after a posted write. */
  function Dma(p: Page, base: nat, t: Tlp): Page {
    seq<Qword>(PAGE_QWORDS, i requires 0 <= i < PAGE_QWORDS =>
      if t.addr <= base + 8 * i < t.addr + 8 * |t.data| then t.data[(base + 8 * i - t.addr) / 8] else p[i])
  }

  function DmaAll(p: Page, base: nat, tlps: seq<Tlp>): Page
    decreases |tlps|
  {
    if tlps == [] then p else Dma(DmaAll(p, base, tlps[..|tlps| - 1]), base, tlps[|tlps| - 1])
  }

  lemma {:induction false} LaidIsWritten(p: Page, base: nat, tlps: seq<Tlp>, data: seq<Qword>, i: nat)
    requires Laid(tlps, base, data) && i < |data| && RESERVED_QWORDS + |data| <= PAGE_QWORDS
    ensures DmaAll(p, base, tlps)[RESERVED_QWORDS + i] == data[i]
    decreases |tlps|
  {
    hide Dma, Aligned;
    var t := tlps[|tlps| - 1];
    var before := |data| - |t.data|;
    DmaReads(DmaAll(p, base, tlps[..|tlps| - 1]), base, t, before, i);
    if i < before {
      LaidIsWritten(p, base, tlps[..|tlps| - 1], data[..before], i);
    }
  }

  lemma DmaReads(p: Page, base: nat, t: Tlp, before: nat, i: nat)
    requires t.addr == base + RESERVED_BYTES + 8 * before && i < before + |t.data|
    requires RESERVED_QWORDS + before + |t.data| <= PAGE_QWORDS
    ensures Dma(p, base, t)[RESERVED_QWORDS + i] == if i < before then p[RESERVED_QWORDS + i] else t.data[i - before]
  {
    var a := base + 8 * (RESERVED_QWORDS + i);
    assert i >= before ==> a - t.addr == 8 * (i - before);
  }

  lemma CountQwordHoldsCount(n: nat)
    requires n < U32
    ensures LowDword(CountQword(n)) == n && HighDword(CountQword(n)) == 0
  {
    assert n == n % 0x100 + 0x100 * (n / 0x100 % 0x100) + 0x1_0000 * (n / 0x1_0000 % 0x100)
                + 0x100_0000 * (n / 0x100_0000);
  }

  /** A returned page: its TLPs lay out its qwords, and a final write puts their number in front. */
  ghost predicate PageOk(g: Returned) {
    && 0 < |g.data| && RESERVED_QWORDS + |g.data| < PAGE_QWORDS
    && g.base % PAGE_BYTES == 0
    && 0 < |g.tlps| && g.tlps[|g.tlps| - 1] == Tlp(g.base, 0, [CountQword(|g.data|)])
    && Laid(g.tlps[..|g.tlps| - 1], g.base, g.data)
  }

  /** Whatever was in the page before, a returned page holds its count and its qwords. */
  lemma PageContents(p: Page, g: Returned)
    requires PageOk(g)
    ensures var m := DmaAll(p, g.base, g.tlps);
            && LowDword(m[0]) == |g.data|
            && forall i :: 0 <= i < |g.data| ==> m[RESERVED_QWORDS + i] == g.data[i]
  {
    var data := g.tlps[..|g.tlps| - 1];
    var m, m0 := DmaAll(p, g.base, g.tlps), DmaAll(p, g.base, data);
    CountQwordHoldsCount(|g.data|);
    assert m[0] == CountQword(|g.data|);
    forall i | 0 <= i < |g.data| ensures m[RESERVED_QWORDS + i] == g.data[i] {
      LaidIsWritten(p, g.base, data, g.data, i);
      assert m[RESERVED_QWORDS + i] == m0[RESERVED_QWORDS + i];
    }
  }

  ghost predicate Inv(w: Writer) {
    && w.r.rd == w.rdCount % RING
    && (forall g :: g in w.returned ==> PageOk(g))
    && (!w.r.ready ==> !w.r.remember && w.data == [])
    && (w.r.ready ==>
          && w.r.base % PAGE_BYTES == 0
          && w.r.hostAddr == w.r.base + RESERVED_BYTES + 8 * |w.data|
          && w.r.counter == |w.data|
          && Laid(w.tlps, w.r.base, w.data))
    && (!w.r.remember ==> |w.data| % 16 == 0)
  }

  /** The request fits what the current page already holds. */
  ghost predicate Fits(w: Writer, q: Request) {
    && RESERVED_QWORDS + |w.data| + (if w.r.remember then 0 else Size(q)) < PAGE_QWORDS
    && (w.r.remember ==> q.Last? && 0 < |w.data|)
    && (q == Change ==> 0 < |w.data|)
    && (q.Last? ==> 1 <= q.qwords < TLP_QWORDS)
  }

  lemma TakeKeeps(w: Writer, addr: nat)
    requires Inv(w) && !w.r.ready && addr % PAGE_BYTES == 0
    ensures Inv(TakePage(w, addr))
  {
    assert Laid([], addr, []);
  }

  /** Serving a request keeps the invariant; a data TLP carries the next qwords of the stream, aligned. */
  lemma ServeKeeps(w: Writer, ring: seq<Qword>, stream: seq<Qword>, q: Request)
    requires Inv(w) && w.r.ready && Fits(w, q)
    requires Holds(ring, stream, w.rdCount, |stream|)
    requires Closes(w.r, q) || w.rdCount + Size(q) <= |stream|
    ensures Inv(Serve(w, ring, q))
    ensures !Closes(w.r, q) ==>
              && ServedTlp(w.r, ring, q).data == stream[w.rdCount..w.rdCount + Size(q)]
              && Aligned(ServedTlp(w.r, ring, q), w.r.base) && WithinFourKb(ServedTlp(w.r, ring, q))
  {
    if Closes(w.r, q) {
      CloseKeeps(w, ring, q);
    } else {
      DataKeeps(w, ring, stream, q);
    }
  }

  lemma CloseKeeps(w: Writer, ring: seq<Qword>, q: Request)
    requires Inv(w) && w.r.ready && Fits(w, q) && Closes(w.r, q) && |ring| == RING
    ensures Inv(Serve(w, ring, q))
  {
    hide Laid;
    var g := Returned(w.r.base, w.tlps + [HeaderTlp(w.r)], w.data);
    assert g.tlps[..|g.tlps| - 1] == w.tlps;
    assert PageOk(g);
  }

  lemma DataKeeps(w: Writer, ring: seq<Qword>, stream: seq<Qword>, q: Request)
    requires Inv(w) && w.r.ready && Fits(w, q) && !Closes(w.r, q)
    requires Holds(ring, stream, w.rdCount, |stream|) && w.rdCount + Size(q) <= |stream|
    ensures Inv(Serve(w, ring, q))
    ensures ServedTlp(w.r, ring, q).data == stream[w.rdCount..w.rdCount + Size(q)]
    ensures Aligned(ServedTlp(w.r, ring, q), w.r.base) && WithinFourKb(ServedTlp(w.r, ring, q))
  {
    var n, t := Size(q), ServedTlp(w.r, ring, q);
    SlotsAreStream(ring, stream, w.rdCount, n);
    AddressAligned(w.r.base, |w.data|);
    AlignedStaysWithin(t, w.r.base);
    hide WithinFourKb, Slots, Holds;
    LaidAppend(w.tlps, w.r.base, w.data, t);
    hide Laid, PageOk, Aligned;
    SameSlot(w.rdCount, n);
  }

  lemma AddressAligned(base: nat, n: nat)
    requires base % PAGE_BYTES == 0 && n % 16 == 0
    ensures (base + RESERVED_BYTES + 8 * n) % 128 == 0
  {
    assert n == 16 * (n / 16) && base == 128 * (base / 128);
  }

  lemma SlotsAreStream(ring: seq<Qword>, stream: seq<Qword>, lo: nat, n: nat)
    requires Holds(ring, stream, lo, |stream|) && lo + n <= |stream| && n < RING
    ensures Slots(ring, lo % RING, n) == stream[lo..lo + n]
  {
    forall i | 0 <= i < n ensures Slots(ring, lo % RING, n)[i] == stream[lo + i] {
      SameSlot(lo, i);
    }
  }

  lemma SameSlot(lo: nat, i: nat)
    requires i < RING
    ensures (lo % RING + i) % RING == (lo + i) % RING
  {
    AddIsShift(lo, i, RING);
    AddIsShift(lo % RING, i, RING);
  }

  // ----- the TLPs' numbers -------------------------------------------------------------------

  /** The TLPs with qwords on the returned pages: all but each page's header. */
  function DataTlps(rs: seq<Returned>): nat {
    if rs == [] then 0
    else
      var n := |rs[|rs| - 1].tlps|;
      DataTlps(rs[..|rs| - 1]) + if n > 0 then n - 1 else 0
  }

  /** `tlpNumber` counts the data TLPs, modulo 2^32. */
  predicate Numbered(w: Writer) {
    w.r.tlpNumber == (DataTlps(w.returned) + |w.tlps|) % U32 && (!w.r.ready ==> w.tlps == [])
  }

  /** Every data TLP carries its number among all of them, modulo 16, as its tag. */
  lemma ServeNumbers(w: Writer, ring: seq<Qword>, q: Request)
    requires Numbered(w) && |ring| == RING && w.r.ready
    ensures Numbered(Serve(w, ring, q))
    ensures !Closes(w.r, q) ==> ServedTlp(w.r, ring, q).tag == (DataTlps(w.returned) + |w.tlps|) % 16
  {
    var n := DataTlps(w.returned) + |w.tlps|;
    TagOfNumber(n);
    if Closes(w.r, q) {
      var g := Returned(w.r.base, w.tlps + [HeaderTlp(w.r)], w.data);
      assert (w.returned + [g])[..|w.returned|] == w.returned;
    }
    hide Slots;
  }

  lemma TagOfNumber(n: nat)
    ensures n % U32 % 16 == n % 16 && (n % U32 + 1) % U32 == (n + 1) % U32
  {
    LowBits(n);
    NextNumber(n);
  }

  lemma LowBits(n: nat)
    ensures n % U32 % 16 == n % 16
  {
    var k, r := n / U32, n % U32;
    var j, t := r / 16, r % 16;
    assert n == 16 * (0x1000_0000 * k + j) + t;
  }

  lemma NextNumber(n: nat)
    ensures (n % U32 + 1) % U32 == (n + 1) % U32
  {
    var k, r := n / U32, n % U32;
    if r + 1 == U32 {
      assert n + 1 == U32 * (k + 1);
    } else {
      assert n + 1 == U32 * k + (r + 1);
    }
  }

  lemma PageNumbers(w: Writer, addr: nat)
    requires Numbered(w) && !w.r.ready
    ensures Numbered(TakePage(w, addr)) && TakePage(w, addr).r.ready
  {
  }
}
