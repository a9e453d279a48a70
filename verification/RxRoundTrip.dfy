/** What the receive path guarantees as a whole: the driver's walk over the returned pages gives back
    the committed frames, in order and unchanged, whatever the pages held before. */
module RxRoundTrip {
  import opened LbufApi
  import opened Ring
  import opened RxPipeline
  import F = RxFraming
  import M = RxMacInterface
  import T = RxTlpTrigger
  import W = RxWrPktToHugepages

  /** Page `i` as the host finds it; `before` is what its memory held when the device got it. */
  function HostPage(s: Rx, before: seq<Page>, i: nat): Page
    requires i < |s.wr.returned| && i < |before|
  {
    W.DmaAll(before[i], s.wr.returned[i].base, s.wr.returned[i].tlps)
  }

  /** The packets of the first `n` returned pages, in return order. */
  function Parsed(s: Rx, before: seq<Page>, beyond: seq<Byte>, n: nat): seq<seq<Byte>>
    requires n <= |s.wr.returned| && n <= |before|
  {
    if n == 0 then [] else Parsed(s, before, beyond, n - 1) + Parse(HostPage(s, before, n - 1), beyond)
  }

  /** The buffers deliver_packets fills from those pages. */
  function HandedUp(s: Rx, before: seq<Page>, beyond: seq<Byte>, n: nat): seq<seq<Byte>>
    requires n <= |s.wr.returned| && n <= |before|
  {
    if n == 0 then []
    else HandedUp(s, before, beyond, n - 1) + Delivered(Parse(HostPage(s, before, n - 1), beyond))
  }

  lemma OffsetOrder(fs: seq<seq<Byte>>, i: nat, j: nat)
    requires i <= |fs| && j <= |fs|
    ensures i < j <==> Offset(fs, i) < Offset(fs, j)
  {
    if i <= j { OffsetGrows(fs, i, j); } else { OffsetGrows(fs, j, i); }
  }

  /** An encoding is carried over with the qwords that hold it. */
  lemma Carried(stream: seq<Qword>, m: seq<Qword>, lo: nat, hi: nat, at: nat, o: nat, f: seq<Byte>)
    requires EncodedAt(stream, o, f) && lo <= o && o + FrameQwords(f) <= hi <= |stream| && at + (hi - lo) <= |m|
    requires m[at..at + (hi - lo)] == stream[lo..hi]
    ensures EncodedAt(m, at + o - lo, f)
  {
    SameQword(stream, m, lo, hi, at, o);
    forall i | 0 <= i < |f| ensures m[at + o - lo + 1 + i / 8][i % 8] == f[i] {
      SameQword(stream, m, lo, hi, at, o + 1 + i / 8);
    }
  }

  lemma SameQword(stream: seq<Qword>, m: seq<Qword>, lo: nat, hi: nat, at: nat, i: nat)
    requires lo <= i < hi <= |stream| && at + (hi - lo) <= |m| && m[at..at + (hi - lo)] == stream[lo..hi]
    ensures m[at + i - lo] == stream[i]
  {
    assert m[at..at + (hi - lo)][i - lo] == stream[lo..hi][i - lo];
  }

  lemma PageHoldsFrames(stream: seq<Qword>, frames: seq<seq<Byte>>, m: seq<Qword>, at: nat, k: nat, n: nat)
    requires M.Encoded(stream, frames) && k <= n <= |frames|
    requires Offset(frames, k) <= Offset(frames, n) <= |stream| && at + (Offset(frames, n) - Offset(frames, k)) <= |m|
    requires m[at..at + (Offset(frames, n) - Offset(frames, k))] == stream[Offset(frames, k)..Offset(frames, n)]
    ensures HoldsFrames(m, at, frames, k, n)
  {
    forall j | k <= j < n
      ensures Offset(frames, k) <= Offset(frames, j)
      ensures EncodedAt(m, at + Offset(frames, j) - Offset(frames, k), frames[j])
    {
      PageHoldsFrame(stream, frames, m, at, k, n, j);
    }
    hide EncodedAt, Offset;
  }

  lemma OffsetNext(fs: seq<seq<Byte>>, j: nat)
    requires j < |fs|
    ensures Offset(fs, j + 1) == Offset(fs, j) + FrameQwords(fs[j])
  {
  }

  lemma PageHoldsFrame(stream: seq<Qword>, frames: seq<seq<Byte>>, m: seq<Qword>, at: nat, k: nat, n: nat, j: nat)
    requires M.Encoded(stream, frames) && k <= j < n <= |frames|
    requires Offset(frames, k) <= Offset(frames, n) <= |stream| && at + (Offset(frames, n) - Offset(frames, k)) <= |m|
    requires m[at..at + (Offset(frames, n) - Offset(frames, k))] == stream[Offset(frames, k)..Offset(frames, n)]
    ensures Offset(frames, k) <= Offset(frames, j)
    ensures EncodedAt(m, at + Offset(frames, j) - Offset(frames, k), frames[j])
  {
    hide EncodedAt, FrameQwords, Offset;
    OffsetGrows(frames, k, j);
    OffsetGrows(frames, j + 1, n);
    OffsetNext(frames, j);
    assert EncodedAt(stream, Offset(frames, j), frames[j]);
    Carried(stream, m, Offset(frames, k), Offset(frames, n), at, Offset(frames, j), frames[j]);
  }

  /** One returned page parses to the frames between the two packet boundaries it runs between. */
  lemma PageParses(s: Rx, before: seq<Page>, beyond: seq<Byte>, i: nat, k: nat, n: nat)
    requires Inv(s) && i < |s.wr.returned| && i < |before| && k <= |s.mac.frames| && n <= |s.mac.frames|
    requires Offset(s.mac.frames, k) == s.ends[i] && Offset(s.mac.frames, n) == s.ends[i + 1]
    ensures k < n && Parse(HostPage(s, before, i), beyond) == s.mac.frames[k..n]
  {
    hide Offset, Parse, LowDword, HoldsFrames, HostPage;
    PageFacts(s, i);
    HostPageHolds(s, before, i);
    OffsetOrder(s.mac.frames, k, n);
    var m := HostPage(s, before, i);
    hide Inv, W.PageOk;
    PageHoldsFrames(s.mac.stream, s.mac.frames, m, RESERVED_QWORDS, k, n);
    ParseEncoded(m, beyond, s.mac.frames, k, n);
  }

  lemma PageFacts(s: Rx, i: nat)
    requires Inv(s) && i < |s.wr.returned|
    ensures W.PageOk(s.wr.returned[i]) && PageIs(s.mac.stream, s.wr.returned, s.ends, i)
    ensures M.Encoded(s.mac.stream, s.mac.frames)
    ensures 0 < |s.wr.returned[i].data| == s.ends[i + 1] - s.ends[i] < PAGE_QWORDS - RESERVED_QWORDS
  {
    hide T.Inv, LinkInv, IsMark, M.Encoded, W.Laid, OpenPage;
    assert s.wr.returned[i] in s.wr.returned;
  }

  lemma HostPageHolds(s: Rx, before: seq<Page>, i: nat)
    requires i < |s.wr.returned| && i < |before| && W.PageOk(s.wr.returned[i])
    ensures var m, g := HostPage(s, before, i), s.wr.returned[i];
            LowDword(m[0]) == |g.data| && m[RESERVED_QWORDS..RESERVED_QWORDS + |g.data|] == g.data
  {
    W.PageContents(before[i], s.wr.returned[i]);
  }

  lemma {:induction false} PagesParse(s: Rx, before: seq<Page>, beyond: seq<Byte>, n: nat) returns (k: nat)
    requires Inv(s) && n <= |s.wr.returned| && n <= |before|
    ensures |s.ends| == |s.wr.returned| + 1
    ensures k <= |s.mac.frames| && Offset(s.mac.frames, k) == s.ends[n]
    ensures Parsed(s, before, beyond, n) == s.mac.frames[..k]
    ensures HandedUp(s, before, beyond, n) == Delivered(s.mac.frames[..k])
  {
    hide M.Inv, W.Inv, Parse, Delivered, Offset, HostPage, LinkInv;
    if n == 0 {
      k := 0;
      FirstOffset(s.mac.frames);
    } else {
      var j := PagesParse(s, before, beyond, n - 1);
      assert IsMark(s.mac.frames, s.ends[n]);
      k :| k <= |s.mac.frames| && Offset(s.mac.frames, k) == s.ends[n];
      PageParses(s, before, beyond, n - 1, j, k);
      assert s.mac.frames[..j] + s.mac.frames[j..k] == s.mac.frames[..k];
      DeliveredConcat(s.mac.frames[..j], s.mac.frames[j..k]);
    }
  }

  lemma FirstOffset(fs: seq<seq<Byte>>)
    ensures Offset(fs, 0) == 0 && fs[..0] == [] && Delivered([]) == []
  {
  }

  /** The first `n` returned pages hold the first `k` committed frames: they parse to those, and hand up those
      of acceptable length without their last four bytes. */
  ghost predicate ReturnedUpTo(s: Rx, before: seq<Page>, beyond: seq<Byte>, n: nat, k: nat)
    requires n <= |s.wr.returned| && n <= |before|
  {
    && k <= |s.mac.frames| && n < |s.ends| && s.ends[n] == Offset(s.mac.frames, k)
    && Parsed(s, before, beyond, n) == s.mac.frames[..k]
    && HandedUp(s, before, beyond, n) == Delivered(s.mac.frames[..k])
  }

  /** The same told from the wire: the pages hold the first `k` of the good frames the MAC delivered that never
      met the nearly full ring. */
  ghost predicate ReturnedOfWire(s: Rx, before: seq<Page>, beyond: seq<Byte>, n: nat, k: nat)
    requires n <= |s.wr.returned| && n <= |before|
  {
    && k <= |s.wire.kept|
    && Parsed(s, before, beyond, n) == s.wire.kept[..k]
    && HandedUp(s, before, beyond, n) == Delivered(s.wire.kept[..k])
  }

  lemma WireAgrees(s: Rx, before: seq<Page>, beyond: seq<Byte>, n: nat, k: nat)
    requires Inv(s) && n <= |s.wr.returned| && n <= |before| && ReturnedUpTo(s, before, beyond, n, k) && s.wire.clear
    ensures ReturnedOfWire(s, before, beyond, n, k)
  {
    hide M.Inv, W.Inv, TriggerSide, PagesAre, OpenPage, AllMarks, IsMark, Parsed, HandedUp, Offset, Delivered;
    F.KeptIsCommitted(s.mac, s.wire);
    assert s.mac.frames[..k] == s.wire.kept[..k];
  }

  /** In every run, the packets the driver finds on the returned pages, up to any of them, are exactly a prefix
      of the frames the MAC side committed, and what it hands up is those of acceptable length, without their
      last four bytes.  While no frame begins in the clock after a late one, those are the first of the good
      frames on the wire, whole and in order, without the ones that met the nearly full ring. */
  lemma RoundTrip(aux0: nat, diff0: nat, ring0: seq<Qword>, acts: seq<Action>, before: seq<Page>, beyond: seq<Byte>,
                  n: nat)
    requires ResetOk(aux0, diff0, ring0)
    requires n <= |before| && n <= |Run(Init(aux0, diff0, ring0), acts).wr.returned|
    ensures var s := Run(Init(aux0, diff0, ring0), acts);
            exists k: nat :: ReturnedUpTo(s, before, beyond, n, k)
                          && (s.wire.clear ==> ReturnedOfWire(s, before, beyond, n, k))
  {
    hide Inv, Parsed, HandedUp, Offset;
    RunKeeps(aux0, diff0, ring0, acts);
    var s := Run(Init(aux0, diff0, ring0), acts);
    var k := PagesParse(s, before, beyond, n);
    assert ReturnedUpTo(s, before, beyond, n, k);
    if s.wire.clear { WireAgrees(s, before, beyond, n, k); }
  }

  /** The qwords of the returned pages, in return order. */
  function Written(s: Rx, n: nat): seq<Qword>
    requires n <= |s.wr.returned|
  {
    if n == 0 then [] else Written(s, n - 1) + s.wr.returned[n - 1].data
  }

  lemma {:induction false} WrittenIsStream(s: Rx, n: nat)
    requires Inv(s) && n <= |s.wr.returned|
    ensures s.ends[n] <= |s.mac.stream| && Written(s, n) == s.mac.stream[..s.ends[n]]
  {
    hide M.Inv, W.Inv, LinkInv;
    if n > 0 {
      WrittenIsStream(s, n - 1);
      assert PageIs(s.mac.stream, s.wr.returned, s.ends, n - 1);
      assert s.mac.stream[..s.ends[n - 1]] + s.mac.stream[s.ends[n - 1]..s.ends[n]] == s.mac.stream[..s.ends[n]];
    }
  }

  lemma NothingLostIn(s: Rx)
    requires Inv(s)
    ensures s.wr.rdCount <= |s.mac.stream| < s.wr.rdCount + RING
    ensures Written(s, |s.wr.returned|) + s.wr.data + s.mac.stream[s.wr.rdCount..] == s.mac.stream
    ensures Holds(s.mac.ring, s.mac.stream, s.wr.rdCount, |s.mac.stream|)
  {
    hide W.Inv, T.Inv, LinkInv, Written, Holds, M.Encoded, M.StateInv, IsMark;
    WrittenIsStream(s, |s.wr.returned|);
    var last := s.ends[|s.ends| - 1];
    JoinSlices(s.mac.stream, 0, last, s.wr.rdCount);
    JoinSlices(s.mac.stream, 0, s.wr.rdCount, |s.mac.stream|);
    WholeSlice(s.mac.stream, last, s.wr.rdCount);
  }

  lemma WholeSlice<X>(a: seq<X>, i: nat, j: nat)
    requires i <= |a| && j <= |a|
    ensures a[0..i] == a[..i] && a[0..j] == a[..j] && a[j..|a|] == a[j..] && a[0..|a|] == a
  {
  }

  lemma PagesValidIn(s: Rx, before: seq<Page>, i: nat)
    requires Inv(s) && i < |s.wr.returned| && i < |before|
    ensures |s.ends| == |s.wr.returned| + 1 && IsMark(s.mac.frames, s.ends[i]) && IsMark(s.mac.frames, s.ends[i + 1])
    ensures 0 < s.ends[i + 1] - s.ends[i] < PAGE_QWORDS - RESERVED_QWORDS
    ensures IsValid(NrDwords(HostPage(s, before, i)))
         && NrDwords(HostPage(s, before, i)) == RESERVED_DWORDS + 2 * (s.ends[i + 1] - s.ends[i])
  {
    PageFacts(s, i);
    HostPageHolds(s, before, i);
    EndsAreMarks(s);
    hide Inv, IsMark, HostPage, LowDword, W.PageOk, IsValid, NrDwords;
    HeaderValid(HostPage(s, before, i), s.ends[i + 1] - s.ends[i]);
  }

  lemma EndsAreMarks(s: Rx)
    requires Inv(s)
    ensures |s.ends| == |s.wr.returned| + 1 && AllMarks(s.mac.frames, s.ends)
  {
    hide M.Inv, T.Inv, W.Inv, LinkInv, OpenPage, AllMarks;
  }

  lemma HeaderValid(p: Page, n: nat)
    requires LowDword(p[0]) == n && 0 < n < PAGE_QWORDS - RESERVED_QWORDS
    ensures IsValid(NrDwords(p)) && NrDwords(p) == RESERVED_DWORDS + 2 * n
  {
    hide LowDword;
  }

  lemma {:induction false} LaidWithinFourKb(tlps: seq<W.Tlp>, base: nat, data: seq<Qword>, t: W.Tlp)
    requires W.Laid(tlps, base, data) && t in tlps
    ensures W.WithinFourKb(t) && t.addr % 128 == 0 && |t.data| <= 16
    decreases |tlps|
  {
    var last := tlps[|tlps| - 1];
    if t == last {
      W.AlignedStaysWithin(t, base);
    } else {
      assert tlps == tlps[..|tlps| - 1] + [last];
      LaidWithinFourKb(tlps[..|tlps| - 1], base, data[..|data| - |last.data|], t);
    }
  }

  lemma TlpsWithinIn(s: Rx, i: nat, t: W.Tlp)
    requires Inv(s) && i < |s.wr.returned| && t in s.wr.returned[i].tlps
    ensures W.WithinFourKb(t) && t.addr % 128 == 0 && |t.data| <= 16
  {
    PageFacts(s, i);
    hide Inv;
    PageTlps(s.wr.returned[i], t);
  }

  lemma PageTlps(g: W.Returned, t: W.Tlp)
    requires W.PageOk(g) && t in g.tlps
    ensures W.WithinFourKb(t) && t.addr % 128 == 0 && |t.data| <= 16
  {
    hide W.Laid, W.CountQword;
    var last := g.tlps[|g.tlps| - 1];
    if t == last {
      assert g.base == 128 * (g.base / 128);
      W.AlignedStaysWithin(last, g.base);
    } else {
      assert g.tlps == g.tlps[..|g.tlps| - 1] + [last];
      LaidWithinFourKb(g.tlps[..|g.tlps| - 1], g.base, g.data, t);
    }
  }

  /** In every run each committed qword is in exactly one place: on a returned page, on the open page, or
      still in the ring, where no slot it needs has been reused. */
  lemma NothingIsLost(aux0: nat, diff0: nat, ring0: seq<Qword>, acts: seq<Action>)
    requires ResetOk(aux0, diff0, ring0)
    ensures var s := Run(Init(aux0, diff0, ring0), acts);
            && s.wr.rdCount <= |s.mac.stream| < s.wr.rdCount + RING
            && Written(s, |s.wr.returned|) + s.wr.data + s.mac.stream[s.wr.rdCount..] == s.mac.stream
            && Holds(s.mac.ring, s.mac.stream, s.wr.rdCount, |s.mac.stream|)
  {
    hide Inv, Run, Written, Holds;
    RunKeeps(aux0, diff0, ring0, acts);
    NothingLostIn(Run(Init(aux0, diff0, ring0), acts));
  }

  /** A returned page begins and ends at a packet boundary, holds at least one qword and stays below 2 MB
      with its reserved area; its header, with the exact dword count, passes the driver's check. */
  ghost predicate PageValid(s: Rx, before: seq<Page>, i: nat)
    requires i < |s.wr.returned| && i < |before|
  {
    && |s.ends| == |s.wr.returned| + 1 && IsMark(s.mac.frames, s.ends[i]) && IsMark(s.mac.frames, s.ends[i + 1])
    && 0 < s.ends[i + 1] - s.ends[i] < PAGE_QWORDS - RESERVED_QWORDS
    && IsValid(NrDwords(HostPage(s, before, i)))
    && NrDwords(HostPage(s, before, i)) == RESERVED_DWORDS + 2 * (s.ends[i + 1] - s.ends[i])
  }

  /** In every run every returned page is valid in this sense. */
  lemma ReturnedPagesAreValid(aux0: nat, diff0: nat, ring0: seq<Qword>, acts: seq<Action>, before: seq<Page>, i: nat)
    requires ResetOk(aux0, diff0, ring0)
    requires i < |Run(Init(aux0, diff0, ring0), acts).wr.returned| && i < |before|
    ensures PageValid(Run(Init(aux0, diff0, ring0), acts), before, i)
  {
    hide Inv, Run, HostPage, IsMark, IsValid, NrDwords;
    RunKeeps(aux0, diff0, ring0, acts);
    PagesValidIn(Run(Init(aux0, diff0, ring0), acts), before, i);
  }

  /** In every run every TLP of a returned page starts on a 128-byte boundary, carries at most 16 qwords and
      crosses no 4 KB boundary. */
  lemma TlpsStayWithinFourKb(aux0: nat, diff0: nat, ring0: seq<Qword>, acts: seq<Action>, i: nat, t: W.Tlp)
    requires ResetOk(aux0, diff0, ring0)
    requires i < |Run(Init(aux0, diff0, ring0), acts).wr.returned|
    requires t in Run(Init(aux0, diff0, ring0), acts).wr.returned[i].tlps
    ensures W.WithinFourKb(t) && t.addr % 128 == 0 && |t.data| <= 16
  {
    hide Inv, Run;
    RunKeeps(aux0, diff0, ring0, acts);
    TlpsWithinIn(Run(Init(aux0, diff0, ring0), acts), i, t);
  }
}
