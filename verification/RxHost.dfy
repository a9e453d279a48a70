/** The receive path with the host: two huge pages at a time, wherever the host puts them in its memory, unlocked,
    filled, returned and read, while the host uses the rest of its memory as it likes. */
module RxHost {
  import opened LbufApi
  import opened Ring
  import C = RxClocked
  import H = HugePages
  import M = RxMacInterface
  import P = RxPipeline
  import R = RxRoundTrip
  import T = RxTlpTrigger
  import W = RxWrPktToHugepages

  /** The address of each page, and what each held when it was unlocked. */
  datatype Addresses = Addresses(one: nat, two: nat)

  datatype Contents = Contents(one: Page, two: Page)

  function At(a: Addresses, n: H.PageNo): nat { if n == H.One then a.one else a.two }

  function Moved(a: Addresses, n: H.PageNo, base: nat): Addresses {
    if n == H.One then a.(one := base) else a.(two := base)
  }

  function Held(c: Contents, n: H.PageNo): Page { if n == H.One then c.one else c.two }

  function Kept(c: Contents, n: H.PageNo, p: Page): Contents { if n == H.One then c.(one := p) else c.(two := p) }

  /** `mem` is the host's memory, 2 MB block by block; `addr` are the page addresses it has written; `was` is
      what a page held when it was unlocked; `found` is what the host finds on the pages returned so far, and
      `held` what they had held. */
  datatype Host = Host(c: C.Clocked, h: H.System, mem: map<nat, Page>, addr: Addresses, was: Contents,
                       found: seq<Page>, held: seq<Page>)

  /** An edge of the slow clock only; an edge of the endpoint's, with what the page machines see and the address
      that goes with an unlocking; a write by the host, anywhere. */
  datatype Action =
    | Slow(beat: M.Beat)
    | Fast(edge: C.Action, i: H.Input, base: nat)
    | Write(block: nat, page: Page)

  /** Nothing is unlocked yet, so `was0` does not matter. */
  function Init(c: C.Clocked, data0: H.PageNo, header0: H.PageNo, mem: map<nat, Page>, was0: Contents): Host {
    Host(c, H.Init(data0, header0), mem, Addresses(0, 0), was0, [], [])
  }

  /** The page the writer writes to. */
  function InUse(w: H.Writer): H.PageNo { if w.fsm == H.Count || w.fsm == H.Finish then w.header else w.data }

  predicate Using(w: H.Writer) { w.fsm != H.Waiting && w.fsm != H.Interrupt }

  /** The host must not touch the block: a page there is with the device. */
  predicate Owned(x: Host, block: nat) {
    (!x.h.host.one && x.addr.one == block) || (!x.h.host.two && x.addr.two == block)
  }

  /** The writer's two machines act as the one they are: it begins in state s1, ends a page with the end of its
      header, and begins that exactly when it leaves the data states. */
  ghost predicate Together(x: Host, a: Action)
    requires a.Fast?
  {
    var w, e, r := x.h.d.w, a.edge, x.c.wr.r;
    && C.Fast?(e) && C.Enabled(x.c, e)
    && (e.op == C.Begin ==> w.fsm == H.Filling)
    && (w.fsm == H.Filling ==> (a.i.end <==> e.op == C.Begin && W.Closes(r, C.Shown(x.c.x.f))))
    && (H.Returns(x.h.d, a.i) <==> e.op == C.End && W.Closes(r, x.c.job.q))
  }

  ghost predicate Enabled(x: Host, a: Action) {
    match a
    case Slow(beat) => C.Enabled(x.c, C.Slow(beat))
    case Fast(e, i, base) =>
      && Together(x, a) && H.Enabled(x.h, i)
      && (i.command.Unlock? ==>
            && base % W.PAGE_BYTES == 0 && base in x.mem
            && (!H.Get(x.h.host, H.Other(i.command.page)) ==> At(x.addr, H.Other(i.command.page)) != base))
    case Write(block, _) => block in x.mem && !Owned(x, block)
  }

  /** A posted write reaches whatever blocks its addresses lie in. */
  function Written(mem: map<nat, Page>, t: W.Tlp): map<nat, Page> { map b | b in mem :: W.Dma(mem[b], b, t) }

  /** The writer's state s0: a page that has been given is taken. */
  predicate Takes(x: Host) { x.h.d.w.fsm == H.Waiting && x.h.d.g.given }

  ghost function Clock(x: Host, e: C.Action): C.Clocked {
    var c := C.Step(x.c, e);
    if Takes(x) then C.Step(c, C.TakePage(At(x.addr, x.h.d.g.current))) else c
  }

  ghost function Memory(x: Host, e: C.Action): map<nat, Page>
    requires C.Fast?(e) && C.OpEnabled(x.c, e.op)
  {
    if e.op == C.End then Written(x.mem, C.JobTlp(x.c.wr.r, x.c.job.q, x.c.job.got)) else x.mem
  }

  ghost function DoFast(x: Host, a: Action): Host
    requires a.Fast? && Enabled(x, a)
  {
    var mem, page := Memory(x, a.edge), InUse(x.h.d.w);
    var back := H.Returns(x.h.d, a.i) && At(x.addr, page) in mem;
    Host(Clock(x, a.edge), H.Step(x.h, a.i), mem,
         if a.i.command.Unlock? then Moved(x.addr, a.i.command.page, a.base) else x.addr,
         if a.i.command.Unlock? then Kept(x.was, a.i.command.page, mem[a.base]) else x.was,
         if back then x.found + [mem[At(x.addr, page)]] else x.found,
         if back then x.held + [Held(x.was, page)] else x.held)
  }

  ghost function Step(x: Host, a: Action): Host {
    if !Enabled(x, a) then x
    else
      match a
      case Slow(beat) => x.(c := C.Step(x.c, C.Slow(beat)))
      case Fast(_, _, _) => DoFast(x, a)
      case Write(block, page) => x.(mem := x.mem[block := page])
  }

  ghost function Run(x: Host, acts: seq<Action>): Host
    decreases |acts|
  {
    if acts == [] then x else Step(Run(x, acts[..|acts| - 1]), acts[|acts| - 1])
  }

  // ----- the invariant -----------------------------------------------------------------------

  /** The writer's machines stand at the same place. */
  ghost predicate Same(c: C.Clocked, w: H.Writer) {
    var closing := c.job.Busy? && W.Closes(c.wr.r, c.job.q);
    && (Using(w) ==> c.wr.r.ready && (w.fsm == H.Filling <==> !closing))
    && (!Using(w) ==> !c.wr.r.ready && c.job.Idle?)
  }

  /** A page with the device lies in a block of its own. */
  ghost predicate Placed(x: Host) {
    && (forall p :: !H.Get(x.h.host, p) ==> At(x.addr, p) in x.mem && At(x.addr, p) % W.PAGE_BYTES == 0)
    && (!x.h.host.one && !x.h.host.two ==> x.addr.one != x.addr.two)
  }

  /** The page in use holds what it held when unlocked and the TLPs of the page so far on top; one that waits
      holds what it held. */
  ghost predicate Filled(x: Host)
    requires Placed(x)
  {
    var w := x.h.d.w;
    && (Using(w) ==> !H.Get(x.h.host, InUse(w)) && x.c.wr.r.base == At(x.addr, InUse(w)))
    && forall p :: !H.Get(x.h.host, p) ==>
         x.mem[At(x.addr, p)]
         == if Using(w) && p == InUse(w) then W.DmaAll(Held(x.was, p), At(x.addr, p), x.c.wr.tlps) else Held(x.was, p)
  }

  /** What the host has found are the returned pages, on top of what they held. */
  ghost predicate FoundOk(returned: seq<W.Returned>, found: seq<Page>, held: seq<Page>) {
    && |found| == |held| == |returned|
    && forall i :: 0 <= i < |returned| ==> found[i] == W.DmaAll(held[i], returned[i].base, returned[i].tlps)
  }

  ghost predicate Inv(x: Host) {
    && C.Inv(x.c) && H.Inv(x.h) && Same(x.c, x.h.d.w) && Placed(x) && Filled(x)
    && FoundOk(x.c.wr.returned, x.found, x.held)
  }

  // ----- writes to memory --------------------------------------------------------------------

  /** The TLP stays in the block at `base`. */
  predicate InBlock(t: W.Tlp, base: nat) {
    base % W.PAGE_BYTES == 0 && base <= t.addr && t.addr + 8 * |t.data| <= base + W.PAGE_BYTES
  }

  lemma BlocksApart(a: nat, b: nat)
    requires a % W.PAGE_BYTES == 0 && b % W.PAGE_BYTES == 0 && a != b
    ensures a + W.PAGE_BYTES <= b || b + W.PAGE_BYTES <= a
  {
    assert a == W.PAGE_BYTES * (a / W.PAGE_BYTES) && b == W.PAGE_BYTES * (b / W.PAGE_BYTES);
  }

  lemma DmaElsewhere(p: Page, base: nat, block: nat, t: W.Tlp)
    requires InBlock(t, base) && base % W.PAGE_BYTES == 0 && block % W.PAGE_BYTES == 0 && block != base
    ensures W.Dma(p, block, t) == p
  {
    hide InBlock;
    BlocksApart(base, block);
    forall i | 0 <= i < PAGE_QWORDS ensures W.Dma(p, block, t)[i] == p[i] {
      OutOfReach(t, base, block, i);
    }
  }

  lemma OutOfReach(t: W.Tlp, base: nat, block: nat, i: nat)
    requires InBlock(t, base) && i < PAGE_QWORDS && (base + W.PAGE_BYTES <= block || block + W.PAGE_BYTES <= base)
    ensures !(t.addr <= block + 8 * i < t.addr + 8 * |t.data|)
  {
  }

  /** What a job writes stays in the page it is for. */
  lemma JobInBlock(c: C.Clocked)
    requires C.Inv(c) && C.OpEnabled(c, C.End) && c.wr.r.base % W.PAGE_BYTES == 0 && c.wr.r.ready
    ensures InBlock(C.JobTlp(c.wr.r, c.job.q, c.job.got), c.wr.r.base)
  {
    if !W.Closes(c.wr.r, c.job.q) {
      C.RingHolds(c);
      AheadInv(C.Abstract(c));
      assert C.Abstract(c).wr == C.Ahead(c);
      hide C.Handing, M.Inv, P.Inv, C.Abstract, C.Ahead;
      NextAddress(c);
    }
  }

  /** Where the TLP at hand begins, from where the next one will. */
  lemma NextAddress(c: C.Clocked)
    requires c.job.Busy? && |c.mac.ring| == RING && c.wr.r.ready && !W.Closes(c.wr.r, c.job.q)
    requires W.Inv(C.Ahead(c))
    ensures c.wr.r.hostAddr == c.wr.r.base + W.RESERVED_BYTES + 8 * |c.wr.data|
  {
    hide W.Laid, W.PageOk;
  }

  lemma AheadInv(s: P.Rx)
    requires P.Inv(s)
    ensures W.Inv(s.wr)
  {
    hide P.PagesAre, P.OpenPage, P.TriggerSide, P.AllMarks, P.IsMark, W.Inv;
  }

  // ----- the endpoint's clock ----------------------------------------------------------------

  /** A page given is with the device. */
  lemma GivenIsTaken(x: Host)
    requires H.Inv(x.h) && x.h.d.g.given
    ensures !H.Get(x.h.host, x.h.d.g.current)
  {
    hide H.Idle;
  }

  lemma EdgeIs(c: C.Clocked, e: C.Action)
    requires C.Inv(c) && C.Enabled(c, e) && C.Fast?(e)
    ensures var n, d := C.Step(c, e), C.FastSide(c, e.op);
            C.Inv(n) && n.job == d.job && n.wr == d.wr
  {
    hide C.Inv, C.Step, C.FastSide, C.OpEnabled;
    C.StepSimulates(c, e);
    C.LinkStep(c, e);
  }

  lemma PageIs(c: C.Clocked, addr: nat)
    requires C.Inv(c) && c.job.Idle? && !c.wr.r.ready && addr % W.PAGE_BYTES == 0
    ensures var n := C.Step(c, C.TakePage(addr));
            C.Inv(n) && n.job == c.job && n.wr == W.TakePage(c.wr, addr)
  {
    hide C.Inv, W.TakePage;
    C.StepSimulates(c, C.TakePage(addr));
  }

  /** In state s0 the writer only waits. */
  lemma OnlyWaits(c: C.Clocked, w: H.Writer, op: C.Op)
    requires Same(c, w) && !Using(w) && C.OpEnabled(c, op) && (op == C.Begin ==> w.fsm == H.Filling)
    ensures op == C.Wait && C.FastSide(c, op) == c
  {
    hide W.Closes, W.Takes, W.Sent;
  }

  /** What a clock does to the writer. */
  lemma ClockIs(x: Host, a: Action)
    requires Inv(x) && Enabled(x, a) && a.Fast?
    ensures var n, d := Clock(x, a.edge), C.FastSide(x.c, a.edge.op);
            && C.Inv(n) && n.job == d.job && (Takes(x) ==> a.edge.op == C.Wait && d == x.c)
            && n.wr == (if Takes(x) then W.TakePage(x.c.wr, At(x.addr, x.h.d.g.current)) else d.wr)
  {
    hide C.Inv, H.Inv, Filled, FoundOk, W.Closes, C.Shown, H.Returns, C.FastSide, C.OpEnabled, Same, C.Step;
    EdgeIs(x.c, a.edge);
    if Takes(x) {
      GivenIsTaken(x);
      OnlyWaits(x.c, x.h.d.w, a.edge.op);
      IdleWriter(x.c, x.h.d.w);
      PageIs(C.Step(x.c, a.edge), At(x.addr, x.h.d.g.current));
    }
  }

  lemma IdleWriter(c: C.Clocked, w: H.Writer)
    requires Same(c, w) && !Using(w)
    ensures c.job.Idle? && !c.wr.r.ready
  {
  }

  /** The two machines go on together: where no page is in use, where one is filled, and where one is ended. */
  lemma SameIdle(c: C.Clocked, n: C.Clocked, w: H.Writer, g: H.Giver, i: H.Input, addr: nat)
    requires Same(c, w) && !Using(w) && n.job == c.job
    requires n.wr == if w.fsm == H.Waiting && g.given then W.TakePage(c.wr, addr) else c.wr
    ensures Same(n, H.NextWriter(w, g, i))
  {
    hide W.Closes;
  }

  lemma SameFilling(c: C.Clocked, n: C.Clocked, w: H.Writer, g: H.Giver, i: H.Input, op: C.Op)
    requires Same(c, w) && w.fsm == H.Filling && C.OpEnabled(c, op)
    requires i.end <==> op == C.Begin && W.Closes(c.wr.r, C.Shown(c.x.f))
    requires n.job == C.FastSide(c, op).job && n.wr == C.FastSide(c, op).wr
    ensures Same(n, H.NextWriter(w, g, i))
  {
    hide C.Shown, C.JobTlp, W.Takes;
  }

  lemma SameEnding(c: C.Clocked, n: C.Clocked, w: H.Writer, g: H.Giver, i: H.Input, op: C.Op)
    requires Same(c, w) && Using(w) && w.fsm != H.Filling && C.OpEnabled(c, op) && op != C.Begin
    requires op == C.End && W.Closes(c.wr.r, c.job.q) <==> w.fsm == H.Finish && i.ready
    requires n.job == C.FastSide(c, op).job && n.wr == C.FastSide(c, op).wr
    ensures Same(n, H.NextWriter(w, g, i))
  {
    hide C.Shown, C.JobTlp, W.Takes;
  }

  lemma SameKeeps(x: Host, a: Action)
    requires Inv(x) && Enabled(x, a) && a.Fast?
    ensures Same(Clock(x, a.edge), H.Step(x.h, a.i).d.w)
  {
    hide C.Inv, H.Inv, Filled, FoundOk, Placed, Clock, C.FastSide, C.OpEnabled, Same, W.Closes, C.Shown;
    ClockIs(x, a);
    var n, w, g := Clock(x, a.edge), x.h.d.w, x.h.d.g;
    if !Using(w) {
      OnlyWaits(x.c, w, a.edge.op);
      SameIdle(x.c, n, w, g, a.i, At(x.addr, g.current));
    } else if w.fsm == H.Filling {
      SameFilling(x.c, n, w, g, a.i, a.edge.op);
    } else {
      SameEnding(x.c, n, w, g, a.i, a.edge.op);
    }
    hide H.NextWriter, H.NextGiver, H.NextStatus;
  }

  lemma PlacedKeeps(x: Host, a: Action)
    requires Inv(x) && Enabled(x, a) && a.Fast?
    ensures Placed(Step(x, a))
  {
    hide C.Inv, H.Inv, Filled, FoundOk, C.Enabled, Clock, Same, C.JobTlp, C.Shown, H.NextDevice, W.Dma, H.Returns;
  }

  /** Who has a page after a clock. */
  lemma HostBit(x: H.System, i: H.Input, p: H.PageNo)
    requires H.Enabled(x, i)
    ensures H.Get(H.Step(x, i).host, p)
         <==> (H.Returns(x.d, i) && p == x.d.w.header) || (H.Get(x.host, p) && i.command != H.Unlock(p))
  {
    hide H.NextDevice, H.Returns;
  }

  /** The page in use stays the same to its end, and begins as the one given. */
  lemma InUseStays(x: H.System, i: H.Input)
    requires H.Inv(x)
    ensures var w, n := x.d.w, H.NextWriter(x.d.w, x.d.g, i);
            && (Using(w) && Using(n) ==> InUse(n) == InUse(w))
            && (!Using(w) && Using(n) ==> w.fsm == H.Waiting && x.d.g.given && InUse(n) == x.d.g.current)
            && (Using(w) && H.Returns(x.d, i) ==> x.d.w.header == InUse(w) && !Using(n))
            && (Using(w) && !Using(n) ==> H.Returns(x.d, i))
  {
    hide H.Idle, H.Taken;
  }

  /** Appended TLPs come on top. */
  lemma DmaNext(p: Page, base: nat, tlps: seq<W.Tlp>, t: W.Tlp)
    ensures W.DmaAll(p, base, tlps + [t]) == W.Dma(W.DmaAll(p, base, tlps), base, t) && W.DmaAll(p, base, []) == p
  {
    hide W.Dma;
    assert (tlps + [t])[..|tlps|] == tlps;
  }

  /** The end of a TLP: on top of its own page, and nothing elsewhere. */
  lemma EndWrites(x: Host, e: C.Action)
    requires Inv(x) && C.Fast?(e) && e.op == C.End && C.OpEnabled(x.c, e.op)
    ensures var p, t := InUse(x.h.d.w), C.JobTlp(x.c.wr.r, x.c.job.q, x.c.job.got);
            && Using(x.h.d.w) && !H.Get(x.h.host, p) && At(x.addr, p) in x.mem
            && Memory(x, e)[At(x.addr, p)]
               == W.DmaAll(Held(x.was, p), At(x.addr, p), x.c.wr.tlps + [t])
            && forall b :: b in x.mem && b % W.PAGE_BYTES == 0 && b != At(x.addr, p) ==> Memory(x, e)[b] == x.mem[b]
  {
    JobInBlock(x.c) by { assert Using(x.h.d.w); }
    hide C.Inv, H.Inv, W.Dma, W.DmaAll, C.JobTlp, InBlock, FoundOk, W.Closes;
    var p, t := InUse(x.h.d.w), C.JobTlp(x.c.wr.r, x.c.job.q, x.c.job.got);
    DmaNext(Held(x.was, p), At(x.addr, p), x.c.wr.tlps, t);
    forall b | b in x.mem && b % W.PAGE_BYTES == 0 && b != At(x.addr, p) ensures Memory(x, e)[b] == x.mem[b] {
      DmaElsewhere(x.mem[b], At(x.addr, p), b, t);
    }
  }

  lemma EndSends(c: C.Clocked)
    requires C.OpEnabled(c, C.End)
    ensures var d, t := C.FastSide(c, C.End), C.JobTlp(c.wr.r, c.job.q, c.job.got);
            && d.wr.r.base == c.wr.r.base
            && (if W.Closes(c.wr.r, c.job.q)
                then d.wr.returned == c.wr.returned + [W.Returned(c.wr.r.base, c.wr.tlps + [t], c.wr.data)]
                else d.wr.tlps == c.wr.tlps + [t] && d.wr.returned == c.wr.returned)
  {
    hide C.JobTlp;
  }

  lemma OthersSendNothing(c: C.Clocked, op: C.Op)
    requires C.OpEnabled(c, op) && op != C.End
    ensures C.FastSide(c, op).wr == c.wr
  {
    hide W.Takes, C.Shown;
  }

  lemma OpIsEnabled(x: Host, a: Action)
    requires a.Fast? && Enabled(x, a)
    ensures C.Fast?(a.edge) && C.OpEnabled(x.c, a.edge.op) && H.Enabled(x.h, a.i)
  {
    hide C.OpEnabled, H.Enabled;
  }

  /** The end of a TLP that is not a header leaves the page in use. */
  lemma EndKinds(x: Host, a: Action)
    requires Inv(x) && Enabled(x, a) && a.Fast? && a.edge.op == C.End
    ensures Using(x.h.d.w)
    ensures W.Closes(x.c.wr.r, x.c.job.q) <==> H.Returns(x.h.d, a.i)
  {
    OpIsEnabled(x, a);
    hide C.Inv, H.Inv, Filled, FoundOk, Placed, C.Enabled, H.Returns, W.Closes;
  }

  /** A page that stays with the device or comes to it. */
  lemma PageKept(x: Host, a: Action, p: H.PageNo)
    requires Inv(x) && Enabled(x, a) && a.Fast? && !H.Get(Step(x, a).h.host, p)
    ensures var n := Step(x, a);
            && At(n.addr, p) in n.mem
            && n.mem[At(n.addr, p)]
               == if Using(n.h.d.w) && p == InUse(n.h.d.w) then W.DmaAll(Held(n.was, p), At(n.addr, p), n.c.wr.tlps)
                  else Held(n.was, p)
  {
    OpIsEnabled(x, a);
    hide C.Inv, H.Inv, FoundOk, Same, C.Enabled, Clock, C.FastSide, C.OpEnabled, W.DmaAll, W.Dma, C.JobTlp;
    hide W.Closes, C.Shown, H.NextGiver, H.NextStatus, H.NextWriter, H.Returns;
    HostBit(x.h, a.i, p);
    InUseStays(x.h, a.i);
    ClockIs(x, a);
    PlacedKeeps(x, a);
    if x.h.d.g.given { GivenIsTaken(x); }
    if a.edge.op == C.End {
      EndKinds(x, a);
      EndWrites(x, a.edge);
      EndSends(x.c);
      hide Memory;
    } else {
      OthersSendNothing(x.c, a.edge.op);
    }
    NoDma(Held(x.was, p), At(x.addr, p));
  }

  lemma NoDma(p: Page, base: nat)
    ensures W.DmaAll(p, base, []) == p
  {
  }

  /** The page in use is with the device, where its address says. */
  lemma BaseKept(x: Host, a: Action)
    requires Inv(x) && Enabled(x, a) && a.Fast? && Using(Step(x, a).h.d.w)
    ensures var n := Step(x, a); var w := n.h.d.w;
            !H.Get(n.h.host, InUse(w)) && n.c.wr.r.base == At(n.addr, InUse(w))
  {
    OpIsEnabled(x, a);
    hide C.Inv, H.Inv, FoundOk, Same, C.Enabled, Clock, C.FastSide, C.OpEnabled, W.DmaAll, W.Dma, C.JobTlp, Memory;
    hide W.Closes, C.Shown, H.NextGiver, H.NextStatus, H.NextWriter, H.Returns;
    InUseStays(x.h, a.i);
    HostBit(x.h, a.i, InUse(Step(x, a).h.d.w));
    ClockIs(x, a);
    if x.h.d.g.given { GivenIsTaken(x); }
    if a.edge.op == C.End { EndSends(x.c); } else { OthersSendNothing(x.c, a.edge.op); }
  }

  lemma FilledKeeps(x: Host, a: Action)
    requires Inv(x) && Enabled(x, a) && a.Fast?
    ensures Placed(Step(x, a)) && Filled(Step(x, a))
  {
    hide Inv, Enabled, Step, W.DmaAll, Placed;
    PlacedKeeps(x, a);
    var n := Step(x, a);
    if Using(n.h.d.w) { BaseKept(x, a); }
    if !H.Get(n.h.host, H.One) { PageKept(x, a, H.One); }
    if !H.Get(n.h.host, H.Two) { PageKept(x, a, H.Two); }
  }

  lemma FoundMore(returned: seq<W.Returned>, found: seq<Page>, held: seq<Page>, r: W.Returned, f: Page, h: Page)
    requires FoundOk(returned, found, held) && f == W.DmaAll(h, r.base, r.tlps)
    ensures FoundOk(returned + [r], found + [f], held + [h])
  {
    hide W.DmaAll;
  }

  /** A page comes back with its header: what is found there is what was sent. */
  lemma BackIsFound(x: Host, a: Action)
    requires Inv(x) && Enabled(x, a) && a.Fast? && H.Returns(x.h.d, a.i)
    ensures var n := Step(x, a);
            FoundOk(n.c.wr.returned, n.found, n.held)
  {
    OpIsEnabled(x, a);
    hide C.Inv, H.Inv, Same, C.Enabled, Clock, C.FastSide, C.OpEnabled, W.DmaAll, W.Dma, C.JobTlp, FoundOk, H.Step;
    hide W.Closes, C.Shown, H.Enabled;
    ClockIs(x, a);
    assert a.edge.op == C.End && !Takes(x) && InUse(x.h.d.w) == x.h.d.w.header;
    hide H.Returns;
    EndKinds(x, a);
    EndWrites(x, a.edge);
    EndSends(x.c);
    hide Memory;
    var p, t := InUse(x.h.d.w), C.JobTlp(x.c.wr.r, x.c.job.q, x.c.job.got);
    FoundMore(x.c.wr.returned, x.found, x.held, W.Returned(x.c.wr.r.base, x.c.wr.tlps + [t], x.c.wr.data),
              Memory(x, a.edge)[At(x.addr, p)], Held(x.was, p));
  }

  lemma FoundKeeps(x: Host, a: Action)
    requires Inv(x) && Enabled(x, a) && a.Fast?
    ensures var n := Step(x, a);
            FoundOk(n.c.wr.returned, n.found, n.held)
  {
    if H.Returns(x.h.d, a.i) {
      BackIsFound(x, a);
    } else {
      OpIsEnabled(x, a);
      hide C.Inv, H.Inv, Same, C.Enabled, Clock, C.FastSide, C.OpEnabled, FoundOk, H.Step, W.Closes, C.Shown;
      hide H.Returns, Filled, Placed, Memory;
      ClockIs(x, a);
      if a.edge.op == C.End {
        EndKinds(x, a);
        EndSends(x.c);
      } else {
        OthersSendNothing(x.c, a.edge.op);
      }
    }
  }

  lemma FastKeeps(x: Host, a: Action)
    requires Inv(x) && Enabled(x, a) && a.Fast?
    ensures Inv(Step(x, a))
  {
    ClockIs(x, a);
    H.StepKeeps(x.h, a.i);
    SameKeeps(x, a);
    FilledKeeps(x, a);
    FoundKeeps(x, a);
    hide C.Inv, H.Inv, Same, Placed, Filled, FoundOk, Clock, Memory, H.Step, C.FastSide;
  }

  /** The slow clock does not touch the writer. */
  lemma SlowKeeps(x: Host, beat: M.Beat)
    requires Inv(x) && Enabled(x, Slow(beat))
    ensures Inv(Step(x, Slow(beat)))
  {
    hide C.Inv, H.Inv, C.Step, FoundOk, W.DmaAll;
    C.StepSimulates(x.c, C.Slow(beat));
    C.LinkStep(x.c, C.Slow(beat));
    hide C.Enabled;
  }

  /** Neither does the host, or any page that is with the device. */
  lemma WriteKeeps(x: Host, block: nat, page: Page)
    requires Inv(x) && Enabled(x, Write(block, page))
    ensures Inv(Step(x, Write(block, page)))
  {
    hide C.Inv, H.Inv, Same, FoundOk, W.DmaAll;
  }

  lemma StepKeeps(x: Host, a: Action)
    requires Inv(x)
    ensures Inv(Step(x, a))
  {
    if Enabled(x, a) {
      match a {
        case Slow(beat) => SlowKeeps(x, beat);
        case Fast(_, _, _) => FastKeeps(x, a);
        case Write(block, page) => WriteKeeps(x, block, page);
      }
    }
    hide Inv, Enabled;
  }

  // ----- main result -------------------------------------------------------------------------

  /** Everything is with the host at first. */
  lemma InitInv(aux0: nat, diff0: nat, ring0: seq<Qword>, q: C.Payloads, data0: H.PageNo, header0: H.PageNo,
                mem: map<nat, Page>, was0: Contents)
    requires P.ResetOk(aux0, diff0, ring0)
    ensures Inv(Init(C.Init(aux0, diff0, ring0, q), data0, header0, mem, was0))
  {
    C.InitInv(aux0, diff0, ring0, q);
    H.InitInv(data0, header0);
    hide C.Inv, H.Inv;
  }

  lemma {:induction false} RunKeeps(x: Host, acts: seq<Action>)
    requires Inv(x)
    ensures Inv(Run(x, acts))
    decreases |acts|
  {
    hide Inv, Step;
    if acts != [] {
      RunKeeps(x, acts[..|acts| - 1]);
      StepKeeps(Run(x, acts[..|acts| - 1]), acts[|acts| - 1]);
    }
  }

  /** The packets on the pages as the host found them, and the buffers deliver_packets fills from them. */
  function Packets(found: seq<Page>, beyond: seq<Byte>): seq<seq<Byte>> {
    if found == [] then []
    else Packets(found[..|found| - 1], beyond) + Parse(found[|found| - 1], beyond)
  }

  function Handed(found: seq<Page>, beyond: seq<Byte>): seq<seq<Byte>> {
    if found == [] then []
    else Handed(found[..|found| - 1], beyond) + Delivered(Parse(found[|found| - 1], beyond))
  }

  lemma {:induction false} PacketsAre(s: P.Rx, returned: seq<W.Returned>, found: seq<Page>, held: seq<Page>,
                                      beyond: seq<Byte>, n: nat)
    requires FoundOk(returned, found, held) && returned <= s.wr.returned && n <= |found|
    ensures Packets(found[..n], beyond) == R.Parsed(s, held, beyond, n)
    ensures Handed(found[..n], beyond) == R.HandedUp(s, held, beyond, n)
    decreases n
  {
    hide Parse, Delivered, W.DmaAll;
    if n > 0 {
      PacketsAre(s, returned, found, held, beyond, n - 1);
      assert found[..n][..n - 1] == found[..n - 1];
      assert found[n - 1] == R.HostPage(s, held, n - 1);
    }
  }

  /** The first `k` of these frames are what the host has found, in order. */
  ghost predicate Finds(x: Host, beyond: seq<Byte>, frames: seq<seq<Byte>>, k: nat) {
    && k <= |frames| && Packets(x.found, beyond) == frames[..k] && Handed(x.found, beyond) == Delivered(frames[..k])
  }

  /** In every run: whatever the memory holds, wherever the host puts its pages, and whatever it writes to
      blocks that are not with the device, the packets on the pages as it finds them when they come back are the
      first of the committed frames, and in a clear run of the good frames on the wire that never met the nearly
      full ring; what it hands up are those of acceptable length without their last four bytes. */
  lemma HostFindsFrames(aux0: nat, diff0: nat, ring0: seq<Qword>, q: C.Payloads, data0: H.PageNo,
                        header0: H.PageNo, mem: map<nat, Page>, was0: Contents, acts: seq<Action>, beyond: seq<Byte>)
    requires P.ResetOk(aux0, diff0, ring0)
    ensures var x := Run(Init(C.Init(aux0, diff0, ring0, q), data0, header0, mem, was0), acts);
            exists k: nat :: Finds(x, beyond, x.c.mac.frames, k)
                          && (x.c.wire.clear ==> Finds(x, beyond, x.c.wire.kept, k))
  {
    hide Inv, Run, Init, C.Init;
    InitInv(aux0, diff0, ring0, q, data0, header0, mem, was0);
    var start := Init(C.Init(aux0, diff0, ring0, q), data0, header0, mem, was0);
    RunKeeps(start, acts);
    var k := FindsIn(Run(start, acts), beyond);
  }

  lemma FindsIn(x: Host, beyond: seq<Byte>) returns (k: nat)
    requires Inv(x)
    ensures Finds(x, beyond, x.c.mac.frames, k) && (x.c.wire.clear ==> Finds(x, beyond, x.c.wire.kept, k))
  {
    var s, n := C.Abstract(x.c), |x.found|;
    hide H.Inv, P.Inv, Same, Placed, Filled, Parse, Delivered, Offset, C.Handing, C.JobOk, M.Inv, C.Abstract;
    C.ReturnedAhead(x.c);
    k := R.PagesParse(s, x.held, beyond, n);
    PacketsAre(s, x.c.wr.returned, x.found, x.held, beyond, n);
    assert x.found[..n] == x.found;
    assert s.mac == x.c.mac && s.wire == x.c.wire by { SameMac(x.c); }
    if s.wire.clear { R.WireAgrees(s, x.held, beyond, n, k); }
  }

  lemma SameMac(c: C.Clocked)
    ensures C.Abstract(c).mac == c.mac && C.Abstract(c).wire == c.wire
  {
  }

  /** No clock changes a block that is with the host. */
  lemma LeavesHostAlone(x: Host, a: Action, block: nat)
    requires Inv(x) && (a.Slow? || a.Fast?) && block in x.mem && block % W.PAGE_BYTES == 0 && !Owned(x, block)
    ensures block in Step(x, a).mem && Step(x, a).mem[block] == x.mem[block]
  {
    if a.Fast? && Enabled(x, a) {
      OpIsEnabled(x, a);
      hide C.Inv, H.Inv, FoundOk, C.Enabled, Clock, C.FastSide, C.OpEnabled, W.DmaAll, W.Dma, C.JobTlp, H.Step;
      if a.edge.op == C.End { EndWrites(x, a.edge); }
    }
    hide Inv, Enabled;
  }
}
