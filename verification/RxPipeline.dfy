/** The receive path from wire to host: MAC interface, trigger, request link, huge-page writer and the
    driver's parser.  The main results hold in every state that any sequence of steps can reach. */
module RxPipeline {
  import opened LbufApi
  import opened Ring
  import F = RxFraming
  import M = RxMacInterface
  import T = RxTlpTrigger
  import W = RxWrPktToHugepages

  /** `wire` is what the MAC has delivered so far, told from its beats alone; `link` is the request the
      synchroniser holds (it takes one at a time, in order, exactly once); `rdSeen` is the read count the MAC
      side currently sees; `ends` lists the counts at which pages ended, from zero on. */
  datatype Rx = Rx(mac: M.Mac, wire: F.Wire, trg: T.Trigger, link: T.Option<T.Request>, wr: W.Writer,
                   rdSeen: nat, ends: seq<nat>)

  datatype Action =
    | MacTick(beat: M.Beat)
    | TriggerTick(accept: bool)
    | TakePage(addr: nat)
    | Serve
    | SeeRead(count: nat)

  predicate ResetOk(aux0: nat, diff0: nat, ring0: seq<Qword>) { aux0 < RING && diff0 < RING && |ring0| == RING }

  /** After reset; the registers and the memory that reset leaves alone hold anything. */
  function Init(aux0: nat, diff0: nat, ring0: seq<Qword>): Rx {
    Rx(M.Init(aux0, diff0, ring0), F.SILENCE, T.Init(), T.None, W.Init(), 0, [0])
  }

  /** What the surroundings can do: beats as the MAC delivers them, 2 MB aligned pages, and read counts that
      arrive late but in order. */
  ghost predicate Enabled(s: Rx, a: Action) {
    match a
    case MacTick(b) => M.Typed(s.mac) && F.FromMac(s.wire, b)
    case TriggerTick(_) => s.trg.r.Typed()
    case TakePage(addr) => !s.wr.r.ready && addr % W.PAGE_BYTES == 0
    case Serve => s.wr.r.ready && s.link.Some? && |s.mac.ring| == RING
    case SeeRead(count) => s.rdSeen <= count <= s.wr.rdCount
  }

  /** The link takes a request only when it holds none. */
  function TickTrigger(s: Rx, accept: bool): Rx
    requires s.trg.r.Typed()
  {
    var ack := accept && s.link.None?;
    var q := T.Accepted(s.trg.r, ack, ack);
    s.(trg := T.Tick(s.trg, |s.mac.stream|, ack, ack), link := if q.Some? then q else s.link)
  }

  ghost function Do(s: Rx, a: Action): Rx
    requires Enabled(s, a)
  {
    match a
    case MacTick(b) => s.(mac := M.Tick(s.mac, b, s.rdSeen), wire := F.Hear(s.wire, b, F.NearlyFull(s.mac)))
    case TriggerTick(accept) => TickTrigger(s, accept)
    case TakePage(addr) => s.(wr := W.TakePage(s.wr, addr))
    case Serve =>
      var q := s.link.value;
      s.(wr := W.Serve(s.wr, s.mac.ring, q), link := if W.Takes(s.wr.r, q) then T.None else s.link,
         ends := if W.Closes(s.wr.r, q) then s.ends + [s.wr.rdCount] else s.ends)
    case SeeRead(count) => s.(rdSeen := count)
  }

  /** A step the surroundings cannot take leaves the state as it is. */
  ghost function Step(s: Rx, a: Action): Rx { if Enabled(s, a) then Do(s, a) else s }

  ghost function Run(s: Rx, acts: seq<Action>): Rx
    decreases |acts|
  {
    if acts == [] then s else Step(Run(s, acts[..|acts| - 1]), acts[|acts| - 1])
  }

  // ----- the invariant -----------------------------------------------------------------------

  /** `x` is the committed pointer's count after some number of frames. */
  ghost predicate IsMark(frames: seq<seq<Byte>>, x: nat) {
    exists k: nat :: k <= |frames| && Offset(frames, k) == x
  }

  /** The writer and the trigger agree on what has been handed over and on where the page began. */
  ghost predicate LinkInv(link: T.Option<T.Request>, issued: nat, start: nat, wr: W.Writer) {
    && start <= issued
    && match link
       case None => wr.rdCount == issued && !wr.r.remember && |wr.data| == issued - start
       case Some(q) =>
         && wr.rdCount + (if wr.r.remember then 0 else T.Size(q)) == issued
         && W.Fits(wr, q)
         && if q == T.Data then !wr.r.remember && |wr.data| + T.TLP_QWORDS == issued - start
            else start == issued
  }

  ghost predicate AllMarks(frames: seq<seq<Byte>>, xs: seq<nat>) {
    forall i :: 0 <= i < |xs| ==> IsMark(frames, xs[i])
  }

  ghost predicate SeenMarks(frames: seq<seq<Byte>>, seen: set<nat>) { forall x :: x in seen ==> IsMark(frames, x) }

  /** Page `i` carries the stretch of the stream between two consecutive ends. */
  ghost predicate PageIs(stream: seq<Qword>, returned: seq<W.Returned>, ends: seq<nat>, i: nat)
    requires i < |returned| && |ends| == |returned| + 1
  {
    ends[i] <= ends[i + 1] <= |stream| && returned[i].data == stream[ends[i]..ends[i + 1]]
  }

  ghost predicate PagesAre(stream: seq<Qword>, returned: seq<W.Returned>, ends: seq<nat>) {
    && |ends| == |returned| + 1 && ends[0] == 0
    && forall i :: 0 <= i < |returned| ==> PageIs(stream, returned, ends, i)
  }

  ghost predicate OpenPage(stream: seq<Qword>, data: seq<Qword>, rdCount: nat, ends: seq<nat>) {
    && |ends| > 0
    && ends[|ends| - 1] + |data| == rdCount <= |stream|
    && data == stream[ends[|ends| - 1]..rdCount]
  }

  /** What the trigger, its requests and the marks have to do with each other. */
  ghost predicate TriggerSide(t: T.Trigger, link: T.Option<T.Request>, wr: W.Writer, frames: seq<seq<Byte>>,
                              wrCount: nat) {
    && T.Inv(t, wrCount) && SeenMarks(frames, t.seen) && IsMark(frames, t.start)
    && t.pos <= t.issued <= t.pos + T.TLP_QWORDS && t.issued <= wrCount
    && LinkInv(link, t.issued, t.start, wr)
  }

  ghost predicate Inv(s: Rx) {
    && M.Inv(s.mac, s.wr.rdCount, s.rdSeen)
    && F.Framed(s.mac, s.wire)
    && W.Inv(s.wr)
    && TriggerSide(s.trg, s.link, s.wr, s.mac.frames, |s.mac.stream|)
    && PagesAre(s.mac.stream, s.wr.returned, s.ends)
    && OpenPage(s.mac.stream, s.wr.data, s.wr.rdCount, s.ends)
    && IsMark(s.mac.frames, |s.mac.stream|)
    && AllMarks(s.mac.frames, s.ends)
  }

  lemma InitInv(aux0: nat, diff0: nat, ring0: seq<Qword>)
    requires ResetOk(aux0, diff0, ring0)
    ensures Inv(Init(aux0, diff0, ring0))
  {
    var s := Init(aux0, diff0, ring0);
    F.StartsFramed(aux0, diff0, ring0);
    assert Offset(s.mac.frames, 0) == 0;
    assert W.Laid([], 0, []);
  }

  lemma MacKeeps(s: Rx, b: M.Beat)
    requires Inv(s) && Enabled(s, MacTick(b))
    ensures Inv(Do(s, MacTick(b)))
  {
    hide M.Inv, T.Inv, W.Inv, LinkInv, PagesAre, OpenPage, SeenMarks, AllMarks, IsMark, M.Typed, M.Legal, Offset;
    hide F.Tracks, F.Together, F.FromMac, F.Hear;
    var mac := M.Tick(s.mac, b, s.rdSeen);
    F.LegalBeat(s.mac, s.wire, b);
    F.FramedOn(s.mac, s.wire, b, s.rdSeen);
    MacStep(s.mac, b, s.wr.rdCount, s.rdSeen);
    hide M.Tick;
    TriggerInvGrows(s.trg, |s.mac.stream|, |mac.stream|);
    PagesGrow(s, mac.stream);
    MarksGrow(s, mac.frames);
  }

  lemma MacStep(m: M.Mac, b: M.Beat, rdCount: nat, rdSeen: nat)
    requires M.Inv(m, rdCount, rdSeen) && M.Legal(m, b)
    ensures var n := M.Tick(m, b, rdSeen);
            && M.Inv(n, rdCount, rdSeen)
            && m.stream <= n.stream && m.frames <= n.frames && |n.frames| <= |m.frames| + 1
            && IsMark(n.frames, |n.stream|)
  {
    M.TickKeeps(m, b, rdCount, rdSeen);
    var n := M.Tick(m, b, rdSeen);
    assert Offset(n.frames, |n.frames|) == |n.stream|;
  }

  lemma MarkGrows(frames: seq<seq<Byte>>, longer: seq<seq<Byte>>, x: nat)
    requires IsMark(frames, x) && frames <= longer && |longer| <= |frames| + 1
    ensures IsMark(longer, x)
  {
    var k: nat :| k <= |frames| && Offset(frames, k) == x;
    if longer != frames {
      assert longer == frames + [longer[|frames|]];
      OffsetAppend(frames, longer[|frames|], k);
    }
    assert Offset(longer, k) == x;
  }

  lemma MarksGrow(s: Rx, longer: seq<seq<Byte>>)
    requires s.mac.frames <= longer && |longer| <= |s.mac.frames| + 1
    requires IsMark(s.mac.frames, s.trg.start) && SeenMarks(s.mac.frames, s.trg.seen) && AllMarks(s.mac.frames, s.ends)
    ensures IsMark(longer, s.trg.start) && SeenMarks(longer, s.trg.seen) && AllMarks(longer, s.ends)
  {
    forall x: nat | IsMark(s.mac.frames, x) ensures IsMark(longer, x) {
      MarkGrows(s.mac.frames, longer, x);
    }
    hide IsMark;
  }

  lemma PagesGrow(s: Rx, longer: seq<Qword>)
    requires s.mac.stream <= longer
    requires PagesAre(s.mac.stream, s.wr.returned, s.ends) && OpenPage(s.mac.stream, s.wr.data, s.wr.rdCount, s.ends)
    ensures PagesAre(longer, s.wr.returned, s.ends) && OpenPage(longer, s.wr.data, s.wr.rdCount, s.ends)
  {
    assert forall i, j :: 0 <= i <= j <= |s.mac.stream| ==> s.mac.stream[i..j] == longer[i..j];
    forall i | 0 <= i < |s.wr.returned| ensures PageIs(longer, s.wr.returned, s.ends, i) {
      assert PageIs(s.mac.stream, s.wr.returned, s.ends, i);
    }
  }

  lemma TriggerInvGrows(t: T.Trigger, wrCount: nat, wrCount': nat)
    requires T.Inv(t, wrCount) && wrCount <= wrCount'
    ensures T.Inv(t, wrCount')
  {
    hide T.StateInv;
  }

  /** The distance the trigger measures is the true one: it never falls a ring behind. */
  lemma TriggerLegal(s: Rx)
    requires Inv(s)
    ensures T.Legal(s.trg, |s.mac.stream|)
  {
    hide T.Inv, W.Inv, PagesAre, OpenPage, SeenMarks, AllMarks, IsMark, W.Fits;
  }

  lemma TriggerKeeps(s: Rx, accept: bool)
    requires Inv(s) && s.trg.r.Typed()
    ensures Inv(TickTrigger(s, accept))
  {
    TriggerLegal(s);
    hide M.Inv, W.Inv, PagesAre, OpenPage, AllMarks, IsMark, T.Inv, T.Accepted, T.Tick, LinkInv, SeenMarks, TriggerSide;
    var wrCount := |s.mac.stream|;
    if accept && s.link.None? && T.Accepted(s.trg.r, true, true).Some? {
      AcceptKeeps(s.trg, s.wr, s.mac.frames, wrCount);
    } else {
      NothingAccepted(s.trg.r);
      QuietKeeps(s.trg, s.link, s.wr, s.mac.frames, wrCount, accept && s.link.None?);
    }
    NewLinkKeeps(s, TickTrigger(s, accept));
  }

  lemma NothingAccepted(r: T.Regs)
    ensures T.Accepted(r, false, false) == T.None
  {
  }

  lemma QuietKeeps(t: T.Trigger, link: T.Option<T.Request>, wr: W.Writer, frames: seq<seq<Byte>>, wrCount: nat,
                   ack: bool)
    requires TriggerSide(t, link, wr, frames, wrCount) && T.Legal(t, wrCount) && IsMark(frames, wrCount)
    requires T.Accepted(t.r, ack, ack) == T.None
    ensures TriggerSide(T.Tick(t, wrCount, ack, ack), link, wr, frames, wrCount)
  {
    hide T.Inv, T.GoodRequest, T.Accepted, T.Tick, LinkInv, SeenMarks, IsMark;
    T.TickKeeps(t, wrCount, ack, ack);
    TriggerStep(t, wrCount, ack);
    SeenMarksAdd(frames, t.seen, wrCount);
  }

  lemma AcceptKeeps(t: T.Trigger, wr: W.Writer, frames: seq<seq<Byte>>, wrCount: nat)
    requires TriggerSide(t, T.None, wr, frames, wrCount) && T.Legal(t, wrCount) && IsMark(frames, wrCount)
    requires T.Accepted(t.r, true, true).Some?
    ensures TriggerSide(T.Tick(t, wrCount, true, true), T.Accepted(t.r, true, true), wr, frames, wrCount)
  {
    hide T.Inv, T.GoodRequest, T.Accepted, T.Tick, LinkInv, SeenMarks, IsMark, T.Size;
    var q := T.Accepted(t.r, true, true).value;
    T.TickKeeps(t, wrCount, true, true);
    TriggerStep(t, wrCount, true);
    SeenMarksAdd(frames, t.seen, wrCount);
    AcceptFits(t, wr, wrCount, q);
    AcceptSeen(frames, t.seen, q, t.issued);
  }

  /** The trigger's side of the invariant, put together with what the other sides keep. */
  lemma NewLinkKeeps(s: Rx, n: Rx)
    requires Inv(s) && n == s.(trg := n.trg, link := n.link)
    requires TriggerSide(n.trg, n.link, s.wr, s.mac.frames, |s.mac.stream|)
    ensures Inv(n)
  {
    hide M.Inv, W.Inv, PagesAre, OpenPage, AllMarks, IsMark, T.Inv, LinkInv, SeenMarks;
  }

  lemma SeenMarksAdd(frames: seq<seq<Byte>>, seen: set<nat>, x: nat)
    requires SeenMarks(frames, seen) && IsMark(frames, x)
    ensures SeenMarks(frames, seen + {x})
  {
    hide IsMark;
  }

  lemma AcceptSeen(frames: seq<seq<Byte>>, seen: set<nat>, q: T.Request, issued: nat)
    requires SeenMarks(frames, seen) && (q != T.Data ==> issued + T.Size(q) in seen)
    ensures q != T.Data ==> IsMark(frames, issued + T.Size(q))
  {
    hide IsMark;
  }

  /** The counts of the trigger across a clock. */
  lemma TriggerStep(t: T.Trigger, wrCount: nat, ack: bool)
    requires T.Inv(t, wrCount) && t.pos <= t.issued <= t.pos + T.TLP_QWORDS
    ensures var n := T.Tick(t, wrCount, ack, ack); var q := T.Accepted(t.r, ack, ack);
            && n.seen == t.seen + {wrCount}
            && n.pos <= n.issued <= n.pos + T.TLP_QWORDS
            && n.issued == t.issued + (if q.Some? then T.Size(q.value) else 0)
            && n.start == (if q.Some? && q.value != T.Data then n.issued else t.start)
            && (q.Some? ==> ack)
  {
    hide T.NextRegs, T.Batch;
  }

  lemma AcceptFits(t: T.Trigger, wr: W.Writer, wrCount: nat, q: T.Request)
    requires LinkInv(T.None, t.issued, t.start, wr)
    requires T.GoodRequest(q, t.issued, t.start, t.seen) && T.Inv(t, wrCount)
    ensures t.issued + T.Size(q) <= wrCount
    ensures q != T.Data ==> t.issued + T.Size(q) in t.seen
    ensures LinkInv(T.Some(q), t.issued + T.Size(q), if q == T.Data then t.start else t.issued + T.Size(q), wr)
  {
    hide T.StateInv;
  }

  lemma TakeKeeps(s: Rx, addr: nat)
    requires Inv(s) && Enabled(s, TakePage(addr))
    ensures Inv(Do(s, TakePage(addr)))
  {
    W.TakeKeeps(s.wr, addr);
    assert s.wr.data == [];
    hide M.Inv, T.Inv, W.Inv, PagesAre, OpenPage, SeenMarks, AllMarks, IsMark;
  }

  lemma SeeKeeps(s: Rx, count: nat)
    requires Inv(s) && Enabled(s, SeeRead(count))
    ensures Inv(Do(s, SeeRead(count)))
  {
    hide M.Inv, T.Inv, W.Inv, LinkInv, PagesAre, OpenPage, SeenMarks, AllMarks, IsMark;
    M.CountsInOrder(s.mac, s.wr.rdCount, s.rdSeen);
    M.ReadKeeps(s.mac, s.wr.rdCount, s.rdSeen, s.wr.rdCount, count);
  }

  lemma ServeKeeps(s: Rx)
    requires Inv(s) && Enabled(s, Serve)
    ensures Inv(Do(s, Serve))
  {
    hide T.Inv, PagesAre, OpenPage, SeenMarks, AllMarks, IsMark;
    var q := s.link.value;
    W.ServeKeeps(s.wr, s.mac.ring, s.mac.stream, q);
    hide W.Inv;
    if W.Closes(s.wr.r, q) {
      ServeCloseKeeps(s);
    } else {
      ServeDataKeeps(s);
    }
  }

  lemma ServeCloseKeeps(s: Rx)
    requires Enabled(s, Serve) && W.Closes(s.wr.r, s.link.value) && W.Inv(Do(s, Serve).wr)
    requires Inv(s)
    ensures Inv(Do(s, Serve))
  {
    hide M.Inv, T.Inv, W.Inv, IsMark, W.ServedTlp, SeenMarks;
    var n := Do(s, Serve);
    forall i | 0 <= i < |n.wr.returned| ensures PageIs(n.mac.stream, n.wr.returned, n.ends, i) {
      if i < |s.wr.returned| {
        assert PageIs(s.mac.stream, s.wr.returned, s.ends, i);
      }
    }
  }

  lemma JoinSlices<X>(a: seq<X>, i: nat, j: nat, k: nat)
    requires i <= j <= k <= |a|
    ensures a[i..j] + a[j..k] == a[i..k]
  {
  }

  lemma ServeDataKeeps(s: Rx)
    requires Enabled(s, Serve) && !W.Closes(s.wr.r, s.link.value) && W.Inv(Do(s, Serve).wr)
    requires var q := s.link.value;
             s.wr.rdCount + T.Size(q) <= |s.mac.stream|
             && W.ServedTlp(s.wr.r, s.mac.ring, q).data == s.mac.stream[s.wr.rdCount..s.wr.rdCount + T.Size(q)]
    requires Inv(s)
    ensures Inv(Do(s, Serve))
  {
    hide M.Inv, T.Inv, W.Inv, IsMark, W.ServedTlp, PagesAre, SeenMarks, AllMarks;
    var n, q := Do(s, Serve), s.link.value;
    M.CountsInOrder(s.mac, s.wr.rdCount, s.rdSeen);
    M.ReadKeeps(s.mac, s.wr.rdCount, s.rdSeen, n.wr.rdCount, s.rdSeen);
    JoinSlices(s.mac.stream, s.ends[|s.ends| - 1], s.wr.rdCount, n.wr.rdCount);
  }

  lemma StepKeeps(s: Rx, a: Action)
    requires Inv(s)
    ensures Inv(Step(s, a))
  {
    if Enabled(s, a) {
      match a {
        case MacTick(b) => MacKeeps(s, b);
        case TriggerTick(accept) => TriggerKeeps(s, accept);
        case TakePage(addr) => TakeKeeps(s, addr);
        case Serve => ServeKeeps(s);
        case SeeRead(count) => SeeKeeps(s, count);
      }
    }
  }

  /** The invariant holds in every reachable state. */
  lemma {:induction false} RunKeeps(aux0: nat, diff0: nat, ring0: seq<Qword>, acts: seq<Action>)
    requires ResetOk(aux0, diff0, ring0)
    ensures Inv(Run(Init(aux0, diff0, ring0), acts))
    decreases |acts|
  {
    if acts == [] {
      InitInv(aux0, diff0, ring0);
    } else {
      RunKeeps(aux0, diff0, ring0, acts[..|acts| - 1]);
      StepKeeps(Run(Init(aux0, diff0, ring0), acts[..|acts| - 1]), acts[|acts| - 1]);
    }
  }
}
