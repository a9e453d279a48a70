/** The receive path with its two clocks: MAC interface, trigger and the slow sides of the two crossings on one,
    their fast sides and the huge-page writer on the other, which acknowledges a request, reads the ring qword by
    qword, and frees the slots at the end.  Every run of it is a run of RxPipeline, whose link, one-step TLPs
    and late read counts stand for all that, so that what holds there holds here. */
module RxClocked {
  import opened LbufApi
  import opened Ring
  import A = RxRdAddrSynch
  import F = RxFraming
  import L = RxTriggerLink
  import M = RxMacInterface
  import P = RxPipeline
  import R = RxRoundTrip
  import S = RxTriggerSynch
  import T = RxTlpTrigger
  import W = RxWrPktToHugepages

  /** What the writer is busy with: nothing (s0, s1), or a request, of whose qwords it has `got` some; `first`
      is the clock after it decided, in which its acknowledgement shows. */
  datatype Job = Idle | Busy(q: T.Request, first: bool, got: seq<Qword>)

  /** `x` carries the requests over, `y` the read address back; `taken` are the requests the trigger has seen
      acknowledged, `consumed` counts those the writer has begun to complete. */
  datatype Clocked = Clocked(mac: M.Mac, wire: F.Wire, trg: T.Trigger, x: S.Synch, y: A.Synch, taken: seq<T.Request>,
                             consumed: nat, wr: W.Writer, job: Job, ends: seq<nat>)

  /** What the writer does in a clock: wait (for its turn, for the endpoint), decide on the request shown, take
      the next qword from the ring, or end the TLP. */
  datatype Op = Wait | Begin | Word | End

  /** An edge of the MAC's clock, of the endpoint's, or of both; `torn` is what an edge may catch of the read
      address while that changes. */
  datatype Action =
    | Slow(beat: M.Beat)
    | Fast(op: Op)
    | Both(beat: M.Beat, op: Op, torn: nat)
    | TakePage(addr: nat)

  /** The crossings' registers without a reset hold anything. */
  datatype Payloads = Payloads(q0: nat, q1: nat, q2: nat, cross0: nat, reg0: nat)

  function Init(aux0: nat, diff0: nat, ring0: seq<Qword>, q: Payloads): Clocked {
    Clocked(M.Init(aux0, diff0, ring0), F.SILENCE, T.Init(), S.Init(q.q0, q.q1, q.q2), A.Init(q.cross0, q.reg0),
            [], 0, W.Init(), Idle, [0])
  }

  predicate Edge?(a: Action) { !a.TakePage? }

  predicate Slow?(a: Action) { a.Slow? || a.Both? }

  predicate Fast?(a: Action) { a.Fast? || a.Both? }

  predicate Does(a: Action, op: Op) { Fast?(a) && a.op == op }

  /** The request on the wires to the writer. */
  function Shown(f: S.Fast): T.Request
    requires f.fsm.Present?
  {
    L.Named(S.Payload(f.fsm.kind, f.qwordsOut))
  }

  /** The writer's acknowledgement shows, if the request is complete with what it has begun. */
  predicate Acking(c: Clocked) { c.job.Busy? && c.job.first && W.Takes(c.wr.r, c.job.q) }

  predicate Acks(c: Clocked, a: Action) { Fast?(a) && Acking(c) }

  function LinkOf(c: Clocked): L.Link { L.Link(c.trg.r, c.x, c.taken) }

  function LinkAction(c: Clocked, a: Action): L.Action {
    var tlpAck := Acks(c, a) && c.job.q == T.Data;
    var changeAck := Acks(c, a) && c.job.q != T.Data;
    match a
    case Slow(_) => L.SlowTick(|c.mac.stream| % RING)
    case Both(_, _, _) => L.BothTick(|c.mac.stream| % RING, tlpAck, changeAck)
    case _ => L.FastTick(tlpAck, changeAck)
  }

  /** The qwords that a TLP for the request carries. */
  function Wanted(r: W.WriterRegs, q: T.Request): nat { if W.Closes(r, q) then 0 else T.Size(q) }

  ghost predicate OpEnabled(c: Clocked, op: Op) {
    match op
    case Wait => true
    case Begin => c.job.Idle? && c.x.f.fsm.Present? && c.wr.r.ready && |c.mac.ring| == RING
    case Word =>
      c.job.Busy? && !c.job.first && |c.job.got| < Wanted(c.wr.r, c.job.q) && |c.mac.ring| == RING
    case End => c.job.Busy? && !c.job.first && |c.job.got| == Wanted(c.wr.r, c.job.q)
  }

  ghost predicate Enabled(c: Clocked, a: Action) {
    && (Edge?(a) ==> L.Enabled(LinkOf(c), LinkAction(c, a)))
    && (Slow?(a) ==> M.Typed(c.mac) && F.FromMac(c.wire, a.beat))
    && (Fast?(a) ==> OpEnabled(c, a.op))
    && (a.TakePage? ==> c.job.Idle? && !c.wr.r.ready && a.addr % W.PAGE_BYTES == 0)
  }

  /** The read address on its way back. */
  function AddressAction(c: Clocked, a: Action): A.Action {
    match a
    case Slow(_) => A.SlowTick
    case Both(_, _, torn) => A.BothTick(c.wr.rdCount, torn)
    case _ => A.FastTick(c.wr.rdCount)
  }

  /** The machines of the MAC's clock. */
  ghost function SlowSide(c: Clocked, b: M.Beat): Clocked
    requires M.Typed(c.mac) && c.trg.r.Typed()
  {
    c.(mac := M.Tick(c.mac, b, c.y.shown), wire := F.Hear(c.wire, b, F.NearlyFull(c.mac)),
       trg := T.Tick(c.trg, |c.mac.stream|, c.x.s.tlpAck, c.x.s.changeAck))
  }

  /** The TLP that a finished job has sent. */
  function JobTlp(r: W.WriterRegs, q: T.Request, got: seq<Qword>): W.Tlp {
    if W.Closes(r, q) then W.HeaderTlp(r) else W.Tlp(r.hostAddr, r.tlpNumber % 16, got)
  }

  /** The writer, with the ring as it is before the edge. */
  ghost function FastSide(c: Clocked, op: Op): Clocked
    requires OpEnabled(c, op)
  {
    match op
    case Wait => if c.job.Busy? then c.(job := c.job.(first := false)) else c
    case Begin =>
      var q := Shown(c.x.f);
      c.(job := Busy(q, true, []), consumed := c.consumed + if W.Takes(c.wr.r, q) then 1 else 0)
    case Word => c.(job := c.job.(got := c.job.got + [c.mac.ring[(c.wr.r.rd + |c.job.got|) % RING]]))
    case End =>
      var q := c.job.q;
      c.(wr := W.Sent(c.wr, q, JobTlp(c.wr.r, q, c.job.got)), job := Idle,
         ends := if W.Closes(c.wr.r, q) then c.ends + [c.wr.rdCount] else c.ends)
  }

  ghost function Side(c: Clocked, a: Action): Clocked
    requires Fast?(a) ==> OpEnabled(c, a.op)
  {
    if Fast?(a) then FastSide(c, a.op) else c
  }

  ghost function Step(c: Clocked, a: Action): Clocked {
    if !Enabled(c, a) then c
    else if a.TakePage? then c.(wr := W.TakePage(c.wr, a.addr))
    else
      var l := L.Step(LinkOf(c), LinkAction(c, a));
      var d := Side(c, a);
      (if Slow?(a) then SlowSide(d, a.beat) else d).(x := l.x, taken := l.taken, y := A.Step(c.y, AddressAction(c, a)))
  }

  ghost function Run(c: Clocked, acts: seq<Action>): Clocked
    decreases |acts|
  {
    if acts == [] then c else Step(Run(c, acts[..|acts| - 1]), acts[|acts| - 1])
  }

  // ----- all this as RxPipeline has it -------------------------------------------------------

  /** The writer as if what it has begun were done. */
  ghost function Ahead(c: Clocked): W.Writer {
    if c.job.Busy? && |c.mac.ring| == RING then W.Serve(c.wr, c.mac.ring, c.job.q) else c.wr
  }

  /** The request taken and not begun is the one the link holds; the count seen is the one shown. */
  ghost function Abstract(c: Clocked): P.Rx {
    P.Rx(c.mac, c.wire, c.trg, if c.consumed < |c.taken| then T.Some(c.taken[c.consumed]) else T.None, Ahead(c),
         c.y.shown, if c.job.Busy? && W.Closes(c.wr.r, c.job.q) then c.ends + [c.wr.rdCount] else c.ends)
  }

  /** A page change is shown to the writer no sooner than the trigger has seen it acknowledged: at most two
      fast clocks go by in between, and the crossing needs three. */
  predicate Window(x: S.Synch) {
    x.s.fsm.Await? && x.s.changeAck ==>
      && !x.f.fsm.Present? && |x.accepted| == |x.presented| + 1
      && (x.since == 0 ==> x.f.reg0 == S.OFF) && (x.since == 1 ==> x.f.reg1 == S.OFF)
  }

  predicate LastShown(x: S.Synch) {
    x.f.fsm.Present? ==> x.presented != [] && x.presented[|x.presented| - 1] == S.Payload(x.f.fsm.kind, x.f.qwordsOut)
  }

  /** The request shown is still to be begun, or to be completed. */
  predicate Open(c: Clocked) { c.x.f.fsm.Present? && !Acking(c) }

  ghost predicate Handing(c: Clocked) {
    && L.Inv(LinkOf(c)) && Window(c.x) && LastShown(c.x)
    && c.consumed + (if Open(c) then 1 else 0) == |c.x.presented|
    && (c.job.Busy? && c.job.first ==> c.x.f.fsm.Present? && Shown(c.x.f) == c.job.q)
    && A.Inv(c.y) && c.y.count <= c.wr.rdCount && c.y.since == c.x.since
  }

  /** What a job has got are the next committed qwords, and they fit the page. */
  ghost predicate JobOk(c: Clocked) {
    c.job.Busy? ==>
      var n := Wanted(c.wr.r, c.job.q);
      && n <= T.TLP_QWORDS && c.wr.rdCount + n <= |c.mac.stream| && |c.job.got| <= n
      && c.job.got == c.mac.stream[c.wr.rdCount..c.wr.rdCount + |c.job.got|]
      && (!W.Closes(c.wr.r, c.job.q) ==> n == T.Size(c.job.q) && RESERVED_QWORDS + |c.wr.data| + n < PAGE_QWORDS)
  }

  /** The ring keeps what has not been freed, whatever RxPipeline takes for done. */
  ghost predicate Inv(c: Clocked) {
    && Handing(c) && JobOk(c) && M.Inv(c.mac, c.wr.rdCount, c.y.shown) && c.wr.r.rd == c.wr.rdCount % RING
    && P.Inv(Abstract(c))
  }

  lemma WindowKeeps(x: S.Synch, a: S.Action)
    requires S.Inv(x) && Window(x)
    ensures Window(S.Step(x, a))
  {
  }

  lemma LastShownKeeps(x: S.Synch, a: S.Action)
    requires LastShown(x)
    ensures LastShown(S.Step(x, a))
  {
    hide S.NextSlow;
  }

  /** How the counts stand: the link is empty when the trigger is about to take a request, and holds the one
      on the wires when the writer may begin. */
  lemma Counts(c: Clocked)
    requires Handing(c)
    ensures c.consumed <= |c.taken| <= c.consumed + 1
    ensures Open(c) ==> |c.taken| == c.consumed + 1 && c.taken[c.consumed] == Shown(c.x.f)
    ensures Taken(c).Some? ==> |c.taken| == c.consumed && !c.x.f.fsm.Present?
  {
    hide L.OfferOk, L.FullTlps, L.Named;
  }

  /** Whether a clock of the slow side hands a request over, and which. */
  function Taken(c: Clocked): T.Option<T.Request> { T.Accepted(c.trg.r, c.x.s.tlpAck, c.x.s.changeAck) }

  lemma InitInv(aux0: nat, diff0: nat, ring0: seq<Qword>, q: Payloads)
    requires P.ResetOk(aux0, diff0, ring0)
    ensures Inv(Init(aux0, diff0, ring0, q))
    ensures Abstract(Init(aux0, diff0, ring0, q)) == P.Init(aux0, diff0, ring0)
  {
    L.RunKeeps(q.q0, q.q1, q.q2, []);
    assert L.Run(L.Init(q.q0, q.q1, q.q2), []) == L.Init(q.q0, q.q1, q.q2);
    P.InitInv(aux0, diff0, ring0);
    assert M.Inv(M.Init(aux0, diff0, ring0), 0, 0) by { MacStarts(aux0, diff0, ring0); }
    hide L.Inv, P.Inv, M.Inv;
  }

  lemma MacStarts(aux0: nat, diff0: nat, ring0: seq<Qword>)
    requires P.Inv(P.Init(aux0, diff0, ring0))
    ensures M.Inv(M.Init(aux0, diff0, ring0), 0, 0)
  {
    hide M.Inv, P.TriggerSide, P.PagesAre, P.OpenPage, P.AllMarks, P.IsMark, F.Framed, W.Inv;
  }

  // ----- the handing over --------------------------------------------------------------------

  lemma SentReads(w: W.Writer, q: T.Request, t: W.Tlp)
    ensures w.rdCount <= W.Sent(w, q, t).rdCount
  {
    hide W.Served;
  }

  /** What an edge does to the crossings, to what the trigger has taken and to the writer. */
  lemma LinkStep(c: Clocked, a: Action)
    requires Enabled(c, a) && Edge?(a)
    ensures var n, d := Step(c, a), Side(c, a);
            && LinkOf(n) == L.Step(LinkOf(c), LinkAction(c, a))
            && n.x == S.Step(c.x, L.AsAction(c.trg.r, LinkAction(c, a)))
            && n.taken == (if Slow?(a) && Taken(c).Some? then c.taken + [Taken(c).value] else c.taken)
            && n.y == A.Step(c.y, AddressAction(c, a))
            && n.consumed == d.consumed && n.job == d.job && n.wr == d.wr && c.wr.rdCount <= n.wr.rdCount
  {
    hide OpEnabled, A.Step, S.Step, S.Enabled, T.NextRegs, M.Tick, F.Hear, L.Offers, Acks;
    SideReads(c, a);
    hide FastSide;
  }

  /** The writer leaves the MAC's clock alone, and its read count only grows. */
  lemma SideReads(c: Clocked, a: Action)
    requires Fast?(a) ==> OpEnabled(c, a.op)
    ensures var d := Side(c, a);
            && c.wr.rdCount <= d.wr.rdCount && d.mac == c.mac && d.wire == c.wire && d.trg == c.trg && d.x == c.x
            && d.y == c.y && d.taken == c.taken
  {
    hide W.Sent, W.Takes, W.Closes, JobTlp, Shown;
    if Does(a, End) { SentReads(c.wr, c.job.q, JobTlp(c.wr.r, c.job.q, c.job.got)); }
  }

  /** The fast side shows one request at a time, holds it until it is acknowledged, and then lets go of it. */
  lemma ShownCount(c: Clocked, a: Action)
    requires Enabled(c, a) && Edge?(a)
    requires Acking(c) ==> c.x.f.fsm.Present? && Shown(c.x.f) == c.job.q
    ensures var n := S.Step(c.x, L.AsAction(c.trg.r, LinkAction(c, a)));
            && |n.presented| + (if c.x.f.fsm.Present? then 1 else 0)
               == |c.x.presented| + (if n.f.fsm.Present? then 1 else 0) + (if Acks(c, a) then 1 else 0)
            && (c.x.f.fsm.Present? && !Acks(c, a) ==> n.f.fsm.Present? && Shown(n.f) == Shown(c.x.f))
            && (Acks(c, a) ==> !n.f.fsm.Present?)
  {
    hide S.NextSlow, W.Takes, S.Accepted;
  }

  /** The read address that arrives is one the writer has freed, and no older than the one before. */
  lemma AddressStep(c: Clocked, a: Action)
    requires Handing(c) && Enabled(c, a) && Edge?(a)
    ensures var n := A.Step(c.y, AddressAction(c, a));
            && A.Inv(n) && n.since == S.Step(c.x, L.AsAction(c.trg.r, LinkAction(c, a))).since
            && c.y.shown <= n.shown <= n.count <= c.wr.rdCount
  {
    A.StepKeeps(c.y, AddressAction(c, a));
    hide L.Inv, S.NextSlow, S.NextFast, A.Moving, A.Settled, Window, LastShown, Acks, L.Offers, OpEnabled;
  }

  /** What the writer does in an edge, as far as the handing over is concerned. */
  lemma OpStep(c: Clocked, a: Action)
    requires Enabled(c, a) && Edge?(a)
    ensures var d := Side(c, a);
            && (!Fast?(a) ==> d == c)
            && (Does(a, Begin) ==>
                  && c.x.f.fsm.Present? && c.job.Idle? && d.job == Busy(Shown(c.x.f), true, []) && d.wr == c.wr
                  && d.consumed == c.consumed + if W.Takes(c.wr.r, Shown(c.x.f)) then 1 else 0)
            && (Fast?(a) && a.op != Begin ==> d.consumed == c.consumed && !(d.job.Busy? && d.job.first))
  {
    hide W.Sent, JobTlp, L.Enabled;
  }

  lemma HandingKeeps(c: Clocked, a: Action)
    requires Handing(c)
    ensures Handing(Step(c, a))
  {
    if Enabled(c, a) {
      if Edge?(a) {
        EdgeKeeps(c, a);
      } else {
        hide L.Inv, A.Inv, Window, LastShown, W.Takes;
      }
    }
  }

  lemma EdgeKeeps(c: Clocked, a: Action)
    requires Handing(c) && Enabled(c, a) && Edge?(a)
    ensures Handing(Step(c, a))
  {
    hide L.OfferOk, L.Lag, L.FullTlps, S.Inv, A.Inv, Window, LastShown, OpEnabled, L.Enabled, LinkAction, W.Takes;
    hide Step, L.Step, S.Step, A.Step, Shown, FastSide;
    var la := LinkAction(c, a);
    L.StepKeeps(LinkOf(c), la);
    WindowKeeps(c.x, L.AsAction(c.trg.r, la));
    LastShownKeeps(c.x, L.AsAction(c.trg.r, la));
    LinkStep(c, a);
    OpStep(c, a);
    ShownCount(c, a);
    AddressStep(c, a);
  }

  // ----- every run is one of RxPipeline ------------------------------------------------------

  lemma {:induction false} RunConcat(s: P.Rx, a: seq<P.Action>, b: seq<P.Action>)
    ensures P.Run(s, a + b) == P.Run(P.Run(s, a), b)
    decreases |b|
  {
    hide P.Step;
    if b == [] {
      assert a + b == a;
    } else {
      RunConcat(s, a, b[..|b| - 1]);
      assert (a + b)[..|a + b| - 1] == a + b[..|b| - 1];
    }
  }

  lemma RunOne(s: P.Rx, a: P.Action)
    ensures P.Run(s, []) == s && P.Run(s, [a]) == P.Step(s, a)
  {
    hide P.Step;
    assert [a][..0] == [];
  }

  lemma {:induction false} RunStays(s: P.Rx, acts: seq<P.Action>)
    requires P.Inv(s)
    ensures P.Inv(P.Run(s, acts))
    decreases |acts|
  {
    hide P.Inv, P.Step;
    if acts != [] {
      RunStays(s, acts[..|acts| - 1]);
      P.StepKeeps(P.Run(s, acts[..|acts| - 1]), acts[|acts| - 1]);
    }
  }

  /** A trigger that takes a request looks at nothing but the acknowledgement it gets, and one that takes none
      at no acknowledgement at all. */
  lemma OwnAck(t: T.Trigger, n: nat, tlpAck: bool, changeAck: bool)
    requires t.r.Typed()
    ensures var acc := T.Accepted(t.r, tlpAck, changeAck).Some?;
            && T.Accepted(t.r, acc, acc) == T.Accepted(t.r, tlpAck, changeAck)
            && T.Tick(t, n, acc, acc) == T.Tick(t, n, tlpAck, changeAck)
  {
    hide Sub, Add;
  }

  /** The steps of RxPipeline that the parts of an edge amount to. */
  ghost function OpSteps(a: Action): seq<P.Action> { if Does(a, Begin) then [P.Serve] else [] }

  ghost function SlowSteps(c: Clocked, a: Action): seq<P.Action> {
    if Slow?(a) then [P.TriggerTick(Taken(c).Some?), P.MacTick(a.beat)] else []
  }

  /** The writer comes first, as it uses the old ring, and what arrives of the read address counts from the next
      edge on. */
  ghost function Steps(c: Clocked, a: Action): seq<P.Action> {
    if !Enabled(c, a) then []
    else if a.TakePage? then [P.TakePage(a.addr)]
    else OpSteps(a) + SlowSteps(c, a) + [P.SeeRead(A.Step(c.y, AddressAction(c, a)).shown)]
  }

  ghost function AllSteps(c: Clocked, acts: seq<Action>): seq<P.Action>
    decreases |acts|
  {
    if acts == [] then []
    else AllSteps(c, acts[..|acts| - 1]) + Steps(Run(c, acts[..|acts| - 1]), acts[|acts| - 1])
  }

  /** What a TLP carries does not depend on what the ring has got in the meantime. */
  lemma SameTlp(c: Clocked, ring: seq<Qword>, stream: seq<Qword>)
    requires c.job.Busy? && JobOk(c) && c.wr.r.rd == c.wr.rdCount % RING && c.mac.stream <= stream
    requires Holds(ring, stream, c.wr.rdCount, |stream|)
    ensures W.Closes(c.wr.r, c.job.q)
         || W.Slots(ring, c.wr.r.rd, T.Size(c.job.q))
            == c.mac.stream[c.wr.rdCount..c.wr.rdCount + T.Size(c.job.q)]
  {
    if !W.Closes(c.wr.r, c.job.q) {
      W.SlotsAreStream(ring, stream, c.wr.rdCount, T.Size(c.job.q));
    }
    hide Holds, W.Slots;
  }

  lemma RingHolds(c: Clocked)
    requires M.Inv(c.mac, c.wr.rdCount, c.y.shown)
    ensures M.Typed(c.mac) && |c.mac.ring| == RING && c.wr.rdCount <= |c.mac.stream|
    ensures Holds(c.mac.ring, c.mac.stream, c.wr.rdCount, |c.mac.stream|)
  {
    hide M.Encoded, M.StateInv, Holds;
  }

  /** What holds of the writer and the link in RxPipeline. */
  lemma LinkFacts(s: P.Rx)
    requires P.Inv(s)
    ensures s.wr.r.rd == s.wr.rdCount % RING
    ensures s.link.Some? && !W.Closes(s.wr.r, s.link.value) ==>
              && T.Size(s.link.value) <= T.TLP_QWORDS
              && RESERVED_QWORDS + |s.wr.data| + T.Size(s.link.value) < PAGE_QWORDS
              && s.wr.rdCount + T.Size(s.link.value) <= |s.mac.stream|
  {
    hide M.Inv, T.Inv, P.PagesAre, P.OpenPage, P.AllMarks, P.IsMark, P.SeenMarks, F.Framed, W.Laid, W.PageOk;
  }

  lemma BeginLink(c: Clocked)
    requires Handing(c) && OpEnabled(c, Begin)
    ensures |c.taken| == c.consumed + 1 && c.taken[c.consumed] == Shown(c.x.f)
  {
    Counts(c);
    hide Handing, Shown;
  }

  lemma BeginRuns(c: Clocked)
    requires OpEnabled(c, Begin) && |c.taken| == c.consumed + 1 && c.taken[c.consumed] == Shown(c.x.f)
    ensures P.Run(Abstract(c), [P.Serve]) == Abstract(FastSide(c, Begin))
  {
    RunOne(Abstract(c), P.Serve);
    hide P.Run, Shown, W.Serve, W.Takes, W.Closes;
  }

  lemma BeginJob(c: Clocked)
    requires OpEnabled(c, Begin) && P.Inv(Abstract(c)) && c.wr.rdCount <= |c.mac.stream|
    requires |c.taken| == c.consumed + 1 && c.taken[c.consumed] == Shown(c.x.f)
    ensures JobOk(FastSide(c, Begin))
  {
    hide P.Inv, Shown, W.Takes, W.Closes, T.Size;
    var q := Shown(c.x.f);
    LinkFacts(Abstract(c));
    assert Abstract(c).wr == c.wr && Abstract(c).link == T.Some(q) && Abstract(c).mac == c.mac;
    hide Abstract;
    assert FastSide(c, Begin).job == Busy(q, true, []);
  }

  lemma BeginSimulates(c: Clocked)
    requires Inv(c) && OpEnabled(c, Begin)
    ensures P.Run(Abstract(c), [P.Serve]) == Abstract(FastSide(c, Begin)) && JobOk(FastSide(c, Begin))
  {
    hide Handing, M.Inv, P.Inv, P.Run, OpEnabled, Abstract, JobOk, Shown;
    RingHolds(c);
    BeginLink(c);
    BeginRuns(c);
    BeginJob(c);
  }

  lemma WordSimulates(c: Clocked)
    requires OpEnabled(c, Word) && JobOk(c) && M.Inv(c.mac, c.wr.rdCount, c.y.shown)
    requires c.wr.r.rd == c.wr.rdCount % RING
    ensures Abstract(FastSide(c, Word)) == Abstract(c) && JobOk(FastSide(c, Word))
  {
    hide W.Serve, W.Closes, M.Inv, T.Size;
    RingHolds(c);
    W.SameSlot(c.wr.rdCount, |c.job.got|);
    var k := c.wr.rdCount + |c.job.got|;
    assert c.mac.ring[k % RING] == c.mac.stream[k];
    hide Holds;
    NextOfStretch(c.mac.stream, c.wr.rdCount, k);
  }

  lemma NextOfStretch(a: seq<Qword>, lo: nat, k: nat)
    requires lo <= k < |a|
    ensures a[lo..k + 1] == a[lo..k] + [a[k]]
  {
  }

  lemma EndIsServe(c: Clocked)
    requires OpEnabled(c, End) && JobOk(c) && |c.mac.ring| == RING
    requires W.Closes(c.wr.r, c.job.q) || W.Slots(c.mac.ring, c.wr.r.rd, T.Size(c.job.q)) == c.job.got
    ensures FastSide(c, End).wr == Ahead(c) && Abstract(FastSide(c, End)) == Abstract(c)
  {
    hide W.Slots, W.Served, W.Closes;
  }

  lemma EndReads(c: Clocked)
    requires OpEnabled(c, End) && JobOk(c)
    ensures FastSide(c, End).wr.rdCount == c.wr.rdCount + Wanted(c.wr.r, c.job.q)
    ensures c.wr.rdCount + Wanted(c.wr.r, c.job.q) <= |c.mac.stream|
  {
    hide W.Served, JobTlp, W.Closes;
  }

  lemma EndSimulates(c: Clocked)
    requires Inv(c) && OpEnabled(c, End)
    ensures var d := FastSide(c, End);
            && Abstract(d) == Abstract(c) && JobOk(d) && M.Inv(d.mac, d.wr.rdCount, d.y.shown)
            && d.wr.r.rd == d.wr.rdCount % RING
  {
    hide Handing, M.Inv, P.Inv, Holds, W.Slots, W.Served;
    RingHolds(c);
    SameTlp(c, c.mac.ring, c.mac.stream);
    EndIsServe(c);
    EndReads(c);
    LinkFacts(Abstract(c));
    M.CountsInOrder(c.mac, c.wr.rdCount, c.y.shown);
    M.ReadKeeps(c.mac, c.wr.rdCount, c.y.shown, FastSide(c, End).wr.rdCount, c.y.shown);
    hide W.Sent, JobTlp, W.Serve, Wanted;
  }

  /** Where the writer stands is where RxPipeline has it. */
  ghost predicate Matches(c: Clocked) {
    && P.Inv(Abstract(c)) && JobOk(c) && M.Inv(c.mac, c.wr.rdCount, c.y.shown) && c.wr.r.rd == c.wr.rdCount % RING
  }

  /** The writer's part of an edge. */
  lemma OpSimulates(c: Clocked, a: Action)
    requires Inv(c) && (Fast?(a) ==> OpEnabled(c, a.op))
    ensures P.Run(Abstract(c), OpSteps(a)) == Abstract(Side(c, a)) && Matches(Side(c, a))
  {
    hide Handing, M.Inv, P.Inv, P.Run, JobOk, OpEnabled;
    RunOne(Abstract(c), P.Serve);
    RunStays(Abstract(c), OpSteps(a));
    if Fast?(a) {
      match a.op {
        case Begin => BeginSimulates(c);
        case Word => WordSimulates(c);
        case End => EndSimulates(c);
        case Wait => WaitSimulates(c);
      }
      hide Abstract;
    }
  }

  lemma WaitSimulates(c: Clocked)
    requires Inv(c)
    ensures Abstract(FastSide(c, Wait)) == Abstract(c) && Matches(FastSide(c, Wait))
  {
    hide Handing, M.Inv, P.Inv, W.Serve, W.Closes;
  }

  /** The slow side's edge, in which the trigger takes a request if the link is empty. */
  lemma SlowIsSlow(c: Clocked, b: M.Beat)
    requires M.Typed(c.mac) && c.trg.r.Typed() && F.FromMac(c.wire, b)
    requires c.consumed <= |c.taken| && (Taken(c).Some? ==> |c.taken| == c.consumed)
    ensures P.Run(Abstract(c), [P.TriggerTick(Taken(c).Some?), P.MacTick(b)])
         == Abstract(SlowSide(c, b).(taken := if Taken(c).Some? then c.taken + [Taken(c).value] else c.taken))
              .(wr := Ahead(c))
  {
    var acc, s := Taken(c).Some?, Abstract(c);
    OwnAck(c.trg, |c.mac.stream|, c.x.s.tlpAck, c.x.s.changeAck);
    RunOne(s, P.TriggerTick(acc));
    RunOne(P.Step(s, P.TriggerTick(acc)), P.MacTick(b));
    RunConcat(s, [P.TriggerTick(acc)], [P.MacTick(b)]);
    assert [P.TriggerTick(acc)] + [P.MacTick(b)] == [P.TriggerTick(acc), P.MacTick(b)];
    hide P.Run, M.Tick, M.Typed, F.Hear, F.FromMac, T.Tick, T.Accepted, T.Regs.Typed, Ahead, W.Closes;
  }

  /** The MAC's clock keeps what the writer still reads. */
  lemma SlowKeepsJob(c: Clocked, b: M.Beat)
    requires JobOk(c) && M.Inv(c.mac, c.wr.rdCount, c.y.shown) && c.wr.r.rd == c.wr.rdCount % RING
    requires M.Legal(c.mac, b) && c.trg.r.Typed()
    ensures var n := SlowSide(c, b);
            JobOk(n) && M.Inv(n.mac, n.wr.rdCount, n.y.shown) && Ahead(n) == Ahead(c)
  {
    hide M.Inv, M.Tick, Holds, F.Hear, T.Tick, M.Legal, W.Slots, W.Closes, W.Served;
    RingHolds(c);
    M.TickKeeps(c.mac, b, c.wr.rdCount, c.y.shown);
    var n := SlowSide(c, b);
    RingHolds(n);
    if c.job.Busy? {
      SameTlp(c, c.mac.ring, c.mac.stream);
      SameTlp(c, n.mac.ring, n.mac.stream);
      hide W.Serve;
      SameAhead(c.wr, c.mac.ring, n.mac.ring, c.job.q);
      SameStretch(c.mac.stream, n.mac.stream, c.wr.rdCount, |c.job.got|);
    }
  }

  lemma SameAhead(w: W.Writer, a: seq<Qword>, b: seq<Qword>, q: T.Request)
    requires |a| == |b| == RING && (W.Closes(w.r, q) || W.Slots(a, w.r.rd, T.Size(q)) == W.Slots(b, w.r.rd, T.Size(q)))
    ensures W.Serve(w, a, q) == W.Serve(w, b, q)
  {
  }

  lemma SameStretch(a: seq<Qword>, b: seq<Qword>, lo: nat, n: nat)
    requires a <= b && lo + n <= |a|
    ensures a[lo..lo + n] == b[lo..lo + n]
  {
  }

  lemma BeatIsLegal(s: P.Rx, b: M.Beat)
    requires P.Inv(s) && F.FromMac(s.wire, b)
    ensures M.Legal(s.mac, b)
  {
    F.LegalBeat(s.mac, s.wire, b);
    hide M.Inv, T.Inv, W.Inv;
  }

  lemma SideCounts(c: Clocked, a: Action)
    requires Handing(c) && Enabled(c, a) && Edge?(a)
    ensures var d := Side(c, a);
            Taken(d) == Taken(c) && d.consumed <= |d.taken| && (Taken(d).Some? ==> |d.taken| == d.consumed)
  {
    hide Handing, W.Takes, Shown, L.Enabled;
    Counts(c);
    OpStep(c, a);
    SideReads(c, a);
    hide OpEnabled, Side;
  }

  /** The slow side's part of an edge. */
  ghost function SlowPart(c: Clocked, b: M.Beat): Clocked
    requires M.Typed(c.mac) && c.trg.r.Typed()
  {
    SlowSide(c, b).(taken := if Taken(c).Some? then c.taken + [Taken(c).value] else c.taken)
  }

  lemma SlowSimulates(c: Clocked, b: M.Beat)
    requires Matches(c) && M.Typed(c.mac) && c.trg.r.Typed() && F.FromMac(c.wire, b)
    requires c.consumed <= |c.taken| && (Taken(c).Some? ==> |c.taken| == c.consumed)
    ensures P.Run(Abstract(c), [P.TriggerTick(Taken(c).Some?), P.MacTick(b)]) == Abstract(SlowPart(c, b))
    ensures Matches(SlowPart(c, b))
  {
    hide P.Inv, P.Run, M.Inv, JobOk, Ahead, M.Legal, F.FromMac, T.Accepted;
    BeatIsLegal(Abstract(c), b);
    SlowIsSlow(c, b);
    SlowKeepsJob(c, b);
    RunStays(Abstract(c), [P.TriggerTick(Taken(c).Some?), P.MacTick(b)]);
    TakenApart(SlowSide(c, b), SlowPart(c, b).taken);
    hide SlowSide;
  }

  /** What the trigger has taken has nothing to do with the writer's job. */
  lemma TakenApart(c: Clocked, taken: seq<T.Request>)
    ensures var n := c.(taken := taken);
            JobOk(n) == JobOk(c) && Ahead(n) == Ahead(c) && Abstract(n).(wr := Ahead(n)) == Abstract(n)
  {
    hide W.Serve, W.Closes, T.Size;
  }

  /** An edge, the writer's part first, then the slow side's. */
  ghost function Parts(c: Clocked, a: Action): Clocked
    requires (Fast?(a) ==> OpEnabled(c, a.op)) && (Slow?(a) ==> M.Typed(c.mac) && c.trg.r.Typed())
  {
    var d := Side(c, a);
    if Slow?(a) then (SideReads(c, a); SlowPart(d, a.beat)) else d
  }

  lemma PartsSimulate(c: Clocked, a: Action)
    requires Inv(c) && Enabled(c, a) && Edge?(a)
    ensures P.Run(Abstract(c), OpSteps(a) + SlowSteps(c, a)) == Abstract(Parts(c, a)) && Matches(Parts(c, a))
  {
    hide Handing, M.Inv, P.Inv, JobOk, P.Run, Abstract, Matches, Side, OpEnabled, M.Typed, F.FromMac, T.Accepted;
    OpSimulates(c, a);
    SideReads(c, a);
    SideCounts(c, a);
    RunConcat(Abstract(c), OpSteps(a), SlowSteps(c, a));
    RunOne(Abstract(Side(c, a)), P.Serve);
    if Slow?(a) { SlowSimulates(Side(c, a), a.beat); }
    hide SlowPart;
  }

  /** After both parts the crossings have moved on as well. */
  lemma StepIsParts(c: Clocked, a: Action)
    requires Enabled(c, a) && Edge?(a)
    ensures var n, d, y := Step(c, a), Parts(c, a), A.Step(c.y, AddressAction(c, a));
            n == d.(x := n.x, y := y, taken := d.taken) && d.y == c.y && c.wr.rdCount <= d.wr.rdCount
  {
    LinkStep(c, a);
    SideReads(c, a);
    hide A.Step, L.Step, Side, OpEnabled, M.Tick, M.Typed, F.Hear, F.FromMac, T.Tick, T.Accepted;
  }

  lemma AddressSeen(c: Clocked, x: S.Synch, y: A.Synch)
    requires Matches(c) && c.y.shown <= y.shown <= c.wr.rdCount
    ensures P.Run(Abstract(c), [P.SeeRead(y.shown)]) == Abstract(c.(x := x, y := y)) && Matches(c.(x := x, y := y))
  {
    hide P.Inv, P.Run, M.Inv;
    RunOne(Abstract(c), P.SeeRead(y.shown));
    RunStays(Abstract(c), [P.SeeRead(y.shown)]);
    M.CountsInOrder(c.mac, c.wr.rdCount, c.y.shown);
    M.ReadKeeps(c.mac, c.wr.rdCount, c.y.shown, c.wr.rdCount, y.shown);
    AheadReads(c);
    hide Ahead, W.Closes, T.Size;
  }

  lemma AheadReads(c: Clocked)
    ensures c.wr.rdCount <= Ahead(c).rdCount
  {
    hide W.Served, W.ServedTlp;
  }

  lemma EdgeSimulates(c: Clocked, a: Action)
    requires Inv(c) && Enabled(c, a) && Edge?(a)
    ensures P.Run(Abstract(c), Steps(c, a)) == Abstract(Step(c, a)) && Matches(Step(c, a))
  {
    hide M.Inv, P.Inv, JobOk, P.Run, Abstract, Handing, Matches, OpEnabled, S.Enabled, Step, Parts, A.Step, M.Typed;
    PartsSimulate(c, a);
    StepIsParts(c, a);
    AddressStep(c, a);
    var n, d := Step(c, a), Parts(c, a);
    AddressSeen(d, n.x, n.y);
    RunConcat(Abstract(c), OpSteps(a) + SlowSteps(c, a), [P.SeeRead(n.y.shown)]);
  }

  lemma PageSimulates(c: Clocked, a: Action)
    requires Inv(c) && Enabled(c, a) && a.TakePage?
    ensures P.Run(Abstract(c), Steps(c, a)) == Abstract(Step(c, a)) && Matches(Step(c, a))
  {
    hide M.Inv, P.Inv, P.Run, Handing;
    RunOne(Abstract(c), P.TakePage(a.addr));
    RunStays(Abstract(c), [P.TakePage(a.addr)]);
  }

  /** Every edge is a number of steps of RxPipeline, and keeps the two together. */
  lemma StepSimulates(c: Clocked, a: Action)
    requires Inv(c)
    ensures P.Run(Abstract(c), Steps(c, a)) == Abstract(Step(c, a)) && Inv(Step(c, a))
  {
    hide M.Inv, P.Inv, JobOk, P.Run, Abstract, Handing;
    HandingKeeps(c, a);
    if !Enabled(c, a) {
      RunOne(Abstract(c), P.Serve);
    } else if a.TakePage? {
      PageSimulates(c, a);
    } else {
      EdgeSimulates(c, a);
    }
    hide Step, Enabled, Steps;
  }

  /** Whatever the edges, and wherever they fall: the run is one of RxPipeline. */
  lemma {:induction false} RunSimulates(aux0: nat, diff0: nat, ring0: seq<Qword>, q: Payloads, acts: seq<Action>)
    requires P.ResetOk(aux0, diff0, ring0)
    ensures var c := Init(aux0, diff0, ring0, q);
            && Inv(Run(c, acts))
            && Abstract(Run(c, acts)) == P.Run(P.Init(aux0, diff0, ring0), AllSteps(c, acts))
    decreases |acts|
  {
    var c := Init(aux0, diff0, ring0, q);
    InitInv(aux0, diff0, ring0, q);
    hide Step, Inv, P.Step, Init, P.Init;
    if acts != [] {
      var before, a := acts[..|acts| - 1], acts[|acts| - 1];
      RunSimulates(aux0, diff0, ring0, q, before);
      StepSimulates(Run(c, before), a);
      RunConcat(P.Init(aux0, diff0, ring0), AllSteps(c, before), Steps(Run(c, before), a));
    }
  }

  /** So the driver finds the frames also here, on the pages that have really been returned: those of RxPipeline,
      or all but the one whose header is on its way. */
  lemma RoundTrip(aux0: nat, diff0: nat, ring0: seq<Qword>, q: Payloads, acts: seq<Action>, before: seq<Page>,
                  beyond: seq<Byte>)
    requires P.ResetOk(aux0, diff0, ring0) && |before| == |Run(Init(aux0, diff0, ring0, q), acts).wr.returned|
    ensures var c := Run(Init(aux0, diff0, ring0, q), acts); var s, n := Abstract(c), |before|;
            && c.wr.returned <= s.wr.returned
            && exists k: nat :: R.ReturnedUpTo(s, before, beyond, n, k)
                             && (s.wire.clear ==> R.ReturnedOfWire(s, before, beyond, n, k))
  {
    hide Run, Init, P.Run, P.Init, R.ReturnedUpTo, R.ReturnedOfWire, Inv, Abstract;
    RunSimulates(aux0, diff0, ring0, q, acts);
    ReturnedAhead(Run(Init(aux0, diff0, ring0, q), acts));
    R.RoundTrip(aux0, diff0, ring0, AllSteps(Init(aux0, diff0, ring0, q), acts), before, beyond, |before|);
  }

  lemma ReturnedAhead(c: Clocked)
    ensures c.wr.returned <= Abstract(c).wr.returned
  {
    hide W.Served, W.ServedTlp;
  }

  // ----- how many words a job takes ----------------------------------------------------------

  /** How many of the actions take a qword from the ring. */
  ghost function Words(c: Clocked, acts: seq<Action>): nat {
    if acts == [] then 0
    else
      var before, a := acts[..|acts| - 1], acts[|acts| - 1];
      Words(c, before) + if Enabled(Run(c, before), a) && Does(a, Word) then 1 else 0
  }

  lemma WordTaken(c: Clocked, a: Action)
    requires c.job.Busy? && !Does(a, End)
    ensures var n := Step(c, a);
            && n.wr == c.wr && n.job.Busy? && n.job.q == c.job.q
            && |n.job.got| == |c.job.got| + if Enabled(c, a) && Does(a, Word) then 1 else 0
  {
    hide M.Tick, F.Hear, T.Tick, L.Step, A.Step, F.FromMac, L.Enabled, Wanted;
  }

  /** From the clock in which a job has begun, up to its end: it ends after as many words as its TLP has, not
      before and not later. */
  lemma {:induction false} EndsAfterItsWords(c: Clocked, acts: seq<Action>)
    requires c.job.Busy? && c.job.got == [] && forall a :: a in acts ==> !Does(a, End)
    ensures var n := Run(c, acts);
            && n.wr == c.wr && n.job.Busy? && n.job.q == c.job.q && |n.job.got| == Words(c, acts)
            && (OpEnabled(n, End) <==> !n.job.first && Words(c, acts) == Wanted(c.wr.r, c.job.q))
            && (OpEnabled(n, Word) ==> Words(c, acts) < Wanted(c.wr.r, c.job.q))
    decreases |acts|
  {
    if acts != [] {
      var before, a := acts[..|acts| - 1], acts[|acts| - 1];
      EndsAfterItsWords(c, before);
      WordTaken(Run(c, before), a);
      hide Step, Enabled, Wanted;
    }
  }
}
