/** The TLP trigger: cuts the committed part of the ring into 16-qword requests, keeps the qwords
    left over, and closes a huge page when the next batch might not fit or after a timeout. */
module RxTlpTrigger {
  import opened LbufApi
  import opened Ring

  const TLP_QWORDS: nat := 16
  const TIMEOUT: nat := 0xA000

  /** trigger_fsm */
  datatype Fsm = S0 | S1 | S2 | S3 | S4 | S5 | S6 | S7 | S8 | S9 | S10

  datatype Timer = Timer(freeRunning: nat, timeout: bool)

  /** The qwords on the current page: so far, after the TLP at hand, and after the next batch. */
  datatype PageCount = PageCount(counter: nat, aux: nat, ahead: nat)

  /** The TLPs of the current batch: sent, sent after the one at hand, and to send. */
  datatype TlpCount = TlpCount(sent: nat, ahead: nat, toSend: nat)

  /** The three request outputs, of which at most one is raised. */
  datatype Offer = Nothing | TriggerTlp | ChangePage | LastTlp

  datatype Regs = Regs(fsm: Fsm, timer: Timer, diff: nat, diffReg: nat, rd: nat, aheadRd: nat, dirty: bool,
                       page: PageCount, remaining: nat, tlps: TlpCount, qwords: nat, offer: Offer) {
    ghost predicate Typed() {
      && timer.freeRunning < 0x1_0000 && diff < RING && diffReg < RING && rd < RING && aheadRd < RING
      && page.counter < 0x8_0000 && page.aux < 0x8_0000 && page.ahead < 0x8_0000
      && remaining < 16 && tlps.sent < 32 && tlps.ahead < 32 && tlps.toSend < 32 && qwords < 32
    }
  }

  /** What the trigger hands over: a full TLP, the last short TLP of a page, or just the page's end. */
  datatype Request = Data | Last(qwords: nat) | Change

  datatype Option<T> = None | Some(value: T)

  /** The state machine's own registers after one clock. */
  function Advance(r: Regs, triggerAck: bool, changeAck: bool): Regs
    requires r.Typed()
  {
    match r.fsm
    case S0 =>
      r.(page := r.page.(ahead := (r.page.counter + r.diff) % 0x8_0000), diffReg := r.diff,
         tlps := r.tlps.(toSend := r.diff / 16),
         fsm := if r.diff >= TLP_QWORDS then S1 else if r.dirty && r.timer.timeout then S9
                else if r.diff > 0 && r.timer.timeout then S10 else S0)
    case S1 =>
      var n := r.(dirty := true, tlps := r.tlps.(sent := 0));
      if r.page.ahead < PAGE_QWORDS then
        n.(qwords := TLP_QWORDS, offer := TriggerTlp, remaining := r.diffReg % 16, fsm := S2)
      else if r.remaining == 0 then n.(offer := ChangePage, fsm := S5)
      else n.(qwords := r.remaining, offer := LastTlp, fsm := S6)
    case S2 =>
      var n := r.(aheadRd := Add(r.rd, r.qwords, RING), tlps := r.tlps.(ahead := (r.tlps.sent + 1) % 32),
                  page := r.page.(aux := (r.page.counter + r.qwords) % 0x8_0000));
      if triggerAck then n.(offer := Nothing, fsm := S3) else n
    case S3 =>
      r.(rd := r.aheadRd, tlps := r.tlps.(sent := r.tlps.ahead), page := r.page.(counter := r.page.aux), fsm := S4)
    case S4 => if r.tlps.sent < r.tlps.toSend then r.(offer := TriggerTlp, fsm := S2) else r.(fsm := S0)
    case S5 =>
      var n := r.(dirty := false, page := r.page.(counter := RESERVED_QWORDS));
      if changeAck then n.(offer := Nothing, fsm := S0) else n
    case S6 =>
      var n := r.(aheadRd := Add(r.rd, r.qwords, RING));
      if changeAck then n.(offer := Nothing, fsm := S7) else n
    case S7 =>
      r.(rd := r.aheadRd, page := r.page.(counter := RESERVED_QWORDS), remaining := 0, dirty := false, fsm := S8)
    case S8 => r.(fsm := S0)
    case S9 =>
      if r.remaining == 0 then r.(offer := ChangePage, fsm := S5)
      else r.(qwords := r.remaining, offer := LastTlp, fsm := S6)
    case S10 => r.(qwords := r.diffReg % 32, offer := LastTlp, fsm := S6)
  }

  /** All registers: the difference and the timeout counter run in every state. */
  function NextRegs(r: Regs, wrCommit: nat, triggerAck: bool, changeAck: bool): Regs
    requires r.Typed() && wrCommit < RING
  {
    Advance(r, triggerAck, changeAck).(
      diff := Sub(wrCommit, r.rd, RING),
      timer := if r.fsm == S0 then Timer((r.timer.freeRunning + 1) % 0x1_0000, r.timer.freeRunning == TIMEOUT)
               else Timer(0, false))
  }

  /** The request accepted by an acknowledging clock. */
  function Accepted(r: Regs, triggerAck: bool, changeAck: bool): Option<Request> {
    if r.fsm == S2 && triggerAck then Some(Data)
    else if r.fsm == S6 && changeAck then Some(Last(r.qwords))
    else if r.fsm == S5 && changeAck then Some(Change)
    else None
  }

  /** Each state looks at no more than one acknowledgement. */
  lemma OnlyItsOwnAck(r: Regs, triggerAck: bool, changeAck: bool)
    requires r.Typed()
    ensures r.fsm in {S0, S1} ==> Advance(r, triggerAck, changeAck) == Advance(r, false, false)
    ensures r.fsm in {S2, S3, S4} ==> Advance(r, triggerAck, changeAck) == Advance(r, triggerAck, false)
    ensures r.fsm !in {S0, S1, S2, S3, S4} ==> Advance(r, triggerAck, changeAck) == Advance(r, false, changeAck)
  {
  }

  /** The trigger as the hardware has it. */
  class TlpTrigger {
    var fsm: Fsm
    var timer: Timer
    var diff: nat
    var diffReg: nat
    var rd: nat
    var aheadRd: nat
    var dirty: bool
    var page: PageCount
    var remaining: nat
    var tlps: TlpCount
    var qwords: nat
    var offer: Offer

    ghost function State(): Regs
      reads this
    {
      Regs(fsm, timer, diff, diffReg, rd, aheadRd, dirty, page, remaining, tlps, qwords, offer)
    }

    constructor ()
      ensures State().Typed() && State() == Reset()
    {
      fsm, timer, diff, diffReg, rd, aheadRd, dirty := S0, Timer(0, false), 0, 0, 0, 0, false;
      page, remaining, tlps, qwords, offer := PageCount(RESERVED_QWORDS, 0, 0), 0, TlpCount(0, 0, 0), 0, Nothing;
    }

    method Tick(wrCommit: nat, triggerAck: bool, changeAck: bool)
      requires State().Typed() && wrCommit < RING
      modifies this
      ensures State() == NextRegs(old(State()), wrCommit, triggerAck, changeAck)
    {
      OnlyItsOwnAck(State(), triggerAck, changeAck);
      hide Advance;
      var difference := Sub(wrCommit, rd, RING);
      var ticked := if fsm == S0 then Timer((timer.freeRunning + 1) % 0x1_0000, timer.freeRunning == TIMEOUT)
                    else Timer(0, false);
      match fsm {
        case S0 => Plan();
        case S1 => Plan();
        case S2 => Send(triggerAck);
        case S3 => Send(triggerAck);
        case S4 => Send(triggerAck);
        case _ => Close(changeAck);
      }
      diff, timer := difference, ticked;
    }

    /** States s0 and s1: wait for a batch or a timeout, then decide whether it fits the page. */
    method Plan()
      requires State().Typed() && (fsm == S0 || fsm == S1)
      modifies this
      ensures State() == Advance(old(State()), false, false)
    {
      if fsm == S0 {
        page := page.(ahead := (page.counter + diff) % 0x8_0000);
        diffReg, tlps := diff, tlps.(toSend := diff / 16);
        if diff >= TLP_QWORDS {
          fsm := S1;
        } else if dirty && timer.timeout {
          fsm := S9;
        } else if diff > 0 && timer.timeout {
          fsm := S10;
        }
      } else {
        dirty, tlps := true, tlps.(sent := 0);
        if page.ahead < PAGE_QWORDS {
          qwords, offer, remaining, fsm := TLP_QWORDS, TriggerTlp, diffReg % 16, S2;
        } else if remaining == 0 {
          offer, fsm := ChangePage, S5;
        } else {
          qwords, offer, fsm := remaining, LastTlp, S6;
        }
      }
    }

    /** States s2 to s4: hand over the TLPs of a batch one by one. */
    method Send(triggerAck: bool)
      requires State().Typed() && (fsm == S2 || fsm == S3 || fsm == S4)
      modifies this
      ensures State() == Advance(old(State()), triggerAck, false)
    {
      match fsm {
        case S2 =>
          aheadRd, tlps := Add(rd, qwords, RING), tlps.(ahead := (tlps.sent + 1) % 32);
          page := page.(aux := (page.counter + qwords) % 0x8_0000);
          if triggerAck { offer, fsm := Nothing, S3; }
        case S3 =>
          rd, tlps, page, fsm := aheadRd, tlps.(sent := tlps.ahead), page.(counter := page.aux), S4;
        case S4 =>
          if tlps.sent < tlps.toSend { offer, fsm := TriggerTlp, S2; } else { fsm := S0; }
      }
    }

    /** States s5 to s10: close the page, with a last short TLP if qwords are left over. */
    method Close(changeAck: bool)
      requires State().Typed() && !(fsm == S0 || fsm == S1 || fsm == S2 || fsm == S3 || fsm == S4)
      modifies this
      ensures State() == Advance(old(State()), false, changeAck)
    {
      match fsm {
        case S5 =>
          dirty, page := false, page.(counter := RESERVED_QWORDS);
          if changeAck { offer, fsm := Nothing, S0; }
        case S6 =>
          aheadRd := Add(rd, qwords, RING);
          if changeAck { offer, fsm := Nothing, S7; }
        case S7 =>
          rd, page, remaining, dirty, fsm := aheadRd, page.(counter := RESERVED_QWORDS), 0, false, S8;
        case S8 =>
          fsm := S0;
        case S9 =>
          if remaining == 0 {
            offer, fsm := ChangePage, S5;
          } else {
            qwords, offer, fsm := remaining, LastTlp, S6;
          }
        case S10 =>
          qwords, offer, fsm := diffReg % 32, LastTlp, S6;
      }
    }
  }

  // ----- where requests begin and end --------------------------------------------------------

  /** The trigger with the unbounded counts behind its pointers: `pos` behind `rd`, `snap` and `regSnap`
      behind the committed pointer that gave `diff` and `diffReg`; `issued` counts the qwords handed
      over, `start` those before the current page, and `seen` collects the committed counts sampled. */
  datatype Trigger = Trigger(r: Regs, pos: nat, snap: nat, regSnap: nat, issued: nat, start: nat, seen: set<nat>)

  function Reset(): Regs {
    Regs(S0, Timer(0, false), 0, 0, 0, 0, false, PageCount(RESERVED_QWORDS, 0, 0), 0, TlpCount(0, 0, 0), 0, Nothing)
  }

  function Init(): Trigger { Trigger(Reset(), 0, 0, 0, 0, 0, {0}) }

  function Size(q: Request): nat {
    match q
    case Data => TLP_QWORDS
    case Last(n) => n
    case Change => 0
  }

  function Tick(t: Trigger, wrCount: nat, triggerAck: bool, changeAck: bool): Trigger
    requires t.r.Typed()
  {
    var n := t.(r := NextRegs(t.r, wrCount % RING, triggerAck, changeAck),
                snap := wrCount, regSnap := if t.r.fsm == S0 then t.snap else t.regSnap,
                pos := if t.r.fsm == S3 || t.r.fsm == S7 then t.issued else t.pos,
                seen := t.seen + {wrCount});
    match Accepted(t.r, triggerAck, changeAck)
    case None => n
    case Some(q) =>
      n.(issued := t.issued + Size(q), start := if q == Data then t.start else t.issued + Size(q))
  }

  /** A request that is handed over when `pos` qwords have been and `start` of them lie on earlier
      pages.  Every close is at a sampled committed count, so at a packet boundary; a page gets at
      least one qword and stays below 2^18 with its reserved ones; only a closing TLP is short. */
  ghost predicate GoodRequest(q: Request, pos: nat, start: nat, seen: set<nat>) {
    && start <= pos
    && (pos - start) % 16 == 0
    && RESERVED_QWORDS + (pos - start) + Size(q) < PAGE_QWORDS
    && match q
       case Data => exists x :: x in seen && pos + TLP_QWORDS <= x
       case Last(n) => 1 <= n < TLP_QWORDS && pos + n in seen
       case Change => start < pos && pos in seen
  }

  /** A batch in progress: what is left of it ends at a sampled count and still fits the page. */
  ghost predicate Batch(t: Trigger, left: nat) {
    && t.pos + left + t.r.remaining in t.seen
    && t.r.page.counter == RESERVED_QWORDS + t.pos - t.start
    && t.r.page.counter + left + t.r.remaining < PAGE_QWORDS
    && (t.pos - t.start) % 16 == 0
  }

  ghost predicate StateInv(t: Trigger) {
    var page := t.pos - t.start;
    match t.r.fsm
    case S0 =>
      && t.issued == t.pos && Batch(t, 0) && (t.r.dirty <==> t.start < t.pos)
      && t.snap in t.seen && t.r.diff + t.pos == t.snap
    case S1 =>
      && t.issued == t.pos && Batch(t, 0)
      && t.regSnap in t.seen && t.r.diffReg + t.pos == t.regSnap && t.r.diffReg >= 16
      && t.r.page.ahead == t.r.page.counter + t.r.diffReg && t.r.tlps.toSend == t.r.diffReg / 16
    case S2 =>
      && t.issued == t.pos && t.r.qwords == 16 && t.r.dirty
      && t.r.tlps.sent < t.r.tlps.toSend && Batch(t, 16 * (t.r.tlps.toSend - t.r.tlps.sent))
    case S3 =>
      && t.issued == t.pos + 16 && t.r.dirty && t.r.aheadRd == (t.pos + 16) % RING
      && t.r.tlps.ahead == t.r.tlps.sent + 1 && t.r.page.aux == t.r.page.counter + 16
      && t.r.tlps.sent < t.r.tlps.toSend && Batch(t, 16 * (t.r.tlps.toSend - t.r.tlps.sent)) && t.r.qwords == 16
    case S4 =>
      && t.issued == t.pos && t.r.dirty && t.start < t.pos && t.r.qwords == 16
      && t.r.tlps.sent <= t.r.tlps.toSend && Batch(t, 16 * (t.r.tlps.toSend - t.r.tlps.sent))
    case S5 =>
      && t.issued == t.pos && t.pos in t.seen && t.start < t.pos && t.r.remaining == 0
      && RESERVED_QWORDS + page < PAGE_QWORDS && page % 16 == 0
    case S6 =>
      && t.issued == t.pos && 1 <= t.r.qwords < 16 && t.pos + t.r.qwords in t.seen
      && RESERVED_QWORDS + page + t.r.qwords < PAGE_QWORDS && page % 16 == 0
    case S7 =>
      t.issued == t.start == t.pos + t.r.qwords && t.r.aheadRd == t.issued % RING && t.issued in t.seen
    case S8 =>
      && t.issued == t.start == t.pos && t.pos in t.seen
      && t.r.remaining == 0 && !t.r.dirty && t.r.page.counter == RESERVED_QWORDS
    case S9 =>
      t.issued == t.pos && Batch(t, 0) && t.start < t.pos
    case S10 =>
      && t.issued == t.pos == t.start && 1 <= t.r.diffReg < 16
      && t.regSnap in t.seen && t.r.diffReg + t.pos == t.regSnap
  }

  ghost predicate Inv(t: Trigger, wrCount: nat) {
    && t.r.Typed()
    && t.r.rd == t.pos % RING
    && (t.r.fsm != S7 ==> t.start <= t.pos)
    && (forall x :: x in t.seen ==> x <= wrCount)
    && StateInv(t)
  }

  /** The committed count is less than a ring ahead of the trigger. */
  predicate Legal(t: Trigger, wrCount: nat) { t.pos <= wrCount < t.pos + RING }

  lemma DiffIsDistance(t: Trigger, wrCount: nat)
    requires t.r.Typed() && Legal(t, wrCount) && t.r.rd == t.pos % RING
    ensures Sub(wrCount % RING, t.r.rd, RING) + t.pos == wrCount
  {
    SubIsDistance(wrCount, t.pos, RING);
  }

  ghost predicate StepOk(t: Trigger, wrCount: nat, triggerAck: bool, changeAck: bool)
    requires t.r.Typed()
  {
    var q := Accepted(t.r, triggerAck, changeAck);
    && StateInv(Tick(t, wrCount, triggerAck, changeAck))
    && (q.Some? ==> GoodRequest(q.value, t.issued, t.start, t.seen))
  }

  lemma WaitKeeps(t: Trigger, wrCount: nat, triggerAck: bool, changeAck: bool)
    requires Inv(t, wrCount) && Legal(t, wrCount) && t.r.fsm in {S0}
    ensures StepOk(t, wrCount, triggerAck, changeAck)
  {
    DiffIsDistance(t, wrCount);
    hide Sub, Add;
  }

  lemma ReturnKeeps(t: Trigger, wrCount: nat, triggerAck: bool, changeAck: bool)
    requires Inv(t, wrCount) && Legal(t, wrCount) && t.r.fsm in {S4, S8}
    ensures StepOk(t, wrCount, triggerAck, changeAck)
  {
    DiffIsDistance(t, wrCount);
    hide Sub, Add;
  }

  lemma PlanKeeps(t: Trigger, wrCount: nat, triggerAck: bool, changeAck: bool)
    requires Inv(t, wrCount) && Legal(t, wrCount) && t.r.fsm in {S1}
    ensures StepOk(t, wrCount, triggerAck, changeAck)
  {
    hide Sub, Add;
    if t.r.page.ahead < PAGE_QWORDS {
      assert 16 * t.r.tlps.toSend + t.r.diffReg % 16 + t.pos == t.regSnap;
    }
  }

  lemma OfferKeeps(t: Trigger, wrCount: nat, triggerAck: bool, changeAck: bool)
    requires Inv(t, wrCount) && Legal(t, wrCount) && t.r.fsm in {S2}
    ensures StepOk(t, wrCount, triggerAck, changeAck)
  {
    AddIsShift(t.pos, 16, RING);
    hide Sub, Add;
  }

  lemma SentKeeps(t: Trigger, wrCount: nat, triggerAck: bool, changeAck: bool)
    requires Inv(t, wrCount) && Legal(t, wrCount) && t.r.fsm in {S3}
    ensures StepOk(t, wrCount, triggerAck, changeAck)
  {
    hide Sub, Add;
  }

  lemma ChangeKeeps(t: Trigger, wrCount: nat, triggerAck: bool, changeAck: bool)
    requires Inv(t, wrCount) && Legal(t, wrCount) && t.r.fsm in {S5}
    ensures StepOk(t, wrCount, triggerAck, changeAck)
  {
    DiffIsDistance(t, wrCount);
    hide Sub, Add;
  }

  lemma LastKeeps(t: Trigger, wrCount: nat, triggerAck: bool, changeAck: bool)
    requires Inv(t, wrCount) && Legal(t, wrCount) && t.r.fsm in {S6, S7}
    ensures StepOk(t, wrCount, triggerAck, changeAck)
  {
    if t.r.fsm == S6 {
      AddIsShift(t.pos, t.r.qwords, RING);
    }
    hide Sub, Add;
  }

  lemma DirtyTimeoutKeeps(t: Trigger, wrCount: nat, triggerAck: bool, changeAck: bool)
    requires Inv(t, wrCount) && Legal(t, wrCount) && t.r.fsm in {S9}
    ensures StepOk(t, wrCount, triggerAck, changeAck)
  {
    hide Sub, Add;
  }

  lemma SmallTimeoutKeeps(t: Trigger, wrCount: nat, triggerAck: bool, changeAck: bool)
    requires Inv(t, wrCount) && Legal(t, wrCount) && t.r.fsm in {S10}
    ensures StepOk(t, wrCount, triggerAck, changeAck)
  {
    hide Sub, Add;
  }

  /** Every clock keeps the invariant, and what it hands over is a good request. */
  lemma TickKeeps(t: Trigger, wrCount: nat, triggerAck: bool, changeAck: bool)
    requires Inv(t, wrCount) && Legal(t, wrCount)
    ensures var n := Tick(t, wrCount, triggerAck, changeAck);
            Inv(n, wrCount) && t.seen <= n.seen
    ensures var q := Accepted(t.r, triggerAck, changeAck);
            q.Some? ==> GoodRequest(q.value, t.issued, t.start, t.seen)
  {
    match t.r.fsm {
      case S1 => PlanKeeps(t, wrCount, triggerAck, changeAck);
      case S2 => OfferKeeps(t, wrCount, triggerAck, changeAck);
      case S3 => SentKeeps(t, wrCount, triggerAck, changeAck);
      case S5 => ChangeKeeps(t, wrCount, triggerAck, changeAck);
      case S6 => LastKeeps(t, wrCount, triggerAck, changeAck);
      case S7 => LastKeeps(t, wrCount, triggerAck, changeAck);
      case S9 => DirtyTimeoutKeeps(t, wrCount, triggerAck, changeAck);
      case S10 => SmallTimeoutKeeps(t, wrCount, triggerAck, changeAck);
      case S0 => WaitKeeps(t, wrCount, triggerAck, changeAck);
      case _ => ReturnKeeps(t, wrCount, triggerAck, changeAck);
    }
    TickFrame(t, wrCount, triggerAck, changeAck);
    hide StateInv, GoodRequest, Accepted, Advance;
  }

  lemma TickFrame(t: Trigger, wrCount: nat, triggerAck: bool, changeAck: bool)
    requires Inv(t, wrCount) && Legal(t, wrCount)
    ensures var n := Tick(t, wrCount, triggerAck, changeAck);
            && n.r.Typed() && n.r.rd == n.pos % RING && (n.r.fsm != S7 ==> n.start <= n.pos)
            && (forall x :: x in n.seen ==> x <= wrCount)
  {
    hide Sub, Add, Batch;
  }
}
