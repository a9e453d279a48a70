/** The trigger gets on: whatever is committed is on a closed page after a bounded number of clocks, not counting
    those in which it waits for an acknowledgement. */
module RxTriggerProgress {
  import opened LbufApi
  import opened Ring
  import opened RxTlpTrigger

  /** Clocks for one more TLP, the longest wait for a timeout after it included. */
  const PER_TLP: nat := TIMEOUT + 6

  /** The TLPs of a page, and the clocks that a fresh page takes at most. */
  const PAGE_TLPS: nat := (PAGE_QWORDS - RESERVED_QWORDS) / 16
  const PER_PAGE: nat := PAGE_TLPS * PER_TLP + TIMEOUT + 5

  /** Clocks in state s0 until the timeout shows; the free-running counter may have passed it. */
  function UntilTimeout(r: Timer): nat {
    if r.timeout then 0 else if r.freeRunning <= TIMEOUT then TIMEOUT - r.freeRunning + 1
    else if r.freeRunning < 0x1_0000 then 0x1_0000 + TIMEOUT - r.freeRunning + 1 else 0
  }

  /** Full TLPs that still go on the page. */
  function Room(t: Trigger): nat {
    if t.start <= t.pos <= t.start + 16 * PAGE_TLPS then PAGE_TLPS - (t.pos - t.start) / 16 else 0
  }

  /** Clocks until the page is closed, at most. */
  function ToClose(t: Trigger): int {
    match t.r.fsm
    case S0 => Room(t) * PER_TLP + UntilTimeout(t.r.timer) + 1
    case S1 => Room(t) * PER_TLP
    case S2 => Room(t) * PER_TLP - 1
    case S3 => Room(t) * PER_TLP - 2
    case S4 => Room(t) * PER_TLP + TIMEOUT + 3
    case S5 => 1
    case S6 => 1
    case S7 => PER_PAGE
    case S8 => PER_PAGE - 1
    case S9 => 2
    case S10 => 2
  }

  /** The page ends at `c` or later: what it has been given so far, and what it will be given in any case. */
  predicate Reaches(t: Trigger, c: nat) {
    match t.r.fsm
    case S0 => t.snap >= c && (t.start < t.pos ==> t.pos + t.r.remaining >= c)
    case S1 => t.regSnap >= c && (t.start < t.pos ==> t.pos + t.r.remaining >= c)
    case S2 => t.pos + 16 * (t.r.tlps.toSend - t.r.tlps.sent) + t.r.remaining >= c
    case S3 => t.pos + 16 * (t.r.tlps.toSend - t.r.tlps.sent) + t.r.remaining >= c
    case S4 => t.pos + 16 * (t.r.tlps.toSend - t.r.tlps.sent) + t.r.remaining >= c
    case S5 => t.pos >= c
    case S6 => t.pos + t.r.qwords >= c
    case S9 => t.pos + t.r.remaining >= c
    case S10 => t.regSnap >= c
    case _ => true
  }

  /** Clocks until the first `c` qwords are on closed pages: this page, and if it may end before, the next. */
  function Clocks(t: Trigger, c: nat): int { ToClose(t) + if Reaches(t, c) then 0 else PER_PAGE }

  /** The trigger offers a request and does not get its acknowledgement. */
  predicate Waits(r: Regs, triggerAck: bool, changeAck: bool) {
    (r.fsm == S2 && !triggerAck) || (r.fsm in {S5, S6} && !changeAck)
  }

  /** The first `c` qwords are committed, and the trigger has sampled that. */
  ghost predicate Due(t: Trigger, wrCount: nat, c: nat) {
    Inv(t, wrCount) && Legal(t, wrCount) && c <= wrCount && c <= t.snap
  }

  lemma RoomFor(t: Trigger, wrCount: nat)
    requires Inv(t, wrCount) && t.r.fsm in {S0, S1, S2, S3, S9}
    ensures t.start <= t.pos && t.pos - t.start == 16 * (PAGE_TLPS - Room(t)) && 1 <= Room(t) <= PAGE_TLPS
  {
    hide Sub;
  }

  /** What a clock does for the first `c` qwords: it waits for an acknowledgement, or brings them nearer. */
  ghost predicate GetsOn(t: Trigger, wrCount: nat, c: nat, triggerAck: bool, changeAck: bool)
    requires t.r.Typed()
  {
    var n := Tick(t, wrCount, triggerAck, changeAck);
    && t.start <= n.start
    && if Waits(t.r, triggerAck, changeAck) then Clocks(n, c) <= Clocks(t, c)
       else n.start >= c || Clocks(n, c) < Clocks(t, c)
  }

  lemma WaitReaches(t: Trigger, wrCount: nat, c: nat, triggerAck: bool, changeAck: bool)
    requires Due(t, wrCount, c) && t.r.fsm == S0
    ensures Reaches(t, c) ==> Reaches(Tick(t, wrCount, triggerAck, changeAck), c)
  {
    hide Sub, Add;
  }

  lemma WaitSooner(t: Trigger, wrCount: nat, c: nat, triggerAck: bool, changeAck: bool)
    requires Due(t, wrCount, c) && t.r.fsm == S0 && t.start < c
    ensures var n := Tick(t, wrCount, triggerAck, changeAck);
            ToClose(n) < ToClose(t) && n.start == t.start
  {
    RoomFor(t, wrCount);
    hide Sub, Add, Batch;
  }

  lemma WaitOn(t: Trigger, wrCount: nat, c: nat, triggerAck: bool, changeAck: bool)
    requires Due(t, wrCount, c) && t.r.fsm == S0 && t.start < c
    ensures GetsOn(t, wrCount, c, triggerAck, changeAck)
  {
    WaitReaches(t, wrCount, c, triggerAck, changeAck);
    WaitSooner(t, wrCount, c, triggerAck, changeAck);
    hide Inv, Tick, ToClose, Reaches, Legal;
  }

  lemma PlanReaches(t: Trigger, wrCount: nat, c: nat, triggerAck: bool, changeAck: bool)
    requires Due(t, wrCount, c) && t.r.fsm == S1
    ensures Reaches(t, c) ==> Reaches(Tick(t, wrCount, triggerAck, changeAck), c)
  {
    hide Sub, Add;
  }

  lemma PlanSooner(t: Trigger, wrCount: nat, c: nat, triggerAck: bool, changeAck: bool)
    requires Due(t, wrCount, c) && t.r.fsm == S1 && t.start < c
    ensures var n := Tick(t, wrCount, triggerAck, changeAck);
            ToClose(n) < ToClose(t) && n.start == t.start
  {
    RoomFor(t, wrCount);
    hide Sub, Add;
  }

  lemma PlanOn(t: Trigger, wrCount: nat, c: nat, triggerAck: bool, changeAck: bool)
    requires Due(t, wrCount, c) && t.r.fsm == S1 && t.start < c
    ensures GetsOn(t, wrCount, c, triggerAck, changeAck)
  {
    PlanReaches(t, wrCount, c, triggerAck, changeAck);
    PlanSooner(t, wrCount, c, triggerAck, changeAck);
    hide Inv, Tick, ToClose, Reaches, Legal;
  }

  lemma OfferOn(t: Trigger, wrCount: nat, c: nat, triggerAck: bool, changeAck: bool)
    requires Due(t, wrCount, c) && t.r.fsm == S2 && t.start < c
    ensures GetsOn(t, wrCount, c, triggerAck, changeAck)
  {
    RoomFor(t, wrCount);
    hide Sub, Add;
  }

  lemma SentReaches(t: Trigger, wrCount: nat, c: nat, triggerAck: bool, changeAck: bool)
    requires Due(t, wrCount, c) && t.r.fsm == S3
    ensures Reaches(t, c) ==> Reaches(Tick(t, wrCount, triggerAck, changeAck), c)
  {
    hide Sub, Add;
  }

  lemma SentSooner(t: Trigger, wrCount: nat, c: nat, triggerAck: bool, changeAck: bool)
    requires Due(t, wrCount, c) && t.r.fsm == S3 && t.start < c
    ensures var n := Tick(t, wrCount, triggerAck, changeAck);
            ToClose(n) < ToClose(t) && n.start == t.start
  {
    RoomFor(t, wrCount);
    hide Sub, Add;
  }

  lemma SentOn(t: Trigger, wrCount: nat, c: nat, triggerAck: bool, changeAck: bool)
    requires Due(t, wrCount, c) && t.r.fsm == S3 && t.start < c
    ensures GetsOn(t, wrCount, c, triggerAck, changeAck)
  {
    SentReaches(t, wrCount, c, triggerAck, changeAck);
    SentSooner(t, wrCount, c, triggerAck, changeAck);
    hide Inv, Tick, ToClose, Reaches, Legal;
  }

  lemma NextOn(t: Trigger, wrCount: nat, c: nat, triggerAck: bool, changeAck: bool)
    requires Due(t, wrCount, c) && t.r.fsm == S4 && t.start < c
    ensures GetsOn(t, wrCount, c, triggerAck, changeAck)
  {
    hide Sub, Add;
  }

  lemma CloseOn(t: Trigger, wrCount: nat, c: nat, triggerAck: bool, changeAck: bool)
    requires Due(t, wrCount, c) && t.r.fsm in {S5, S6} && t.start < c
    ensures GetsOn(t, wrCount, c, triggerAck, changeAck)
  {
    hide Sub, Add;
  }

  lemma FreshOn(t: Trigger, wrCount: nat, c: nat, triggerAck: bool, changeAck: bool)
    requires Due(t, wrCount, c) && t.r.fsm in {S7, S8} && t.start < c
    ensures GetsOn(t, wrCount, c, triggerAck, changeAck)
  {
    hide Sub, Add;
  }

  lemma EndOn(t: Trigger, wrCount: nat, c: nat, triggerAck: bool, changeAck: bool)
    requires Due(t, wrCount, c) && t.r.fsm in {S9, S10} && t.start < c
    ensures GetsOn(t, wrCount, c, triggerAck, changeAck)
  {
    hide Sub, Add;
  }

  /** Every clock gets on, and the qwords stay due. */
  lemma StepOn(t: Trigger, wrCount: nat, c: nat, triggerAck: bool, changeAck: bool)
    requires Due(t, wrCount, c) && t.start < c
    ensures GetsOn(t, wrCount, c, triggerAck, changeAck)
  {
    match t.r.fsm {
      case S0 => WaitOn(t, wrCount, c, triggerAck, changeAck);
      case S1 => PlanOn(t, wrCount, c, triggerAck, changeAck);
      case S2 => OfferOn(t, wrCount, c, triggerAck, changeAck);
      case S3 => SentOn(t, wrCount, c, triggerAck, changeAck);
      case S4 => NextOn(t, wrCount, c, triggerAck, changeAck);
      case S9 => EndOn(t, wrCount, c, triggerAck, changeAck);
      case S10 => EndOn(t, wrCount, c, triggerAck, changeAck);
      case S7 => FreshOn(t, wrCount, c, triggerAck, changeAck);
      case S8 => FreshOn(t, wrCount, c, triggerAck, changeAck);
      case _ => CloseOn(t, wrCount, c, triggerAck, changeAck);
    }
  }

  // ----- runs --------------------------------------------------------------------------------

  /** What the trigger sees in a clock. */
  datatype Input = Input(wrCount: nat, triggerAck: bool, changeAck: bool)

  ghost function Next(t: Trigger, i: Input): Trigger {
    if t.r.Typed() then Tick(t, i.wrCount, i.triggerAck, i.changeAck) else t
  }

  ghost function After(t: Trigger, ins: seq<Input>): Trigger
    decreases |ins|
  {
    if ins == [] then t else After(Next(t, ins[0]), ins[1..])
  }

  /** The committed count grows, and stays less than a ring ahead, as it does in every run by RxProgress.SeenFollows. */
  ghost predicate Follows(t: Trigger, wrCount: nat, ins: seq<Input>)
    decreases |ins|
  {
    ins == [] ||
    (wrCount <= ins[0].wrCount && Legal(t, ins[0].wrCount) && Follows(Next(t, ins[0]), ins[0].wrCount, ins[1..]))
  }

  /** The clocks in which the trigger does not wait for an acknowledgement. */
  ghost function Working(t: Trigger, ins: seq<Input>): nat
    decreases |ins|
  {
    if ins == [] then 0
    else (if Waits(t.r, ins[0].triggerAck, ins[0].changeAck) then 0 else 1) + Working(Next(t, ins[0]), ins[1..])
  }

  lemma NextDue(t: Trigger, wrCount: nat, i: Input, c: nat)
    requires Inv(t, wrCount) && c <= wrCount <= i.wrCount && c <= t.snap && Legal(t, i.wrCount)
    ensures Due(t, i.wrCount, c) && Inv(Next(t, i), i.wrCount) && c <= Next(t, i).snap
  {
    hide StateInv, Legal, NextRegs, GoodRequest;
    TickKeeps(t, i.wrCount, i.triggerAck, i.changeAck);
  }

  lemma StartGrows(t: Trigger, wrCount: nat, i: Input)
    requires Inv(t, wrCount) && Legal(t, wrCount) && i.wrCount == wrCount
    ensures t.start <= Next(t, i).start
  {
    hide Sub, Add;
  }

  /** Once the trigger has worked for as many clocks, the first `c` qwords are on closed pages, whatever the
      acknowledgements and whatever else is committed. */
  lemma {:induction false} ClosedInTime(t: Trigger, wrCount: nat, ins: seq<Input>, c: nat)
    requires Inv(t, wrCount) && c <= wrCount && c <= t.snap && Follows(t, wrCount, ins)
    requires t.start >= c || Working(t, ins) >= Clocks(t, c)
    ensures After(t, ins).start >= c
    decreases |ins|
  {
    assert t.r.Typed();
    hide Inv, Legal, Tick, Clocks, Waits;
    if ins == [] {
      if t.start < c { ClocksLeft(t, wrCount, c); }
    } else {
      NextDue(t, wrCount, ins[0], c);
      var n := Next(t, ins[0]);
      if t.start < c {
        StepOn(t, ins[0].wrCount, c, ins[0].triggerAck, ins[0].changeAck);
      } else {
        StartGrows(t, ins[0].wrCount, ins[0]);
      }
      ClosedInTime(n, ins[0].wrCount, ins[1..], c);
    }
  }

  lemma ClocksLeft(t: Trigger, wrCount: nat, c: nat)
    requires Inv(t, wrCount)
    ensures Clocks(t, c) >= 1
  {
    hide Inv, Room, Reaches;
    if t.r.fsm in {S0, S1, S2, S3} {
      RoomFor(t, wrCount);
      assert Room(t) * PER_TLP >= PER_TLP;
    }
  }

  /** That takes no more than two pages' time and a turn of the timeout counter. */
  lemma ClocksBounded(t: Trigger, c: nat)
    requires t.r.Typed()
    ensures Clocks(t, c) <= 2 * PER_PAGE + 0x1_0000
  {
    RoomBounded(t);
    hide Room, Reaches;
  }

  lemma RoomBounded(t: Trigger)
    ensures Room(t) <= PAGE_TLPS
  {
  }
}
