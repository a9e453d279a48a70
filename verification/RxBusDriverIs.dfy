/** The receive side's machine is modelled three times, by its bus signals, by the ring it reads and by the pages it
    goes through: here these are one machine, and its choice in state s1 is the one of its step by step account. */
module RxBusDriverIs {
  import E = EndpointBus
  import H = HugePages
  import S = RxTlpSender
  import T = RxTlpTrigger
  import W = RxWrPktToHugepages
  import opened Ring

  function DriverState(f: S.Fsm): E.RxFsm {
    match f
    case S1 => E.R1
    case S2 => E.R2
    case S3 => E.R3
    case S4 => E.R4
    case S5 => E.R5
    case S6 => E.R6
    case S7 => E.R7
  }

  /** The same state, and the same signals as far as they are set by then. */
  predicate SameSignals(r: E.RxDriver, x: S.Regs) {
    && r.fsm == DriverState(x.fsm) && (r.lines.srcN <==> !x.src)
    && (x.fsm == S.S2 || x.fsm == S.S3 ==> (r.notReady <==> x.notReady))
    && (x.fsm != S.S1 && x.fsm != S.S2 ==> (r.lines.sofN <==> !x.sof))
    && (x.fsm != S.S1 ==> (r.lines.eofN <==> !x.eof))
  }

  /** In the data states they stay so, given that the driver is told the last qword when the count is reached. */
  lemma DriverIsSender(r: E.RxDriver, turn: bool, i: E.RxIn, x: S.Regs, j: S.Input)
    requires SameSignals(r, x) && x.Typed() && |j.ring| == RING && i.ready == j.ready && x.fsm != S.S1
    requires x.fsm == S.S4 ==> (i.lastQword <==> x.count == x.qwords)
    ensures SameSignals(E.NextRx(r, turn, i), S.NextRegs(x, j))
  {
    hide S.NextReader;
  }

  /** State s1 with a request shown and the bus its own: what it does is what serving the request asks for. */
  lemma DriverServes(r: E.RxDriver, turn: bool, i: E.RxIn, w: W.WriterRegs, q: T.Request)
    requires r.fsm == E.R1 && r.remember == w.remember && i.buffer && i.ready && (turn || r.driving)
    requires (i.change <==> q == T.Change) && (i.last <==> q.Last?) && (i.trigger <==> q == T.Data)
    ensures var n := E.NextRx(r, turn, i);
            && n.driving && !n.notReady && n.remember == W.Served(w, q).remember
            && n.fsm == if W.Closes(w, q) then E.R8 else E.R2
  {
  }

  function PageState(f: E.RxFsm): H.Fsm {
    match f
    case R0 => H.Waiting
    case R8 => H.Header
    case R9 => H.Address
    case R10 => H.Count
    case R11 => H.Finish
    case R12 => H.Interrupt
    case _ => H.Filling
  }

  /** Between pages and while one is filled it goes through the states that HugePages has. */
  lemma DriverIsWriter(r: E.RxDriver, turn: bool, i: E.RxIn, w: H.Writer, g: H.Giver, j: H.Input)
    requires w.fsm == PageState(r.fsm) && i.page == g.given
    requires i.ready == j.ready && i.interrupts == j.interrupts && i.intReady == j.intReady
    requires w.fsm == H.Filling ==> (j.end <==> E.NextRx(r, turn, i).fsm == E.R8)
    ensures H.NextWriter(w, g, j).fsm == PageState(E.NextRx(r, turn, i).fsm)
  {
  }
}
