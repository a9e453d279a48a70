/** The PCI Express endpoint's transmit bus, shared by the receive side's page writer and the transmit
    side's reader: an arbiter hands out turns, and the two sides' signals are merged by OR and AND.
    The three machines are modelled clock by clock. */
module EndpointBus {
  /** The driven signals; those ending in N are active low. */
  datatype Lines = Lines(td: bv64, tremN: bv8, sofN: bool, eofN: bool, srcN: bool, intN: bool)

  const IDLE: Lines := Lines(0, 0xFF, true, true, true, true)

  function Merge(a: Lines, b: Lines): Lines {
    Lines(a.td | b.td, a.tremN & b.tremN, a.sofN && b.sofN, a.eofN && b.eofN, a.srcN && b.srcN, a.intN && b.intN)
  }

  // ----- the arbiter -------------------------------------------------------------------------

  datatype Arbiter = Arbiter(given: bool, turnBit: bool, rxTurn: bool, txTurn: bool)

  function NextArbiter(a: Arbiter, rxDriven: bool, txDriven: bool): Arbiter {
    if a.given then a.(given := false, rxTurn := false, txTurn := false)
    else if !rxDriven && !txDriven then
      Arbiter(true, !a.turnBit, if a.turnBit then a.rxTurn else true, if a.turnBit then true else a.txTurn)
    else a
  }

  class EndpointArbitration {
    var given: bool
    var turnBit: bool
    var rxTurn: bool
    var txTurn: bool

    ghost function State(): Arbiter
      reads this
    {
      Arbiter(given, turnBit, rxTurn, txTurn)
    }

    constructor ()
      ensures State() == Arbiter(false, false, false, false)
    {
      given, turnBit, rxTurn, txTurn := false, false, false, false;
    }

    method Tick(rxDriven: bool, txDriven: bool)
      modifies this
      ensures State() == NextArbiter(old(State()), rxDriven, txDriven)
    {
      if given {
        rxTurn, txTurn, given := false, false, false;
      } else if !rxDriven && !txDriven {
        if !turnBit { rxTurn := true; } else { txTurn := true; }
        turnBit, given := !turnBit, true;
      }
    }
  }

  // ----- the receive side --------------------------------------------------------------------

  /** send_fsm, clock by clock: s0 waits for a page, s1 for a turn and a request, s2 to s7 send a data TLP,
      s8 to s12 end a page. */
  datatype RxFsm = R0 | R1 | R2 | R3 | R4 | R5 | R6 | R7 | R8 | R9 | R10 | R11 | R12

  datatype RxDriver = RxDriver(fsm: RxFsm, driving: bool, remember: bool, notReady: bool, lines: Lines)

  /** What the writer sees in a clock: the endpoint's flow control, the requests, whether a page is there,
      whether the qword at hand is the TLP's last, and what it would put on the data lines. */
  datatype RxIn = RxIn(buffer: bool, ready: bool, change: bool, last: bool, trigger: bool, page: bool,
                       lastQword: bool, interrupts: bool, intReady: bool, word: bv64)

  function NextRx(r: RxDriver, turn: bool, i: RxIn): RxDriver {
    var l := r.lines;
    match r.fsm
    case R0 => if i.page then r.(fsm := R1) else r
    case R1 =>
      var n := r.(notReady := false, driving := false, lines := l.(td := 0, tremN := 0xFF));
      if i.buffer && i.ready && (turn || r.driving) then
        if i.change || r.remember then n.(remember := false, driving := true, fsm := R8)
        else if i.last then n.(remember := true, driving := true, fsm := R2)
        else if i.trigger then n.(driving := true, fsm := R2)
        else n
      else n
    case R2 => r.(lines := l.(tremN := 0, td := i.word, sofN := false, srcN := false), fsm := R3)
    case R3 =>
      if i.ready then r.(lines := l.(sofN := true, srcN := false, td := i.word), fsm := if r.notReady then R6 else R4)
      else r.(notReady := true)
    case R4 =>
      if !i.ready then r.(fsm := R6)
      else
        var n := r.(lines := l.(srcN := false, td := i.word));
        if i.lastQword then n.(lines := n.lines.(eofN := false), fsm := R5) else n
    case R5 => if i.ready then r.(lines := l.(eofN := true, srcN := true), fsm := R1) else r
    case R6 => if i.ready then r.(lines := l.(srcN := true), fsm := R7) else r
    case R7 => r.(lines := l.(srcN := true), fsm := R4)
    case R8 => r.(lines := l.(tremN := 0, td := i.word, sofN := false, srcN := false), fsm := R9)
    case R9 => if i.ready then r.(lines := l.(sofN := true, td := i.word), fsm := R10) else r
    case R10 => if i.ready then r.(lines := l.(td := i.word, eofN := false), fsm := R11) else r
    case R11 =>
      if !i.ready then r
      else
        var n := r.(lines := l.(eofN := true, srcN := true));
        if i.interrupts then n.(lines := n.lines.(intN := false), fsm := R12) else n.(fsm := R0)
    case R12 => if i.intReady then r.(lines := l.(intN := true), fsm := R0) else r
  }

  class RxBusDriver {
    var fsm: RxFsm
    var driving: bool
    var remember: bool
    var notReady: bool
    var lines: Lines

    ghost function State(): RxDriver
      reads this
    {
      RxDriver(fsm, driving, remember, notReady, lines)
    }

    constructor ()
      ensures State() == RxDriver(R0, false, false, false, IDLE)
    {
      fsm, driving, remember, notReady, lines := R0, false, false, false, IDLE;
    }

    method Tick(turn: bool, i: RxIn)
      modifies this
      ensures State() == NextRx(old(State()), turn, i)
    {
      match fsm {
        case R0 => if i.page { fsm := R1; }
        case R1 => Choose(turn, i);
        case R2 => lines, fsm := lines.(tremN := 0, td := i.word, sofN := false, srcN := false), R3;
        case R8 => lines, fsm := lines.(tremN := 0, td := i.word, sofN := false, srcN := false), R9;
        case R9 => if i.ready { lines, fsm := lines.(sofN := true, td := i.word), R10; }
        case R10 => if i.ready { lines, fsm := lines.(td := i.word, eofN := false), R11; }
        case R11 =>
          if i.ready {
            lines := lines.(eofN := true, srcN := true);
            if i.interrupts { lines, fsm := lines.(intN := false), R12; } else { fsm := R0; }
          }
        case R12 => if i.intReady { lines, fsm := lines.(intN := true), R0; }
        case _ => Data(i);
      }
    }

    /** State s1: let go of the bus, unless there is something to send and it is ours. */
    method Choose(turn: bool, i: RxIn)
      requires fsm == R1
      modifies this
      ensures State() == NextRx(old(State()), turn, i)
    {
      var mine := turn || driving;
      notReady, driving, lines := false, false, lines.(td := 0, tremN := 0xFF);
      if i.buffer && i.ready && mine {
        if i.change || remember {
          remember, driving, fsm := false, true, R8;
        } else if i.last {
          remember, driving, fsm := true, true, R2;
        } else if i.trigger {
          driving, fsm := true, R2;
        }
      }
    }

    /** States s3 to s7: address, data, and the detours when the endpoint is not ready. */
    method Data(i: RxIn)
      requires InTlp(fsm) && fsm != R2
      modifies this
      ensures State() == NextRx(old(State()), false, i)
    {
      match fsm {
        case R3 =>
          if i.ready {
            lines := lines.(sofN := true, srcN := false, td := i.word);
            fsm := if notReady then R6 else R4;
          } else {
            notReady := true;
          }
        case R4 =>
          if i.ready {
            lines := lines.(srcN := false, td := i.word);
            if i.lastQword { lines, fsm := lines.(eofN := false), R5; }
          } else {
            fsm := R6;
          }
        case R5 => if i.ready { lines, fsm := lines.(eofN := true, srcN := true), R1; }
        case R6 => if i.ready { lines, fsm := lines.(srcN := true), R7; }
        case R7 => lines, fsm := lines.(srcN := true), R4;
      }
    }
  }

  // ----- the transmit side -------------------------------------------------------------------

  /** rd_host_fsm: s0 waits for a turn and a task; s1 to s3 send a read request, s4 to s7 a buffer's
      completion, s9 to s11 a notification; s8 raises an interrupt. */
  datatype TxFsm = T0 | T1 | T2 | T3 | T4 | T5 | T6 | T7 | T8 | T9 | T10 | T11

  datatype TxDriver = TxDriver(fsm: TxFsm, driving: bool, lines: Lines)

  datatype TxIn = TxIn(buffer: bool, ready: bool, read: bool, completed: bool, notify: bool, interrupt: bool,
                       intReady: bool, word: bv64)

  function NextTx(t: TxDriver, turn: bool, i: TxIn): TxDriver {
    var l := t.lines;
    match t.fsm
    case T0 =>
      if turn && i.buffer && i.ready then
        if i.read then t.(driving := true, fsm := T1)
        else if i.completed then t.(driving := true, fsm := T4)
        else if i.notify then t.(driving := true, fsm := T9)
        else if i.interrupt then t.(driving := true, fsm := T8, lines := l.(intN := false))
        else t.(driving := false)
      else t.(driving := false)
    case T1 => t.(lines := l.(tremN := 0, td := i.word, sofN := false, srcN := false), fsm := T2)
    case T2 => if i.ready then t.(lines := l.(sofN := true, eofN := false, td := i.word), fsm := T3) else t
    case T3 => if i.ready then LetGo(t) else t
    case T4 => t.(lines := l.(tremN := 0, td := i.word, sofN := false, srcN := false), fsm := T5)
    case T5 => if i.ready then t.(lines := l.(sofN := true, td := i.word), fsm := T6) else t
    case T6 => if i.ready then t.(lines := l.(td := i.word, tremN := 0x0F, eofN := false), fsm := T7) else t
    case T7 => if i.ready then LetGo(t) else t
    case T8 => if i.intReady then t.(lines := l.(intN := true), driving := false, fsm := T0) else t
    case T9 => t.(lines := l.(tremN := 0, td := i.word, sofN := false, srcN := false), fsm := T10)
    case T10 => if i.ready then t.(lines := l.(sofN := true, td := i.word), fsm := T11) else t
    case T11 => if i.ready then t.(lines := l.(td := i.word, tremN := 0, eofN := false), fsm := T7) else t
  }

  function LetGo(t: TxDriver): TxDriver {
    t.(lines := t.lines.(srcN := true, eofN := true, tremN := 0xFF, td := 0), driving := false, fsm := T0)
  }

  class TxBusDriver {
    var fsm: TxFsm
    var driving: bool
    var lines: Lines

    ghost function State(): TxDriver
      reads this
    {
      TxDriver(fsm, driving, lines)
    }

    constructor ()
      ensures State() == TxDriver(T0, false, IDLE)
    {
      fsm, driving, lines := T0, false, IDLE;
    }

    method Tick(turn: bool, i: TxIn)
      modifies this
      ensures State() == NextTx(old(State()), turn, i)
    {
      match fsm {
        case T0 =>
          driving := false;
          if turn && i.buffer && i.ready {
            if i.read {
              driving, fsm := true, T1;
            } else if i.completed {
              driving, fsm := true, T4;
            } else if i.notify {
              driving, fsm := true, T9;
            } else if i.interrupt {
              lines, driving, fsm := lines.(intN := false), true, T8;
            }
          }
        case T8 => if i.intReady { lines, driving, fsm := lines.(intN := true), false, T0; }
        case T1 => Begin(i, T2);
        case T4 => Begin(i, T5);
        case T9 => Begin(i, T10);
        case _ => Continue(i);
      }
    }

    /** The header qword of a TLP. */
    method Begin(i: TxIn, next: TxFsm)
      modifies this
      ensures State() == old(State()).(fsm := next,
                                       lines := old(lines).(tremN := 0, td := i.word, sofN := false, srcN := false))
    {
      lines, fsm := lines.(tremN := 0, td := i.word, sofN := false, srcN := false), next;
    }

    /** Address and data, each as soon as the endpoint takes the last, and the end. */
    method Continue(i: TxIn)
      requires fsm == T2 || fsm == T3 || fsm == T5 || fsm == T6 || fsm == T7 || fsm == T10 || fsm == T11
      modifies this
      ensures State() == NextTx(old(State()), false, i)
    {
      if !i.ready { return; }
      if fsm == T2 {
        lines, fsm := lines.(sofN := true, eofN := false, td := i.word), T3;
      } else if fsm == T5 {
        lines, fsm := lines.(sofN := true, td := i.word), T6;
      } else if fsm == T6 {
        lines, fsm := lines.(td := i.word, tremN := 0x0F, eofN := false), T7;
      } else if fsm == T10 {
        lines, fsm := lines.(sofN := true, td := i.word), T11;
      } else if fsm == T11 {
        lines, fsm := lines.(td := i.word, tremN := 0, eofN := false), T7;
      } else {
        lines, driving, fsm := lines.(srcN := true, eofN := true, tremN := 0xFF, td := 0), false, T0;
      }
    }
  }

  // ----- all three, clock by clock -----------------------------------------------------------

  datatype Bus = Bus(a: Arbiter, rx: RxDriver, tx: TxDriver)

  datatype Input = Input(rx: RxIn, tx: TxIn)

  const RESET: Bus := Bus(Arbiter(false, false, false, false), RxDriver(R0, false, false, false, IDLE),
                          TxDriver(T0, false, IDLE))

  function Tick(b: Bus, i: Input): Bus {
    Bus(NextArbiter(b.a, b.rx.driving, b.tx.driving), NextRx(b.rx, b.a.rxTurn, i.rx), NextTx(b.tx, b.a.txTurn, i.tx))
  }

  function Run(ins: seq<Input>): Bus
    decreases |ins|
  {
    if ins == [] then RESET else Tick(Run(ins[..|ins| - 1]), ins[|ins| - 1])
  }

  predicate RxOk(r: RxDriver) {
    && (if r.driving then true else (r.fsm == R0 || r.fsm == R1) && r.lines == IDLE)
    && (r.fsm != R3 && r.fsm != R9 ==> r.lines.sofN)
    && (r.fsm != R5 && r.fsm != R11 ==> r.lines.eofN)
    && (r.fsm == R0 || r.fsm == R1 || r.fsm == R2 || r.fsm == R8 || r.fsm == R12 ==> r.lines.srcN)
    && (r.fsm != R12 ==> r.lines.intN)
  }

  predicate TxOk(t: TxDriver) {
    && t.driving == (t.fsm != T0)
    && (t.fsm == T0 || t.fsm == T1 || t.fsm == T4 || t.fsm == T9 ==> t.lines == IDLE)
    && (t.fsm == T8 ==> t.lines == IDLE.(intN := false))
    && (t.fsm != T8 ==> t.lines.intN)
    && (t.fsm == T3 || t.fsm == T6 || t.fsm == T7 || t.fsm == T11 ==> t.lines.sofN)
  }

  predicate Inv(b: Bus) {
    && RxOk(b.rx) && TxOk(b.tx)
    && !(b.rx.driving && b.tx.driving)
    && (b.a.given ==> (b.a.rxTurn != b.a.txTurn) && !b.rx.driving && !b.tx.driving)
    && (!b.a.given ==> !b.a.rxTurn && !b.a.txTurn)
    && (b.a.given ==> b.a.rxTurn == b.a.turnBit)
    && (b.rx.driving ==> b.a.turnBit) && (b.tx.driving ==> !b.a.turnBit)
  }

  predicate InTlp(f: RxFsm) { f == R2 || f == R3 || f == R4 || f == R5 || f == R6 || f == R7 }

  lemma RxDataKeeps(r: RxDriver, turn: bool, i: RxIn)
    requires RxOk(r) && InTlp(r.fsm)
    ensures RxOk(NextRx(r, turn, i)) && (NextRx(r, turn, i).driving ==> r.driving || turn)
  {
  }

  lemma RxEndKeeps(r: RxDriver, turn: bool, i: RxIn)
    requires RxOk(r) && !InTlp(r.fsm)
    ensures RxOk(NextRx(r, turn, i)) && (NextRx(r, turn, i).driving ==> r.driving || turn)
  {
  }

  lemma RxKeeps(r: RxDriver, turn: bool, i: RxIn)
    requires RxOk(r)
    ensures RxOk(NextRx(r, turn, i)) && (NextRx(r, turn, i).driving ==> r.driving || turn)
  {
    hide RxOk, NextRx;
    if InTlp(r.fsm) { RxDataKeeps(r, turn, i); } else { RxEndKeeps(r, turn, i); }
  }

  lemma TxKeeps(t: TxDriver, turn: bool, i: TxIn)
    requires TxOk(t)
    ensures TxOk(NextTx(t, turn, i)) && (NextTx(t, turn, i).driving ==> t.driving || turn)
  {
  }

  lemma TickKeeps(b: Bus, i: Input)
    requires Inv(b)
    ensures Inv(Tick(b, i))
  {
    RxKeeps(b.rx, b.a.rxTurn, i.rx);
    TxKeeps(b.tx, b.a.txTurn, i.tx);
    hide NextRx, NextTx, RxOk, TxOk;
  }

  lemma {:induction false} RunKeeps(ins: seq<Input>)
    ensures Inv(Run(ins))
    decreases |ins|
  {
    hide Tick;
    if ins != [] {
      RunKeeps(ins[..|ins| - 1]);
      TickKeeps(Run(ins[..|ins| - 1]), ins[|ins| - 1]);
    }
  }

  lemma MergeIdle(l: Lines)
    ensures Merge(l, IDLE) == l && Merge(IDLE, l) == l
  {
  }

  /** In every reachable state at most one side drives the bus, and what the endpoint sees are exactly the
      driver's signals, or idle ones. */
  lemma BusIsExclusive(ins: seq<Input>)
    ensures var b := Run(ins); var seen := Merge(b.rx.lines, b.tx.lines);
            && !(b.rx.driving && b.tx.driving)
            && seen == (if b.rx.driving then b.rx.lines else if b.tx.driving then b.tx.lines else IDLE)
  {
    RunKeeps(ins);
    var b := Run(ins);
    MergeIdle(b.rx.lines);
    MergeIdle(b.tx.lines);
    hide Run, Merge;
  }

  /** A side starts to drive only in a clock in which it has the turn, and then neither drives. */
  lemma StartsOnlyInTurn(b: Bus, i: Input)
    requires Inv(b)
    ensures !b.rx.driving && Tick(b, i).rx.driving
        ==> b.a.rxTurn && !b.a.txTurn && !b.tx.driving && !Tick(b, i).tx.driving
    ensures !b.tx.driving && Tick(b, i).tx.driving
        ==> b.a.txTurn && !b.a.rxTurn && !b.rx.driving && !Tick(b, i).rx.driving
  {
    RxKeeps(b.rx, b.a.rxTurn, i.rx);
    TxKeeps(b.tx, b.a.txTurn, i.tx);
    hide NextRx, NextTx, RxOk, TxOk;
  }

  /** Turns alternate: between two turns of one side the other has had one. */
  lemma TurnsAlternate(b: Bus, i: Input)
    requires Inv(b)
    ensures var n := Tick(b, i);
            && (!b.a.given && n.a.given ==>
                  n.a.turnBit != b.a.turnBit && n.a.rxTurn == n.a.turnBit && n.a.txTurn != n.a.turnBit)
            && (!(!b.a.given && n.a.given) ==> n.a.turnBit == b.a.turnBit)
  {
    hide NextRx, NextTx;
  }

  // ----- what the receive side does to the transmit side -------------------------------------

  /** The receive side has ended a page and holds the bus while it waits for the next one. */
  predicate HoldsIdleBus(b: Bus) { Inv(b) && b.rx.fsm == R0 && b.rx.driving }

  function After(b: Bus, ins: seq<Input>): Bus
    decreases |ins|
  {
    if ins == [] then b else Tick(After(b, ins[..|ins| - 1]), ins[|ins| - 1])
  }

  /** While no page comes, the transmit side gets no turn, however long it waits. */
  lemma {:induction false} TransmitStarves(b: Bus, ins: seq<Input>)
    requires HoldsIdleBus(b) && forall i :: 0 <= i < |ins| ==> !ins[i].rx.page
    ensures After(b, ins).rx == b.rx && !After(b, ins).a.txTurn && !After(b, ins).tx.driving
    ensures After(b, ins).a == b.a && Inv(After(b, ins))
    decreases |ins|
  {
    if ins != [] {
      TransmitStarves(b, ins[..|ins| - 1]);
      var m := After(b, ins[..|ins| - 1]);
      TickKeeps(m, ins[|ins| - 1]);
      HeldTick(m, ins[|ins| - 1]);
      hide Tick, Inv;
    }
  }

  lemma HeldTick(m: Bus, i: Input)
    requires HoldsIdleBus(m) && !i.rx.page
    ensures Tick(m, i).rx == m.rx && Tick(m, i).a == m.a && !Tick(m, i).tx.driving
  {
    TxKeeps(m.tx, m.a.txTurn, i.tx);
    hide NextTx, TxOk;
  }

  /** What the receive side finds to send between two TLPs. */
  predicate HasWork(r: RxDriver, i: RxIn) { i.buffer && i.ready && (i.change || r.remember || i.last || i.trigger) }

  /** The receive side lets go of the bus exactly in a clock of state s1 that finds nothing to send. */
  lemma ReleasesIff(b: Bus, i: Input)
    requires Inv(b) && b.rx.driving
    ensures !Tick(b, i).rx.driving <==> b.rx.fsm == R1 && !HasWork(b.rx, i.rx)
  {
    hide NextTx, NextArbiter;
  }

  /** Then the very next clock gives the transmit side its turn. */
  lemma TurnAfterRelease(b: Bus, i: Input, next: Input)
    requires Inv(b) && b.rx.driving && !Tick(b, i).rx.driving
    ensures Tick(Tick(b, i), next).a.txTurn
  {
    TxKeeps(b.tx, b.a.txTurn, i.tx);
    hide NextTx, NextRx, TxOk, RxOk;
  }

  /** The bus after the first `k` of the clocks. */
  function At(b: Bus, ins: seq<Input>, k: nat): Bus
    requires k <= |ins|
  {
    After(b, ins[..k])
  }

  lemma AtStart(b: Bus, ins: seq<Input>)
    ensures At(b, ins, 0) == b
  {
    hide Tick;
  }

  lemma AtNext(b: Bus, ins: seq<Input>, k: nat)
    requires k < |ins|
    ensures At(b, ins, k + 1) == Tick(At(b, ins, k), ins[k])
  {
    assert ins[..k + 1][..k] == ins[..k];
    hide Tick;
  }

  lemma {:induction false} AtKeeps(b: Bus, ins: seq<Input>, k: nat)
    requires Inv(b) && k <= |ins|
    ensures Inv(At(b, ins, k))
  {
    hide Inv, Tick;
    if k > 0 {
      AtKeeps(b, ins, k - 1);
      AtNext(b, ins, k - 1);
      TickKeeps(At(b, ins, k - 1), ins[k - 1]);
    }
  }

  /** The receive side finds something to send whenever it comes to state s1. */
  predicate AlwaysFindsWork(b: Bus, ins: seq<Input>) {
    forall k :: 0 <= k < |ins| && At(b, ins, k).rx.fsm == R1 ==> HasWork(At(b, ins, k).rx, ins[k].rx)
  }

  /** It holds the bus from the start until after the first `n` clocks. */
  predicate Held(b: Bus, ins: seq<Input>, n: nat)
    requires n <= |ins|
  {
    forall k :: 0 <= k <= n ==> At(b, ins, k).rx.driving
  }

  lemma {:induction false} WorkHolds(b: Bus, ins: seq<Input>, k: nat)
    requires Inv(b) && b.rx.driving && AlwaysFindsWork(b, ins) && k <= |ins|
    ensures At(b, ins, k).rx.driving
  {
    hide Inv, Tick, HasWork, After;
    if k == 0 {
      AtStart(b, ins);
    } else {
      WorkHolds(b, ins, k - 1);
      AtKeeps(b, ins, k - 1);
      AtNext(b, ins, k - 1);
      ReleasesIff(At(b, ins, k - 1), ins[k - 1]);
    }
  }

  /** From the held bus on, whatever comes: it stays held exactly if the receive side, once it has a page,
      never finds itself without work in state s1. */
  lemma HeldIff(b: Bus, ins: seq<Input>)
    requires HoldsIdleBus(b)
    ensures Held(b, ins, |ins|) <==> AlwaysFindsWork(b, ins)
  {
    hide Inv, Tick, HasWork, At;
    if AlwaysFindsWork(b, ins) {
      forall k | 0 <= k <= |ins| ensures At(b, ins, k).rx.driving {
        WorkHolds(b, ins, k);
      }
    }
    if Held(b, ins, |ins|) {
      forall k | 0 <= k < |ins| && At(b, ins, k).rx.fsm == R1 ensures HasWork(At(b, ins, k).rx, ins[k].rx) {
        AtKeeps(b, ins, k);
        AtNext(b, ins, k);
        ReleasesIff(At(b, ins, k), ins[k]);
      }
    }
  }

  lemma NoTurnWhileHeld(b: Bus, i: Input)
    requires Inv(b) && b.rx.driving
    ensures !b.a.txTurn && !Tick(b, i).a.txTurn
  {
    hide NextRx, NextTx;
  }

  lemma {:induction false} ReleaseGivesTurn(b: Bus, ins: seq<Input>, k: nat) returns (t: nat)
    requires Inv(b) && b.rx.driving && k < |ins| && !At(b, ins, k).rx.driving
    ensures t <= k + 1 && At(b, ins, t).a.txTurn
  {
    hide Inv, Tick, At;
    AtStart(b, ins);
    AtKeeps(b, ins, k - 1);
    AtNext(b, ins, k - 1);
    if At(b, ins, k - 1).rx.driving {
      AtNext(b, ins, k);
      TurnAfterRelease(At(b, ins, k - 1), ins[k - 1], ins[k]);
      t := k + 1;
    } else {
      t := ReleaseGivesTurn(b, ins, k - 1);
    }
  }

  /** From the held bus on, the transmit side gets a turn exactly if the receive side lets go before the last
      clock; by `HeldIff` that is when it finds nothing to send. */
  lemma TurnIffReleased(b: Bus, ins: seq<Input>)
    requires HoldsIdleBus(b) && ins != []
    ensures (exists k :: 0 <= k <= |ins| && At(b, ins, k).a.txTurn) <==> !Held(b, ins, |ins| - 1)
  {
    hide Inv, Tick, At;
    if Held(b, ins, |ins| - 1) {
      forall k | 0 <= k <= |ins| ensures !At(b, ins, k).a.txTurn {
        var j := if k > 0 then k - 1 else 0;
        AtKeeps(b, ins, j);
        AtNext(b, ins, j);
        NoTurnWhileHeld(At(b, ins, j), ins[j]);
      }
    } else {
      var k :| 0 <= k <= |ins| - 1 && !At(b, ins, k).rx.driving;
      var t := ReleaseGivesTurn(b, ins, k);
    }
  }

  function Quiet(page: bool, change: bool): Input {
    Input(RxIn(true, true, change, false, false, page, false, false, false, 0),
          TxIn(true, true, true, false, false, false, false, 0))
  }

  const ENDING: seq<Input> := [Quiet(true, false), Quiet(true, true), Quiet(true, false), Quiet(true, false),
                               Quiet(true, false), Quiet(true, false)]

  /** A bus in state `f` of the receive side, which drives; no turn is given. */
  predicate RxHolds(b: Bus, f: RxFsm) {
    b.rx.fsm == f && b.rx.driving && !b.a.given && !b.a.rxTurn && !b.a.txTurn && b.tx.fsm == T0
  }

  lemma RxHoldsOn(b: Bus, f: RxFsm, next: RxFsm)
    requires RxHolds(b, f) && (f, next) in {(R8, R9), (R9, R10), (R10, R11), (R11, R0)}
    ensures RxHolds(Tick(b, Quiet(true, false)), next)
  {
  }

  lemma RxBegins()
    ensures RxHolds(Tick(Tick(RESET, Quiet(true, false)), Quiet(true, true)), R8)
  {
    var b := Tick(RESET, Quiet(true, false));
    assert b.rx == RxDriver(R1, false, false, false, IDLE);
    assert b.a == Arbiter(true, true, true, false) && b.tx == RESET.tx;
    hide IDLE;
  }

  /** That situation is reached by ending a page while the other one is not there yet. */
  lemma StarvationIsReached()
    ensures HoldsIdleBus(Run(ENDING))
  {
    RunKeeps(ENDING);
    hide Inv, Tick, RxHolds, RESET;
    RunNext(ENDING, 0);
    RunNext(ENDING, 1);
    RunNext(ENDING, 2);
    RunNext(ENDING, 3);
    RunNext(ENDING, 4);
    RunNext(ENDING, 5);
    RxBegins();
    RxHoldsOn(Run(ENDING[..2]), R8, R9);
    RxHoldsOn(Run(ENDING[..3]), R9, R10);
    RxHoldsOn(Run(ENDING[..4]), R10, R11);
    RxHoldsOn(Run(ENDING[..5]), R11, R0);
    assert ENDING[..6] == ENDING;
    HoldsReached(Run(ENDING));
  }

  lemma HoldsReached(b: Bus)
    requires Inv(b) && RxHolds(b, R0)
    ensures HoldsIdleBus(b)
  {
  }

  lemma RunNext(a: seq<Input>, k: nat)
    requires k < |a|
    ensures Run(a[..0]) == RESET && Run(a[..k + 1]) == Tick(Run(a[..k]), a[k])
  {
    hide Tick;
    assert a[..k + 1][..k] == a[..k];
  }
}
