/** What the transmit side does with its turns, and the interrupts: tasks are begun in the order in which they are
    taken up, the most urgent first, and every interrupt asked for is shown until it is taken, once. */
module BusTasks {
  import opened EndpointBus
  import opened BusTlps

  datatype Task = Send(k: Kind) | Interrupt

  datatype Option<T> = None | Some(value: T)

  /** Read requests come before completions, these before notifications, and interrupts last. */
  function MostUrgent(i: TxIn): Option<Task> {
    if i.read then Some(Send(ReadRequest))
    else if i.completed then Some(Send(Completion))
    else if i.notify then Some(Send(Notification))
    else if i.interrupt then Some(Interrupt)
    else None
  }

  /** What a transmit side at rest takes up, with its turn, a credit and a ready endpoint. */
  function TakenUp(b: Bus, i: TxIn): Option<Task> {
    if !b.tx.driving && b.a.txTurn && i.buffer && i.ready then MostUrgent(i) else None
  }

  /** The bus with its TLPs, the tasks taken up, and the interrupts asked for and taken. */
  datatype Sys = Sys(s: BusTlps.Sys, tasks: seq<Task>, asked: nat, taken: nat)

  /** The last beat of a page's end is taken, with interrupts enabled. */
  predicate PageInterrupt(b: Bus, i: RxIn) { b.rx.fsm == R11 && i.ready && i.interrupts }

  predicate Shared(i: Input) { i.rx.ready == i.tx.ready && i.rx.intReady == i.tx.intReady }

  function Step(x: Sys, i: Input): Sys {
    if !Shared(i) then x
    else
      var b, task := x.s.b, TakenUp(x.s.b, i.tx);
      Sys.Sys(BusTlps.Step(x.s, i), if task.Some? then x.tasks + [task.value] else x.tasks,
              x.asked + (if PageInterrupt(b, i.rx) then 1 else 0) + (if task == Some(Interrupt) then 1 else 0),
              x.taken + if !Seen(b).intN && i.rx.intReady then 1 else 0)
  }

  function Run(ins: seq<Input>): Sys
    decreases |ins|
  {
    if ins == [] then Sys.Sys(BusTlps.Sys(RESET, [], []), [], 0, 0) else Step(Run(ins[..|ins| - 1]), ins[|ins| - 1])
  }

  /** The kinds of the transmit side's TLPs, in order, and those of the tasks that are TLPs. */
  function TxKinds(ts: seq<Tlp>): seq<Kind> {
    if ts == [] then []
    else
      var k := ts[|ts| - 1].kind;
      TxKinds(ts[..|ts| - 1]) + if k == PageData || k == PageEnd then [] else [k]
  }

  function Sends(tasks: seq<Task>): seq<Kind> {
    if tasks == [] then []
    else Sends(tasks[..|tasks| - 1]) + if tasks[|tasks| - 1].Send? then [tasks[|tasks| - 1].k] else []
  }

  /** The TLP that the transmit side is about to begin. */
  function ToBegin(t: TxDriver): seq<Kind> {
    match t.fsm
    case T1 => [ReadRequest]
    case T4 => [Completion]
    case T9 => [Notification]
    case _ => []
  }

  predicate Lined(x: Sys) { TxKinds(x.s.tlps) + ToBegin(x.s.b.tx) == Sends(x.tasks) }

  /** Each side shows its interrupt in one state. */
  predicate Shows(b: Bus) { (b.rx.lines.intN <==> b.rx.fsm != R12) && (b.tx.lines.intN <==> b.tx.fsm != T8) }

  predicate Interrupts(x: Sys) {
    Shows(x.s.b) && x.asked == x.taken + if Seen(x.s.b).intN then 0 else 1
  }

  predicate Inv(x: Sys) { BusTlps.Inv(x.s) && Lined(x) && Interrupts(x) }

  lemma SendsMore(tasks: seq<Task>, t: Task)
    ensures Sends(tasks + [t]) == Sends(tasks) + if t.Send? then [t.k] else []
  {
    assert (tasks + [t])[..|tasks|] == tasks;
  }

  lemma BegunKinds(ts: seq<Tlp>, k: Kind, w: bv64)
    ensures TxKinds(Begun(ts, k, w)) == TxKinds(ts) + if k == PageData || k == PageEnd then [] else [k]
  {
    assert Begun(ts, k, w)[..|ts|] == ts;
  }

  lemma AddedKinds(ts: seq<Tlp>, w: bv64, ended: bool)
    ensures TxKinds(Added(ts, w, ended)) == TxKinds(ts)
  {
    if ts != [] { assert Added(ts, w, ended)[..|ts| - 1] == ts[..|ts| - 1]; }
  }

  lemma RxKinds(ts: seq<Tlp>, r: RxDriver, i: RxIn)
    ensures TxKinds(FromRx(ts, r, i)) == TxKinds(ts)
  {
    hide TxKinds, Begun, Added;
    BegunKinds(ts, PageData, i.word);
    BegunKinds(ts, PageEnd, i.word);
    AddedKinds(ts, i.word, false);
    AddedKinds(ts, i.word, true);
    AddedKinds(ts, i.word, i.lastQword);
  }

  /** What is to be begun is begun in the next clock. */
  lemma BeginsNow(ts: seq<Tlp>, t: TxDriver, i: TxIn)
    ensures TxKinds(FromTx(ts, t, i)) == TxKinds(ts) + ToBegin(t)
  {
    hide TxKinds, Begun, Added;
    if t.fsm == T1 {
      BegunKinds(ts, ReadRequest, i.word);
    } else if t.fsm == T4 {
      BegunKinds(ts, Completion, i.word);
    } else if t.fsm == T9 {
      BegunKinds(ts, Notification, i.word);
    } else {
      AddedKinds(ts, i.word, false);
      AddedKinds(ts, i.word, true);
    }
  }

  /** A task taken up is to be begun, or an interrupt. */
  lemma TakesUp(t: TxDriver, turn: bool, i: TxIn)
    requires t.driving == (t.fsm != T0)
    ensures var task := if t.fsm == T0 && turn && i.buffer && i.ready then MostUrgent(i) else None;
            ToBegin(NextTx(t, turn, i)) == if task.Some? && task.value.Send? then [task.value.k] else []
  {
  }

  lemma LinedKeeps(x: Sys, i: Input)
    requires Inv(x) && Shared(i)
    ensures Lined(Step(x, i))
  {
    var b, ts, task := x.s.b, x.s.tlps, TakenUp(x.s.b, i.tx);
    assert b.tx.driving == (b.tx.fsm != T0) by { hide Lined, Interrupts, Phase, RxOk, AllBeats, Merge; }
    hide TxKinds, Sends, FromRx, FromTx, NextTx, NextRx, ToBegin, Interrupts, Merge, EndpointBus.Inv, OnBus, Phase;
    RxKinds(ts, b.rx, i.rx);
    BeginsNow(FromRx(ts, b.rx, i.rx), b.tx, i.tx);
    TakesUp(b.tx, b.a.txTurn, i.tx);
    if task.Some? { SendsMore(x.tasks, task.value); }
    hide AllBeats;
  }

  /** One while the interrupt is showing. */
  function Low(l: Lines): nat { if l.intN then 0 else 1 }

  lemma RxInterrupt(r: RxDriver, turn: bool, i: RxIn)
    requires r.lines.intN <==> r.fsm != R12
    ensures var n := NextRx(r, turn, i);
            && (n.lines.intN <==> n.fsm != R12)
            && Low(n.lines) + (if !r.lines.intN && i.intReady then 1 else 0)
               == Low(r.lines) + if r.fsm == R11 && i.ready && i.interrupts then 1 else 0
  {
    if r.fsm == R11 || r.fsm == R12 { RxRaises(r, turn, i); } else { RxKeepsInt(r, turn, i); }
    hide NextRx;
  }

  lemma RxKeepsInt(r: RxDriver, turn: bool, i: RxIn)
    requires r.fsm != R11 && r.fsm != R12
    ensures NextRx(r, turn, i).lines.intN == r.lines.intN && NextRx(r, turn, i).fsm != R12
  {
    match r.fsm {
      case R0 =>
      case R1 =>
      case R2 =>
      case R3 =>
      case R4 =>
      case R5 =>
      case R6 =>
      case _ =>
    }
  }

  lemma RxRaises(r: RxDriver, turn: bool, i: RxIn)
    requires (r.fsm == R11 || r.fsm == R12) && (r.lines.intN <==> r.fsm != R12)
    ensures var n := NextRx(r, turn, i);
            if r.fsm == R11 then
              if i.ready && i.interrupts then n.fsm == R12 && !n.lines.intN else n.fsm != R12 && n.lines.intN
            else if i.intReady then n.fsm != R12 && n.lines.intN else n.fsm == R12 && !n.lines.intN
  {
  }

  lemma TxInterrupt(t: TxDriver, turn: bool, i: TxIn)
    requires TxOk(t) && (t.lines.intN <==> t.fsm != T8)
    ensures var n := NextTx(t, turn, i);
            && (n.lines.intN <==> n.fsm != T8)
            && Low(n.lines) + (if !t.lines.intN && i.intReady then 1 else 0)
               == Low(t.lines)
                  + if t.fsm == T0 && turn && i.buffer && i.ready && MostUrgent(i) == Some(Interrupt) then 1 else 0
  {
  }

  /** At most one side shows one. */
  lemma SeenInt(b: Bus)
    requires EndpointBus.Inv(b)
    ensures RxOk(b.rx) && TxOk(b.tx) && b.tx.driving == (b.tx.fsm != T0)
    ensures Low(Seen(b)) == Low(b.rx.lines) + Low(b.tx.lines) && Seen(b).intN == (b.rx.lines.intN && b.tx.lines.intN)
  {
    SeenIs(b);
    hide Merge;
  }

  lemma InterruptsKeep(x: Sys, i: Input)
    requires Inv(x) && Shared(i)
    ensures Interrupts(Step(x, i))
  {
    var b, n := x.s.b, Tick(x.s.b, i);
    hide Lined, Merge, FromRx, FromTx, OnBus, Phase, AllBeats, NextRx, NextTx, RxOk, TxOk, NextArbiter, Seen;
    TickKeeps(b, i);
    SeenInt(b);
    SeenInt(n);
    hide EndpointBus.Inv;
    RxInterrupt(b.rx, b.a.rxTurn, i.rx);
    TxInterrupt(b.tx, b.a.txTurn, i.tx);
    assert Step(x, i).s.b == n;
    hide BusTlps.Step;
  }

  lemma StepKeeps(x: Sys, i: Input)
    requires Inv(x)
    ensures Inv(Step(x, i))
  {
    if Shared(i) {
      BusTlps.StepKeeps(x.s, i);
      LinedKeeps(x, i);
      InterruptsKeep(x, i);
    }
    hide BusTlps.Inv, Lined, Interrupts, BusTlps.Step;
  }

  lemma {:induction false} RunKeeps(ins: seq<Input>)
    ensures Inv(Run(ins))
    decreases |ins|
  {
    if ins == [] {
      BusTlps.RunKeeps([]);
      MergeIdle(IDLE);
    } else {
      hide Step, Inv;
      RunKeeps(ins[..|ins| - 1]);
      StepKeeps(Run(ins[..|ins| - 1]), ins[|ins| - 1]);
    }
  }

  /** In every run: the transmit side's TLPs are those of the tasks it took up, in order, the last perhaps about to
      begin; and every interrupt asked for, by a page's end or as a task, is taken once, the last perhaps still
      showing. */
  lemma TasksAreDone(ins: seq<Input>)
    ensures var x := Run(ins);
            && TxKinds(x.s.tlps) + ToBegin(x.s.b.tx) == Sends(x.tasks)
            && x.asked == x.taken + if Seen(x.s.b).intN then 0 else 1
  {
    RunKeeps(ins);
    hide Run, BusTlps.Inv, TxKinds, Sends, Seen;
  }
}
