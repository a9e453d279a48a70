/** The trigger is patient: it ends a page only when the next batch does not fit on it, or when for more than
    0xA000 clocks on end there has not been enough for a TLP.  Told by what has been committed and handed over. */
module RxTriggerPatience {
  import opened Ring
  import opened RxTlpTrigger
  import opened RxTriggerProgress

  /** `calm` counts the clocks on end, up to now, in which fewer than 16 of the committed qwords sampled had not
      been handed over; `patience` is what it was when the request at hand was raised. */
  datatype Watch = Watch(t: Trigger, calm: nat, patience: nat)

  predicate Calm(t: Trigger) { t.snap < t.issued + 16 }

  /** The request outputs come up in this clock. */
  predicate Raises(t: Trigger, n: Trigger) { t.r.offer == Nothing && n.r.offer != Nothing }

  ghost function Observe(w: Watch, i: Input): Watch {
    var n := Next(w.t, i);
    Watch(n, if Calm(w.t) then w.calm + 1 else 0, if Raises(w.t, n) then w.calm else w.patience)
  }

  ghost function Watched(w: Watch, ins: seq<Input>): Watch
    decreases |ins|
  {
    if ins == [] then w else Watched(Observe(w, ins[0]), ins[1..])
  }

  /** The batch that the trigger found last, of at least 16 qwords, does not fit on the page: with those it
      reserves and those already there it reaches 2^18. */
  predicate Overfull(t: Trigger) {
    t.start <= t.issued && t.regSnap >= t.issued + 16 && 16 + (t.regSnap - t.start) >= 0x4_0000
  }

  /** Why a page may be ended. */
  predicate Justified(w: Watch) { Overfull(w.t) || w.patience > 0xA000 }

  ghost predicate Waited(w: Watch) {
    var r := w.t.r;
    match r.fsm
    case S0 => r.offer == Nothing && r.timer.freeRunning <= w.calm && (r.timer.timeout ==> w.calm > TIMEOUT)
    case S1 => r.offer == Nothing
    case S3 => r.offer == Nothing
    case S4 => r.offer == Nothing
    case S5 => r.offer == ChangePage && Justified(w)
    case S6 => r.offer == LastTlp && Justified(w)
    case S7 => r.offer == Nothing
    case S8 => r.offer == Nothing
    case S9 => r.offer == Nothing && w.calm > TIMEOUT
    case S10 => r.offer == Nothing && w.calm > TIMEOUT
    case S2 => true
  }

  lemma WaitWaited(w: Watch, wrCount: nat, i: Input)
    requires Inv(w.t, wrCount) && Waited(w) && w.t.r.fsm == S0
    ensures Waited(Observe(w, i))
  {
    hide Sub, Add;
  }

  lemma PlanWaited(w: Watch, wrCount: nat, i: Input)
    requires Inv(w.t, wrCount) && Waited(w) && w.t.r.fsm == S1
    ensures Waited(Observe(w, i))
  {
    hide Sub, Add;
  }

  lemma CloseWaited(w: Watch, wrCount: nat, i: Input)
    requires Inv(w.t, wrCount) && Waited(w) && w.t.r.fsm in {S5, S6, S9, S10}
    ensures Waited(Observe(w, i))
  {
    hide Sub, Add, Batch;
  }

  lemma OtherWaited(w: Watch, wrCount: nat, i: Input)
    requires Inv(w.t, wrCount) && Waited(w) && w.t.r.fsm in {S2, S3, S4, S7, S8}
    ensures Waited(Observe(w, i))
  {
    hide Sub, Add, Batch;
  }

  lemma StepWaited(w: Watch, wrCount: nat, i: Input)
    requires Inv(w.t, wrCount) && Waited(w)
    ensures Waited(Observe(w, i))
  {
    match w.t.r.fsm {
      case S0 => WaitWaited(w, wrCount, i);
      case S1 => PlanWaited(w, wrCount, i);
      case S2 => OtherWaited(w, wrCount, i);
      case S3 => OtherWaited(w, wrCount, i);
      case S4 => OtherWaited(w, wrCount, i);
      case S7 => OtherWaited(w, wrCount, i);
      case S8 => OtherWaited(w, wrCount, i);
      case _ => CloseWaited(w, wrCount, i);
    }
    hide Waited, Observe, Inv;
  }

  /** A clock that takes over the end of a page: it has to be due. */
  ghost predicate ClosesDue(w: Watch, i: Input) {
    var q := Accepted(w.t.r, i.triggerAck, i.changeAck);
    q.Some? && q.value != Data ==> Justified(w)
  }

  lemma AcceptsDue(w: Watch, i: Input)
    requires Waited(w)
    ensures ClosesDue(w, i)
  {
  }

  lemma {:induction false} RunWaited(w: Watch, wrCount: nat, ins: seq<Input>)
    requires Inv(w.t, wrCount) && Waited(w) && Follows(w.t, wrCount, ins)
    ensures Waited(Watched(w, ins)) && Watched(w, ins).t == After(w.t, ins)
    decreases |ins|
  {
    hide Inv, Waited, Legal, Tick;
    if ins != [] {
      StepWaited(w, wrCount, ins[0]);
      NextDue(w.t, wrCount, ins[0], 0);
      RunWaited(Observe(w, ins[0]), ins[0].wrCount, ins[1..]);
    }
  }

  function Start(): Watch { Watch(Init(), 0, 0) }

  lemma Starts()
    ensures Inv(Start().t, 0) && Waited(Start())
  {
  }

  /** In every run, a page's end is handed over only in one of two cases: the batch found last does not fit on
      the page, or when the request for it was raised there had been fewer than 16 committed qwords to hand over
      for more than 0xA000 clocks on end. */
  lemma ClosedOnlyIfDue(ins: seq<Input>, i: Input)
    requires Follows(Init(), 0, ins)
    ensures ClosesDue(Watched(Start(), ins), i) && Watched(Start(), ins).t == After(Init(), ins)
  {
    hide Inv, Waited, Follows, ClosesDue, Watched;
    Starts();
    RunWaited(Start(), 0, ins);
    AcceptsDue(Watched(Start(), ins), i);
  }
}
