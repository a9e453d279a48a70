/** The crossing of requests from the 156.25 MHz trigger to the 250 MHz huge-page writer: a level is
    raised, seen through two registers, acknowledged by a two-clock pulse, and lowered; the fast side
    then waits before it looks again. */
module RxTriggerSynch {
  datatype Kind = Trigger | LastTlp | ChangePage

  /** One wire per kind. */
  datatype Wires = Wires(trigger: bool, last: bool, change: bool)

  const OFF: Wires := Wires(false, false, false)

  function Only(k: Kind): Wires { Wires(k == Trigger, k == LastTlp, k == ChangePage) }

  function Get(w: Wires, k: Kind): bool {
    match k
    case Trigger => w.trigger
    case LastTlp => w.last
    case ChangePage => w.change
  }

  /** fsm_clk_in: s0; s1 and s3, which raise the level a clock later; s2, s4 and s5, which wait for the
      acknowledgement; s6. */
  datatype SlowFsm = Ready | Raise(kind: Kind) | Await(kind: Kind) | Rest

  datatype Slow = Slow(fsm: SlowFsm, level: Wires, qwords: nat, ackReg0: Wires, ackReg1: Wires,
                       tlpAck: bool, changeAck: bool)

  /** fsm_clk_out: s0; s1 to s3, which present a request; s4 to s15 as Hold(1) to Hold(12). */
  datatype FastFsm = Look | Present(kind: Kind) | Hold(n: nat)

  datatype Fast = Fast(fsm: FastFsm, reg0: Wires, reg1: Wires, qwordsReg0: nat, ack: Wires, out: Wires, qwordsOut: nat)

  /** The kind the slow side would accept. */
  function Offered(w: Wires): SlowFsm {
    if w.trigger then Raise(Trigger) else if w.last then Raise(LastTlp)
    else if w.change then Await(ChangePage) else Ready
  }

  function NextSlow(s: Slow, offers: Wires, qwords: nat, ack: Wires): Slow {
    var n := s.(ackReg0 := ack, ackReg1 := s.ackReg0);
    match s.fsm
    case Ready =>
      var f := Offered(offers);
      if f == Ready then n
      else if f.Raise? then
        n.(fsm := f, qwords := qwords, tlpAck := if f.kind == Trigger then true else s.tlpAck,
           changeAck := if f.kind == LastTlp then true else s.changeAck)
      else n.(fsm := f, level := s.level.(change := true), changeAck := true)
    case Raise(Trigger) => n.(fsm := Await(Trigger), level := s.level.(trigger := true), tlpAck := false)
    case Raise(_) => n.(fsm := Await(LastTlp), level := s.level.(last := true), changeAck := false)
    case Await(k) =>
      var m := if k == ChangePage then n.(changeAck := false) else n;
      if Get(s.ackReg1, k) then m.(fsm := Rest, level := Lower(s.level, k)) else m
    case Rest => n.(fsm := Ready)
  }

  function Lower(w: Wires, k: Kind): Wires {
    match k
    case Trigger => w.(trigger := false)
    case LastTlp => w.(last := false)
    case ChangePage => w.(change := false)
  }

  /** The kind the fast side would present. */
  function Seen(w: Wires): FastFsm {
    if w.trigger then Present(Trigger) else if w.last then Present(LastTlp)
    else if w.change then Present(ChangePage) else Look
  }

  function NextFast(f: Fast, level: Wires, qwords: nat, tlpAck: bool, changeAck: bool): Fast {
    var n := f.(qwordsReg0 := qwords, reg0 := level, reg1 := f.reg0);
    match f.fsm
    case Look =>
      var g := Seen(f.reg1);
      if g == Look then n
      else
        var m := n.(fsm := g, out := match g.kind
                                     case Trigger => f.out.(trigger := true)
                                     case LastTlp => f.out.(last := true)
                                     case ChangePage => f.out.(change := true));
        if g.kind == ChangePage then m else m.(qwordsOut := f.qwordsReg0)
    case Present(k) =>
      if (if k == Trigger then tlpAck else changeAck) then
        n.(fsm := Hold(1), out := Lower(f.out, k),
           ack := match k
                  case Trigger => f.ack.(trigger := true)
                  case LastTlp => f.ack.(last := true)
                  case ChangePage => f.ack.(change := true))
      else n
    case Hold(i) => (if i == 2 then n.(ack := OFF) else n).(fsm := if i >= 12 then Look else Hold(i + 1))
  }

  class TriggerSynch {
    var slow: SlowFsm
    var level: Wires
    var qwords: nat
    var ackReg0: Wires
    var ackReg1: Wires
    var tlpAck: bool
    var changeAck: bool
    var fast: FastFsm
    var reg0: Wires
    var reg1: Wires
    var qwordsReg0: nat
    var ack: Wires
    var out: Wires
    var qwordsOut: nat

    ghost function SlowState(): Slow
      reads this
    {
      Slow(slow, level, qwords, ackReg0, ackReg1, tlpAck, changeAck)
    }

    ghost function FastState(): Fast
      reads this
    {
      Fast(fast, reg0, reg1, qwordsReg0, ack, out, qwordsOut)
    }

    constructor (q0: nat, q1: nat, q2: nat)
      ensures SlowState() == SlowReset(q0) && FastState() == FastReset(q1, q2)
    {
      slow, level, qwords, ackReg0, ackReg1, tlpAck, changeAck := Ready, OFF, q0, OFF, OFF, false, false;
      fast, reg0, reg1, qwordsReg0, ack, out, qwordsOut := Look, OFF, OFF, q1, OFF, OFF, q2;
    }

    method SlowTick(offers: Wires, qwordsIn: nat)
      modifies `slow, `level, `qwords, `ackReg0, `ackReg1, `tlpAck, `changeAck
      ensures SlowState() == NextSlow(old(SlowState()), offers, qwordsIn, ack)
    {
      var seen := ackReg1;
      ackReg0, ackReg1 := ack, ackReg0;
      match slow {
        case Ready =>
          if offers.trigger {
            tlpAck, qwords, slow := true, qwordsIn, Raise(Trigger);
          } else if offers.last {
            changeAck, qwords, slow := true, qwordsIn, Raise(LastTlp);
          } else if offers.change {
            changeAck, level, slow := true, level.(change := true), Await(ChangePage);
          }
        case Raise(Trigger) =>
          tlpAck, level, slow := false, level.(trigger := true), Await(Trigger);
        case Raise(_) =>
          changeAck, level, slow := false, level.(last := true), Await(LastTlp);
        case Await(k) =>
          if k == ChangePage { changeAck := false; }
          if Get(seen, k) { level, slow := Lower(level, k), Rest; }
        case Rest =>
          slow := Ready;
      }
    }

    method FastTick(tlpAckIn: bool, changeAckIn: bool)
      modifies `fast, `reg0, `reg1, `qwordsReg0, `ack, `out, `qwordsOut
      ensures FastState() == NextFast(old(FastState()), level, qwords, tlpAckIn, changeAckIn)
    {
      var seen, payload := reg1, qwordsReg0;
      qwordsReg0, reg0, reg1 := qwords, level, reg0;
      match fast {
        case Look =>
          if seen.trigger {
            out, qwordsOut, fast := out.(trigger := true), payload, Present(Trigger);
          } else if seen.last {
            out, qwordsOut, fast := out.(last := true), payload, Present(LastTlp);
          } else if seen.change {
            out, fast := out.(change := true), Present(ChangePage);
          }
        case Present(Trigger) =>
          if tlpAckIn { out, ack, fast := out.(trigger := false), ack.(trigger := true), Hold(1); }
        case Present(LastTlp) =>
          if changeAckIn { out, ack, fast := out.(last := false), ack.(last := true), Hold(1); }
        case Present(ChangePage) =>
          if changeAckIn { out, ack, fast := out.(change := false), ack.(change := true), Hold(1); }
        case Hold(i) =>
          if i == 2 { ack := OFF; }
          fast := if i >= 12 then Look else Hold(i + 1);
      }
    }
  }

  function SlowReset(q: nat): Slow { Slow(Ready, OFF, q, OFF, OFF, false, false) }

  function FastReset(q0: nat, q1: nat): Fast { Fast(Look, OFF, OFF, q0, OFF, OFF, q1) }

  // ----- runs --------------------------------------------------------------------------------

  /** A request with its payload, which a page change does not have. */
  datatype Request = Request(kind: Kind, qwords: nat)

  /** `since` counts the fast clocks since the last slow one. */
  datatype Synch = Synch(s: Slow, f: Fast, since: nat, accepted: seq<Request>, presented: seq<Request>)

  datatype Action =
    | SlowTick(offers: Wires, qwords: nat)
    | FastTick(tlpAck: bool, changeAck: bool)
    | BothTick(offers: Wires, qwords: nat, tlpAck: bool, changeAck: bool)

  function Init(q0: nat, q1: nat, q2: nat): Synch { Synch(SlowReset(q0), FastReset(q1, q2), 0, [], []) }

  /** One or two fast clocks fall between two slow ones; edges may coincide. */
  predicate Enabled(x: Synch, a: Action) {
    match a
    case FastTick(_, _) => x.since < 2
    case _ => x.since >= 1
  }

  function Payload(k: Kind, qwords: nat): Request { Request(k, if k == ChangePage then 0 else qwords) }

  function Accepted(s: Slow, offers: Wires, qwords: nat): seq<Request> {
    if s.fsm == Ready && Offered(offers) != Ready then [Payload(Offered(offers).kind, qwords)] else []
  }

  function Presented(f: Fast): seq<Request> {
    if f.fsm == Look && Seen(f.reg1) != Look then [Payload(Seen(f.reg1).kind, f.qwordsReg0)] else []
  }

  function Step(x: Synch, a: Action): Synch {
    if !Enabled(x, a) then x
    else
      match a
      case SlowTick(offers, qwords) =>
        x.(s := NextSlow(x.s, offers, qwords, x.f.ack), since := 0,
           accepted := x.accepted + Accepted(x.s, offers, qwords))
      case FastTick(tlpAck, changeAck) =>
        x.(f := NextFast(x.f, x.s.level, x.s.qwords, tlpAck, changeAck), since := x.since + 1,
           presented := x.presented + Presented(x.f))
      case BothTick(offers, qwords, tlpAck, changeAck) =>
        Synch(NextSlow(x.s, offers, qwords, x.f.ack), NextFast(x.f, x.s.level, x.s.qwords, tlpAck, changeAck), 1,
              x.accepted + Accepted(x.s, offers, qwords), x.presented + Presented(x.f))
  }

  function Run(x: Synch, acts: seq<Action>): Synch
    decreases |acts|
  {
    if acts == [] then x else Step(Run(x, acts[..|acts| - 1]), acts[|acts| - 1])
  }

  // ----- the invariant -----------------------------------------------------------------------

  /** How many of the fast side's wait states have been entered since it took an acknowledgement. */
  function Age(f: Fast): nat { if f.fsm.Hold? then f.fsm.n else 0 }

  /** What was accepted has been presented, except possibly the last request. */
  predicate Pending(x: Synch, r: Request) { x.accepted == x.presented + [r] }

  /** No request is raised; the registers may still show the last one, but only while the fast side is in
      its wait states. */
  predicate Quiet(x: Synch) {
    && x.s.level == OFF && x.f.ack == OFF && x.f.out == OFF && x.s.ackReg0 == OFF
    && !x.f.fsm.Present? && x.accepted == x.presented
    && (x.f.reg1 != OFF ==> 1 <= Age(x.f) <= 8)
    && (x.f.reg0 != OFF ==> 1 <= Age(x.f) <= 7)
  }

  /** A request has been accepted and not yet presented. */
  predicate Raised(x: Synch, k: Kind) {
    && x.f.ack == OFF && x.f.out == OFF && x.s.ackReg0 == OFF && x.s.ackReg1 == OFF
    && !x.f.fsm.Present? && (x.f.fsm.Hold? ==> Age(x.f) >= 4)
    && Pending(x, Payload(k, x.s.qwords))
    && (if x.f.reg0 == OFF then x.f.reg1 != OFF ==> 1 <= Age(x.f) <= 8
        else x.f.reg0 == x.s.level && x.f.qwordsReg0 == x.s.qwords && (x.f.reg1 == OFF || x.f.reg1 == x.s.level))
  }

  /** The request has been presented; the acknowledgement is on its way to the slow side. */
  predicate Held(x: Synch, k: Kind) {
    var age, since, reg0, reg1 := Age(x.f), x.since, x.s.ackReg0, x.s.ackReg1;
    && x.accepted == x.presented && x.f.reg0 == x.f.reg1 == Only(k)
    && (reg0 == OFF || reg0 == Only(k)) && (reg1 == OFF || reg1 == Only(k))
    && (if x.f.fsm == Present(k) then x.f.ack == reg0 == reg1 == OFF && x.f.out == Only(k)
        else
          && x.f.fsm.Hold? && 1 <= age && x.f.out == OFF && x.f.ack == (if age <= 2 then Only(k) else OFF)
          && (if reg1 != OFF then 2 + since <= age <= 4 + since
              else if reg0 != OFF then 1 + since <= age <= 2 + since
              else age <= since))
  }

  predicate Inv(x: Synch) {
    && x.since <= 2
    && (x.f.fsm.Hold? ==> 1 <= x.f.fsm.n <= 12)
    && (x.s.tlpAck ==> x.s.fsm == Raise(Trigger))
    && (x.s.changeAck ==> x.s.fsm == Raise(LastTlp) || x.s.fsm == Await(ChangePage))
    && match x.s.fsm
       case Ready =>
         && Quiet(x) && x.s.ackReg1 == OFF && (x.f.fsm.Hold? ==> Age(x.f) >= 4)
         && (x.f.reg0 != OFF ==> x.since == 0)
       case Rest =>
         && Quiet(x) && 3 + x.since <= Age(x.f) <= 6 + x.since
         && (x.f.reg0 != OFF ==> x.since <= 1)
       case Raise(k) => k != ChangePage && x.s.level == OFF && x.f.reg0 == OFF && Raised(x, k)
       case Await(k) => x.s.level == Only(k) && (Raised(x, k) || Held(x, k))
  }

  lemma FastKeeps(x: Synch, tlpAck: bool, changeAck: bool)
    requires Inv(x) && Enabled(x, FastTick(tlpAck, changeAck))
    ensures Inv(Step(x, FastTick(tlpAck, changeAck)))
  {
  }

  lemma SlowKeeps(x: Synch, offers: Wires, qwords: nat)
    requires Inv(x) && Enabled(x, SlowTick(offers, qwords))
    ensures Inv(Step(x, SlowTick(offers, qwords)))
  {
  }

  lemma BothWhenQuiet(x: Synch, offers: Wires, qwords: nat, tlpAck: bool, changeAck: bool)
    requires Inv(x) && Enabled(x, BothTick(offers, qwords, tlpAck, changeAck)) && (x.s.fsm == Ready || x.s.fsm == Rest)
    ensures Inv(Step(x, BothTick(offers, qwords, tlpAck, changeAck)))
  {
  }

  lemma BothWhenRaised(x: Synch, offers: Wires, qwords: nat, tlpAck: bool, changeAck: bool)
    requires Inv(x) && Enabled(x, BothTick(offers, qwords, tlpAck, changeAck)) && x.s.fsm.Raise?
    ensures Inv(Step(x, BothTick(offers, qwords, tlpAck, changeAck)))
  {
  }

  lemma BothWhenPending(x: Synch, offers: Wires, qwords: nat, tlpAck: bool, changeAck: bool)
    requires Inv(x) && Enabled(x, BothTick(offers, qwords, tlpAck, changeAck))
    requires x.s.fsm.Await? && Raised(x, x.s.fsm.kind)
    ensures Inv(Step(x, BothTick(offers, qwords, tlpAck, changeAck)))
  {
  }

  lemma BothWhenHeld(x: Synch, offers: Wires, qwords: nat, tlpAck: bool, changeAck: bool)
    requires Inv(x) && Enabled(x, BothTick(offers, qwords, tlpAck, changeAck))
    requires x.s.fsm.Await? && Held(x, x.s.fsm.kind)
    ensures Inv(Step(x, BothTick(offers, qwords, tlpAck, changeAck)))
  {
  }

  lemma StepKeeps(x: Synch, a: Action)
    requires Inv(x)
    ensures Inv(Step(x, a))
  {
    if Enabled(x, a) {
      match a {
        case SlowTick(offers, qwords) => SlowKeeps(x, offers, qwords);
        case FastTick(tlpAck, changeAck) => FastKeeps(x, tlpAck, changeAck);
        case BothTick(offers, qwords, tlpAck, changeAck) => BothStep(x, offers, qwords, tlpAck, changeAck);
      }
    }
  }

  lemma BothStep(x: Synch, offers: Wires, qwords: nat, tlpAck: bool, changeAck: bool)
    requires Inv(x) && Enabled(x, BothTick(offers, qwords, tlpAck, changeAck))
    ensures Inv(Step(x, BothTick(offers, qwords, tlpAck, changeAck)))
  {
    hide Quiet, Raised, Held, NextSlow, NextFast, Accepted, Presented;
    match x.s.fsm {
      case Raise(_) => BothWhenRaised(x, offers, qwords, tlpAck, changeAck);
      case Await(k) =>
        if Raised(x, k) {
          BothWhenPending(x, offers, qwords, tlpAck, changeAck);
        } else {
          BothWhenHeld(x, offers, qwords, tlpAck, changeAck);
        }
      case _ => BothWhenQuiet(x, offers, qwords, tlpAck, changeAck);
    }
  }

  lemma {:induction false} RunKeeps(q0: nat, q1: nat, q2: nat, acts: seq<Action>)
    ensures Inv(Run(Init(q0, q1, q2), acts))
    decreases |acts|
  {
    hide NextSlow, NextFast, Accepted, Presented;
    if acts != [] {
      RunKeeps(q0, q1, q2, acts[..|acts| - 1]);
      StepKeeps(Run(Init(q0, q1, q2), acts[..|acts| - 1]), acts[|acts| - 1]);
    }
  }

  // ----- main results ------------------------------------------------------------------------

  /** In every run, at any moment: the requests presented are those accepted, once each, in order, with
      their payloads, except that the last accepted one may still be on its way. */
  lemma ExactlyOnce(q0: nat, q1: nat, q2: nat, acts: seq<Action>)
    ensures var x := Run(Init(q0, q1, q2), acts);
            x.presented == x.accepted || exists r :: Pending(x, r)
  {
    hide Run, NextSlow, NextFast, Step;
    RunKeeps(q0, q1, q2, acts);
    var x := Run(Init(q0, q1, q2), acts);
    match x.s.fsm {
      case Raise(k) => assert Raised(x, k) && Pending(x, Payload(k, x.s.qwords));
      case Await(k) => assert Raised(x, k) ==> Pending(x, Payload(k, x.s.qwords));
      case _ =>
    }
  }

  /** A request is accepted only when everything before it has been presented and acknowledged. */
  lemma AcceptedOneByOne(x: Synch, a: Action)
    requires Inv(x) && |Step(x, a).accepted| > |x.accepted|
    ensures x.presented == x.accepted && !x.f.fsm.Present?
  {
    hide NextSlow, NextFast;
  }

  /** The trigger sees an acknowledgement in exactly the clock after the one that accepted its request. */
  lemma AckIsAccept(x: Synch, offers: Wires, qwords: nat)
    requires Inv(x)
    ensures var n := NextSlow(x.s, offers, qwords, x.f.ack); var r := Accepted(x.s, offers, qwords);
            && (n.tlpAck <==> r != [] && r[0].kind == Trigger)
            && (n.changeAck <==> r != [] && r[0].kind != Trigger)
  {
    hide Quiet, Raised, Held;
  }

  /** Fast clocks until a pending request is presented, at most. */
  function Wait(x: Synch): nat {
    var hold := if x.f.fsm.Hold? && x.f.fsm.n <= 12 then 13 - x.f.fsm.n else 0;
    var regs := if x.s.fsm.Raise? then (if x.since <= 2 then 5 - x.since else 3)
                else if x.f.reg0 == OFF then 2 else if x.f.reg1 == OFF then 1 else 0;
    1 + if hold < regs then regs else hold
  }

  predicate Fast?(a: Action) { !a.SlowTick? }

  lemma WaitShrinks(x: Synch, a: Action)
    requires Inv(x) && Enabled(x, a) && |x.accepted| > |x.presented|
    ensures var n := Step(x, a);
            || |n.presented| > |x.presented|
            || (|n.accepted| > |n.presented| && Wait(n) + (if Fast?(a) then 1 else 0) <= Wait(x))
  {
  }

  /** Every step is one the clocks allow. */
  predicate Timed(x: Synch, acts: seq<Action>)
    decreases |acts|
  {
    acts == [] || (Enabled(x, acts[0]) && Timed(Step(x, acts[0]), acts[1..]))
  }

  function FastTicks(acts: seq<Action>): nat {
    if acts == [] then 0 else (if Fast?(acts[0]) then 1 else 0) + FastTicks(acts[1..])
  }

  /** Steps taken from the front. */
  function After(x: Synch, acts: seq<Action>): Synch
    decreases |acts|
  {
    if acts == [] then x else After(Step(x, acts[0]), acts[1..])
  }

  lemma PresentedGrows(x: Synch, a: Action)
    ensures |x.presented| <= |Step(x, a).presented|
  {
    hide NextSlow, NextFast;
  }

  /** An accepted request is presented within ten fast clocks, whatever the consumer does. */
  lemma {:induction false} PresentedSoon(x: Synch, acts: seq<Action>)
    requires Inv(x) && |x.accepted| > |x.presented| && Timed(x, acts) && FastTicks(acts) >= Wait(x)
    ensures Wait(x) <= 10 && |After(x, acts).presented| > |x.presented|
    decreases |acts|
  {
    var n := Step(x, acts[0]);
    WaitShrinks(x, acts[0]);
    StepKeeps(x, acts[0]);
    hide Inv, Step, Enabled;
    if |n.presented| > |x.presented| {
      StaysPresented(n, acts[1..]);
    } else {
      PresentedSoon(n, acts[1..]);
    }
  }

  lemma {:induction false} StaysPresented(x: Synch, acts: seq<Action>)
    ensures |After(x, acts).presented| >= |x.presented|
    decreases |acts|
  {
    hide Step;
    if acts != [] {
      PresentedGrows(x, acts[0]);
      StaysPresented(Step(x, acts[0]), acts[1..]);
    }
  }

  /** Slow clocks until the slow side is ready again, at most, once the consumer has acknowledged. */
  function Release(x: Synch): nat {
    match x.s.fsm
    case Await(_) => if x.s.ackReg1 != OFF then 2 else if x.s.ackReg0 != OFF then 3 else 4
    case Rest => 1
    case _ => 0
  }

  predicate Acknowledged(x: Synch) {
    x.s.fsm == Rest || (x.s.fsm.Await? && |x.accepted| == |x.presented| && x.f.fsm.Hold?)
  }

  /** Each slow clock brings it nearer, and no fast clock takes it back: four are enough. */
  lemma ReleaseShrinks(x: Synch, a: Action)
    requires Inv(x) && Acknowledged(x) && Enabled(x, a)
    ensures var n := Step(x, a);
            && Release(x) <= 4
            && (if a.FastTick? then Release(n) == Release(x) else Release(n) == Release(x) - 1)
            && (if Release(n) == 0 then n.s.fsm == Ready else Acknowledged(n))
  {
  }
}
