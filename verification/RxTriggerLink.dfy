/** The trigger and the crossing side by side on their common clock: what the trigger takes for handed over
    is what the crossing has accepted, so that the two together are one link that holds a request at a time. */
module RxTriggerLink {
  import opened Ring
  import S = RxTriggerSynch
  import T = RxTlpTrigger

  /** `taken` are the requests the trigger has seen acknowledged. */
  datatype Link = Link(t: T.Regs, x: S.Synch, taken: seq<T.Request>)

  /** Clocks of the two sides; the slow one is also the trigger's, which sees a committed pointer. */
  datatype Action =
    | SlowTick(wrCommit: nat)
    | FastTick(tlpAck: bool, changeAck: bool)
    | BothTick(wrCommit: nat, tlpAck: bool, changeAck: bool)

  function Offers(t: T.Regs): S.Wires {
    S.Wires(t.offer == T.TriggerTlp, t.offer == T.LastTlp, t.offer == T.ChangePage)
  }

  function Init(q0: nat, q1: nat, q2: nat): Link { Link(T.Reset(), S.Init(q0, q1, q2), []) }

  function AsAction(t: T.Regs, a: Action): S.Action {
    match a
    case SlowTick(_) => S.SlowTick(Offers(t), t.qwords)
    case FastTick(tlpAck, changeAck) => S.FastTick(tlpAck, changeAck)
    case BothTick(_, tlpAck, changeAck) => S.BothTick(Offers(t), t.qwords, tlpAck, changeAck)
  }

  ghost predicate Enabled(l: Link, a: Action) {
    l.t.Typed() && S.Enabled(l.x, AsAction(l.t, a)) && (a.FastTick? || a.wrCommit < RING)
  }

  ghost function Step(l: Link, a: Action): Link {
    if !Enabled(l, a) then l
    else
      var x := S.Step(l.x, AsAction(l.t, a));
      if a.FastTick? then l.(x := x)
      else
        var q := T.Accepted(l.t, l.x.s.tlpAck, l.x.s.changeAck);
        Link(T.NextRegs(l.t, a.wrCommit, l.x.s.tlpAck, l.x.s.changeAck), x,
             if q.Some? then l.taken + [q.value] else l.taken)
  }

  ghost function Run(l: Link, acts: seq<Action>): Link
    decreases |acts|
  {
    if acts == [] then l else Step(Run(l, acts[..|acts| - 1]), acts[|acts| - 1])
  }

  /** A request of the crossing as the trigger and the writer name it. */
  function Named(r: S.Request): T.Request {
    match r.kind
    case Trigger => T.Data
    case LastTlp => T.Last(r.qwords)
    case ChangePage => T.Change
  }

  function AllNamed(rs: seq<S.Request>): seq<T.Request> { seq(|rs|, i requires 0 <= i < |rs| => Named(rs[i])) }

  /** A full TLP crosses with its size. */
  ghost predicate FullTlps(rs: seq<S.Request>) {
    forall i :: 0 <= i < |rs| && rs[i].kind == S.Trigger ==> rs[i].qwords == T.TLP_QWORDS
  }

  /** The trigger offers in its waiting states and only there. */
  ghost predicate OfferOk(t: T.Regs) {
    && t.offer == (if t.fsm == T.S2 then T.TriggerTlp else if t.fsm == T.S5 then T.ChangePage
                   else if t.fsm == T.S6 then T.LastTlp else T.Nothing)
    && (t.fsm == T.S2 || t.fsm == T.S3 || t.fsm == T.S4 ==> t.qwords == T.TLP_QWORDS)
  }

  /** What was accepted is what the trigger has taken, and between the two clocks of an acknowledgement the
      request it still offers. */
  ghost predicate Lag(l: Link) {
    var s, named := l.x.s, AllNamed(l.x.accepted);
    match s.fsm
    case Raise(Trigger) => s.tlpAck && !s.changeAck && l.t.fsm == T.S2 && named == l.taken + [T.Data]
    case Raise(_) => s.changeAck && !s.tlpAck && l.t.fsm == T.S6 && named == l.taken + [T.Last(l.t.qwords)]
    case _ =>
      if s.changeAck then l.t.fsm == T.S5 && named == l.taken + [T.Change] else named == l.taken
  }

  ghost predicate Inv(l: Link) {
    l.t.Typed() && OfferOk(l.t) && S.Inv(l.x) && Lag(l) && FullTlps(l.x.accepted)
  }

  /** The trigger's own registers keep in range and its offers in place, whatever it sees. */
  lemma TriggerKeeps(t: T.Regs, wrCommit: nat, tlpAck: bool, changeAck: bool)
    requires t.Typed() && OfferOk(t) && wrCommit < RING
    ensures var n := T.NextRegs(t, wrCommit, tlpAck, changeAck); n.Typed() && OfferOk(n)
  {
    hide Sub, Add;
  }

  /** Nothing but an acknowledgement of its own kind moves a waiting trigger, and nothing else is taken. */
  lemma Waits(t: T.Regs, wrCommit: nat, tlpAck: bool, changeAck: bool)
    requires t.Typed() && OfferOk(t) && wrCommit < RING
    ensures var n := T.NextRegs(t, wrCommit, tlpAck, changeAck); var q := T.Accepted(t, tlpAck, changeAck);
            && (t.offer == T.Nothing ==> q == T.None)
            && (t.fsm == T.S2 ==> if tlpAck then q == T.Some(T.Data) else q == T.None && n.fsm == T.S2)
            && (t.fsm == T.S6 ==> if changeAck then q == T.Some(T.Last(t.qwords))
                                  else q == T.None && n.fsm == T.S6 && n.qwords == t.qwords)
            && (t.fsm == T.S5 ==> if changeAck then q == T.Some(T.Change) else q == T.None && n.fsm == T.S5)
            && (!tlpAck && !changeAck ==> q == T.None)
  {
    hide Sub, Add;
  }

  lemma NamedAppend(rs: seq<S.Request>, r: S.Request)
    ensures AllNamed(rs + [r]) == AllNamed(rs) + [Named(r)]
  {
  }

  /** The slow clock of both. */
  lemma ClockKeeps(l: Link, a: Action)
    requires Inv(l) && Enabled(l, a) && !a.FastTick?
    ensures Lag(Step(l, a)) && FullTlps(Step(l, a).x.accepted)
  {
    Waits(l.t, a.wrCommit, l.x.s.tlpAck, l.x.s.changeAck);
    S.AckIsAccept(l.x, Offers(l.t), l.t.qwords);
    var r := S.Accepted(l.x.s, Offers(l.t), l.t.qwords);
    assert Step(l, a).x.accepted == l.x.accepted + r;
    assert l.x.accepted + [] == l.x.accepted;
    if r != [] { NamedAppend(l.x.accepted, r[0]); }
    hide S.Inv, S.NextFast, T.NextRegs, T.Accepted, AllNamed;
    assert Step(l, a).x.s == S.NextSlow(l.x.s, Offers(l.t), l.t.qwords, l.x.f.ack);
  }

  lemma StepKeeps(l: Link, a: Action)
    requires Inv(l)
    ensures Inv(Step(l, a))
  {
    if Enabled(l, a) {
      S.StepKeeps(l.x, AsAction(l.t, a));
      if a.FastTick? {
        FastSame(l, a);
      } else {
        TriggerKeeps(l.t, a.wrCommit, l.x.s.tlpAck, l.x.s.changeAck);
        ClockKeeps(l, a);
      }
      hide S.Inv, S.Step, T.NextRegs, Lag, OfferOk, FullTlps;
    }
  }

  lemma FastSame(l: Link, a: Action)
    requires Enabled(l, a) && a.FastTick?
    ensures Step(l, a) == l.(x := S.Step(l.x, AsAction(l.t, a)))
    ensures Step(l, a).x.s == l.x.s && Step(l, a).x.accepted == l.x.accepted
    ensures Lag(l) ==> Lag(Step(l, a))
  {
    hide S.NextFast;
  }

  lemma {:induction false} RunKeeps(q0: nat, q1: nat, q2: nat, acts: seq<Action>)
    ensures Inv(Run(Init(q0, q1, q2), acts))
    decreases |acts|
  {
    hide Step;
    if acts != [] {
      RunKeeps(q0, q1, q2, acts[..|acts| - 1]);
      StepKeeps(Run(Init(q0, q1, q2), acts[..|acts| - 1]), acts[|acts| - 1]);
    }
  }

  /** `part` is all of `whole`, or all but its last. */
  ghost predicate UpToLast<X>(part: seq<X>, whole: seq<X>) {
    part == whole || (whole != [] && part == whole[..|whole| - 1])
  }

  /** In every run: what the trigger has handed over and what the fast side has been shown are the same
      requests, once each and in order, each of the two at most one behind what was accepted; a full TLP
      arrives with its size of 16 qwords. */
  lemma HandedOverOnce(q0: nat, q1: nat, q2: nat, acts: seq<Action>)
    ensures var l := Run(Init(q0, q1, q2), acts);
            && UpToLast(l.taken, AllNamed(l.x.accepted)) && UpToLast(l.x.presented, l.x.accepted)
            && FullTlps(l.x.accepted)
  {
    hide Run, Step, AllNamed, S.Quiet, FullTlps;
    RunKeeps(q0, q1, q2, acts);
    var l := Run(Init(q0, q1, q2), acts);
    match l.x.s.fsm {
      case Raise(k) => assert S.Raised(l.x, k);
      case Await(k) => assert S.Raised(l.x, k) || S.Held(l.x, k);
      case _ =>
        assert S.Quiet(l.x);
        QuietIsPresented(l.x);
    }
  }

  lemma QuietIsPresented(x: S.Synch)
    requires S.Quiet(x)
    ensures x.accepted == x.presented
  {
  }

  // ----- how soon ----------------------------------------------------------------------------

  /** The request that the trigger asks for. */
  function Asked(t: T.Regs): T.Request {
    match t.offer
    case LastTlp => T.Last(t.qwords)
    case ChangePage => T.Change
    case _ => T.Data
  }

  /** The crossing is not waiting for the consumer. */
  predicate Free(l: Link) { !l.x.s.fsm.Await? || l.x.s.changeAck || S.Acknowledged(l.x) }

  /** Slow clocks until the trigger has its request taken. */
  function Left(l: Link): nat {
    match l.x.s.fsm
    case Ready => 2
    case Raise(_) => 1
    case _ => if l.x.s.changeAck then 1 else S.Release(l.x) + 2
  }

  ghost predicate Offering(l: Link, q: T.Request) {
    Inv(l) && Free(l) && l.t.offer != T.Nothing && Asked(l.t) == q
  }

  lemma FastLeaves(l: Link, a: Action, q: T.Request)
    requires Offering(l, q) && Enabled(l, a) && a.FastTick?
    ensures var n := Step(l, a); Offering(n, q) && n.taken == l.taken && Left(n) == Left(l)
  {
    StepKeeps(l, a);
    FastSame(l, a);
    if S.Acknowledged(l.x) { S.ReleaseShrinks(l.x, AsAction(l.t, a)); }
    hide Lag, FullTlps, OfferOk;
  }

  lemma SlowNears(l: Link, a: Action, q: T.Request)
    requires Offering(l, q) && Enabled(l, a) && !a.FastTick?
    ensures Left(l) <= 6
    ensures var n := Step(l, a);
            if Left(l) == 1 then n.taken == l.taken + [q]
            else n.taken == l.taken && Offering(n, q) && Left(n) == Left(l) - 1
  {
    StepKeeps(l, a);
    Waits(l.t, a.wrCommit, l.x.s.tlpAck, l.x.s.changeAck);
    S.AckIsAccept(l.x, Offers(l.t), l.t.qwords);
    if S.Acknowledged(l.x) { S.ReleaseShrinks(l.x, AsAction(l.t, a)); }
    hide FullTlps, T.NextRegs, T.Accepted;
  }

  /** How many of the actions are clocks of the slow side that the two clocks allow. */
  ghost function SlowClocks(l: Link, acts: seq<Action>): nat {
    if acts == [] then 0
    else
      var before, a := acts[..|acts| - 1], acts[|acts| - 1];
      SlowClocks(l, before) + if Enabled(Run(l, before), a) && !a.FastTick? then 1 else 0
  }

  lemma {:induction false} RunNears(l: Link, acts: seq<Action>, q: T.Request)
    requires Offering(l, q)
    ensures var n, clocks := Run(l, acts), SlowClocks(l, acts);
            && Left(l) <= 6
            && if clocks < Left(l) then n.taken == l.taken && Offering(n, q) && Left(n) == Left(l) - clocks
               else l.taken + [q] <= n.taken
    decreases |acts|
  {
    if acts != [] {
      var before, a := acts[..|acts| - 1], acts[|acts| - 1];
      RunNears(l, before, q);
      var m := Run(l, before);
      if Enabled(m, a) && SlowClocks(l, before) < Left(l) {
        if a.FastTick? { FastLeaves(m, a, q); } else { SlowNears(m, a, q); }
      }
      hide Enabled, Offering, Left, Inv;
    }
  }

  /** From any state in which the crossing does not wait for the consumer: the request that the trigger offers
      is taken within six slow clocks, however fast ones fall between them, and it is the next one taken. */
  lemma TakenInTime(l: Link, acts: seq<Action>)
    requires Inv(l) && l.t.offer != T.Nothing && Free(l) && SlowClocks(l, acts) >= 6
    ensures l.taken + [Asked(l.t)] <= Run(l, acts).taken
  {
    RunNears(l, acts, Asked(l.t));
    hide Run, SlowClocks, Inv, Free, Left;
  }
}
