/** The crossing of the read pointer from the 250 MHz writer to the 156.25 MHz MAC side: a copy is held
    still while a two-clock pulse tells the slow side to take it. */
module RxRdAddrSynch {
  import opened Ring

  /** fsm_a: s0 to s7. */
  datatype Fast = Fast(fsm: nat, last: nat, synch: bool, cross: nat)

  datatype Slow = Slow(synchReg0: bool, synchReg1: bool, crossReg0: nat, out: nat)

  function NextFast(f: Fast, address: nat): Fast {
    if f.fsm == 0 then (if f.last != address then f.(cross := address, fsm := 1) else f)
    else if f.fsm == 1 then f.(last := f.cross, synch := true, fsm := 2)
    else if f.fsm == 3 then f.(synch := false, fsm := 4)
    else f.(fsm := if f.fsm < 7 then f.fsm + 1 else 0)
  }

  /** `sampled` is what the slow edge catches of the crossing register. */
  function NextSlow(s: Slow, synch: bool, sampled: nat): Slow {
    Slow(synch, s.synchReg0, sampled, if s.synchReg1 then s.crossReg0 else s.out)
  }

  class RdAddrSynch {
    var fsm: nat
    var last: nat
    var synch: bool
    var cross: nat
    var synchReg0: bool
    var synchReg1: bool
    var crossReg0: nat
    var out: nat

    ghost function FastState(): Fast
      reads this
    {
      Fast(fsm, last, synch, cross)
    }

    ghost function SlowState(): Slow
      reads this
    {
      Slow(synchReg0, synchReg1, crossReg0, out)
    }

    constructor (cross0: nat, reg0: nat)
      ensures FastState() == Fast(0, 0, false, cross0) && SlowState() == Slow(false, false, reg0, 0)
    {
      fsm, last, synch, cross := 0, 0, false, cross0;
      synchReg0, synchReg1, crossReg0, out := false, false, reg0, 0;
    }

    method FastTick(address: nat)
      modifies `fsm, `last, `synch, `cross
      ensures FastState() == NextFast(old(FastState()), address)
    {
      if fsm == 0 {
        if last != address { cross, fsm := address, 1; }
      } else if fsm == 1 {
        last, synch, fsm := cross, true, 2;
      } else if fsm == 3 {
        synch, fsm := false, 4;
      } else if fsm < 7 {
        fsm := fsm + 1;
      } else {
        fsm := 0;
      }
    }

    method SlowTick(sampled: nat)
      modifies `synchReg0, `synchReg1, `crossReg0, `out
      ensures SlowState() == NextSlow(old(SlowState()), synch, sampled)
    {
      if synchReg1 { out := crossReg0; }
      crossReg0, synchReg0, synchReg1 := sampled, synch, synchReg0;
    }
  }

  // ----- runs --------------------------------------------------------------------------------

  /** `count` is the read count whose low bits are the input; `crossing` and `shown` are those behind the
      crossing register and the output, `since` the fast clocks since the last slow one. */
  datatype Synch = Synch(f: Fast, s: Slow, since: nat, count: nat, crossing: nat, shown: nat)

  /** Before each fast clock the read count may have advanced.  A slow edge that coincides with the capture
      of a new address may catch any mixture of its bits. */
  datatype Action =
    | FastTick(count: nat)
    | SlowTick
    | BothTick(count: nat, torn: nat)

  function Init(cross0: nat, reg0: nat): Synch {
    Synch(Fast(0, 0, false, cross0), Slow(false, false, reg0, 0), 0, 0, 0, 0)
  }

  predicate Enabled(x: Synch, a: Action) {
    match a
    case FastTick(count) => x.since < 2 && x.count <= count
    case SlowTick => x.since >= 1
    case BothTick(count, _) => x.since >= 1 && x.count <= count
  }

  predicate Captures(f: Fast, address: nat) { f.fsm == 0 && f.last != address }

  function DoFast(x: Synch, count: nat): Synch {
    x.(f := NextFast(x.f, count % RING), since := x.since + 1, count := count,
       crossing := if Captures(x.f, count % RING) then count else x.crossing)
  }

  function DoSlow(x: Synch, sampled: nat): Synch {
    x.(s := NextSlow(x.s, x.f.synch, sampled), since := 0, shown := if x.s.synchReg1 then x.crossing else x.shown)
  }

  function Step(x: Synch, a: Action): Synch {
    if !Enabled(x, a) then x
    else
      match a
      case FastTick(count) => DoFast(x, count)
      case SlowTick => DoSlow(x, x.f.cross)
      case BothTick(count, torn) =>
        var n := DoSlow(x, if Captures(x.f, count % RING) then torn else x.f.cross);
        DoFast(x, count).(s := n.s, shown := n.shown, since := 1)
  }

  function Run(x: Synch, acts: seq<Action>): Synch
    decreases |acts|
  {
    if acts == [] then x else Step(Run(x, acts[..|acts| - 1]), acts[|acts| - 1])
  }

  // ----- the invariant -----------------------------------------------------------------------

  /** The copy has been taken over: nothing is on its way. */
  predicate Settled(x: Synch) {
    && !x.s.synchReg0 && x.shown == x.crossing
    && (x.s.synchReg1 ==> x.s.crossReg0 == x.f.cross && 4 + x.since <= x.f.fsm <= 5 + x.since)
    && (!x.s.synchReg1 ==> 5 + x.since <= x.f.fsm)
  }

  /** The copy is on its way: the pulse not yet seen, seen once, or seen through both registers. */
  predicate Moving(x: Synch) {
    if x.s.synchReg1 then
      && x.s.crossReg0 == x.f.cross
      && if x.s.synchReg0 then x.f.fsm == 3 + x.since else 4 + x.since <= x.f.fsm <= 5 + x.since
    else if x.s.synchReg0 then x.s.crossReg0 == x.f.cross && 2 + x.since <= x.f.fsm <= 3 + x.since
    else x.f.fsm <= 1 + x.since
  }

  predicate Inv(x: Synch) {
    && x.since <= 2 && x.f.fsm <= 7
    && x.shown <= x.crossing <= x.count && x.s.out == x.shown % RING
    && (if x.f.fsm == 0 then !x.f.synch && !x.s.synchReg0 && !x.s.synchReg1 && x.shown == x.crossing
          && x.f.last == x.crossing % RING
        else
          && x.f.cross == x.crossing % RING && (x.f.fsm > 1 ==> x.f.last == x.f.cross)
          && x.f.synch == (x.f.fsm == 2 || x.f.fsm == 3)
          && (Moving(x) || Settled(x)))
  }

  lemma FastKeeps(x: Synch, count: nat)
    requires Inv(x) && x.since < 2 && x.count <= count
    ensures Inv(DoFast(x, count))
  {
    var c := count % RING;
    assert x.crossing % RING < RING;
  }

  lemma SlowKeeps(x: Synch)
    requires Inv(x) && x.since >= 1
    ensures Inv(DoSlow(x, x.f.cross))
  {
  }

  lemma BothKeeps(x: Synch, count: nat, torn: nat)
    requires Inv(x) && Enabled(x, BothTick(count, torn))
    ensures Inv(Step(x, BothTick(count, torn)))
  {
  }

  lemma StepKeeps(x: Synch, a: Action)
    requires Inv(x)
    ensures Inv(Step(x, a))
  {
    if Enabled(x, a) {
      match a {
        case FastTick(count) => FastKeeps(x, count);
        case SlowTick => SlowKeeps(x);
        case BothTick(count, torn) => BothKeeps(x, count, torn);
      }
    }
  }

  lemma {:induction false} RunKeeps(cross0: nat, reg0: nat, acts: seq<Action>)
    ensures Inv(Run(Init(cross0, reg0), acts))
    decreases |acts|
  {
    hide Step;
    if acts != [] {
      RunKeeps(cross0, reg0, acts[..|acts| - 1]);
      StepKeeps(Run(Init(cross0, reg0), acts[..|acts| - 1]), acts[|acts| - 1]);
    }
  }

  /** In every run, across every step: the output is the pointer of a read count that has really been
      reached, and it never goes back. */
  lemma ShowsReachedCounts(cross0: nat, reg0: nat, acts: seq<Action>, a: Action)
    ensures var x := Run(Init(cross0, reg0), acts); var n := Step(x, a);
            && n.s.out == n.shown % RING && x.shown <= n.shown <= n.count
  {
    RunKeeps(cross0, reg0, acts);
    var x := Run(Init(cross0, reg0), acts);
    StepKeeps(x, a);
    hide Run, Moving, Settled;
  }

  /** Nothing is skipped for good: when the machine looks at the input and finds nothing new, the output
      already shows it. */
  lemma UpToDateWhenIdle(x: Synch, count: nat)
    requires Inv(x) && x.f.fsm == 0 && !Captures(x.f, count % RING)
    ensures x.s.out == count % RING
  {
  }

  /** Every address captured reaches the output before the next one is captured. */
  lemma ShownBeforeNext(x: Synch, a: Action)
    requires Inv(x) && Step(x, a).crossing != x.crossing
    ensures x.shown == x.crossing && x.s.out == x.crossing % RING
  {
    hide Moving, Settled;
  }

  // ----- how soon ----------------------------------------------------------------------------

  /** Fast clocks until the output shows `count`, if that is what the input stays at. */
  function UntilShown(x: Synch, count: nat): nat {
    if x.f.fsm == 0 then (if Captures(x.f, count % RING) then 8 else 0)
    else if x.f.fsm < 8 then 8 - x.f.fsm + if x.f.cross == count % RING then 0 else 8
    else 0
  }

  /** The action has a fast clock with this count, or no fast clock. */
  predicate Steady(a: Action, count: nat) { a.SlowTick? || a.count == count }

  predicate FastClock(x: Synch, a: Action) { Enabled(x, a) && !a.SlowTick? }

  lemma StepSooner(x: Synch, a: Action, count: nat)
    requires Inv(x) && Steady(a, count)
    ensures UntilShown(Step(x, a), count)
         == UntilShown(x, count) - if FastClock(x, a) && UntilShown(x, count) > 0 then 1 else 0
  {
    hide Moving, Settled;
  }

  function FastClocks(x: Synch, acts: seq<Action>): nat {
    if acts == [] then 0
    else
      var before := acts[..|acts| - 1];
      FastClocks(x, before) + if FastClock(Run(x, before), acts[|acts| - 1]) then 1 else 0
  }

  lemma {:induction false} RunSooner(x: Synch, acts: seq<Action>, count: nat)
    requires Inv(x) && forall a :: a in acts ==> Steady(a, count)
    ensures Inv(Run(x, acts))
    ensures var until, clocks := UntilShown(x, count), FastClocks(x, acts);
            UntilShown(Run(x, acts), count) == if clocks >= until then 0 else until - clocks
    decreases |acts|
  {
    if acts != [] {
      var before, a := acts[..|acts| - 1], acts[|acts| - 1];
      hide Step, UntilShown, Inv, FastClock;
      RunSooner(x, before, count);
      StepSooner(Run(x, before), a, count);
      StepKeeps(Run(x, before), a);
    }
  }

  /** From any state: once the input has stayed the same for 15 fast clocks, the output shows it. */
  lemma ShownInTime(x: Synch, acts: seq<Action>, count: nat)
    requires Inv(x) && (forall a :: a in acts ==> Steady(a, count)) && FastClocks(x, acts) >= 15
    ensures Run(x, acts).s.out == count % RING
  {
    RunSooner(x, acts, count);
    var n := Run(x, acts);
    hide Run, FastClocks, Moving, Settled;
    UpToDateWhenIdle(n, count) by { assert n.f.fsm == 0 && !Captures(n.f, count % RING); }
  }
}
