/** The transmit side under interference: transmission, the device's completions and reports, and the
    interrupt's cleaning, interleaved at every point where the driver does not hold tx_lock. */
module DriverTxRuns {
  import opened DescRing
  import opened DriverTx

  /** Where the cleaner stands: not running, before a locked round, in one with the completions checked and the
      word not read yet, before the comparison, before the exchange. */
  datatype Pc = Out | Round | Locked | Compare | Exchange

  /** `last` is the address the cleaner's last round went by, `seen` how many of the addresses `written` by
      the device there were then. */
  datatype Sys = Sys(t: Tx, gcAddr: nat, pc: Pc, last: nat, accepted: seq<nat>, written: seq<nat>, seen: nat)

  datatype Action =
    | Xmit(d: Desc)
    | Complete(i: nat)
    | Report(addr: nat)
    | CleanerStep

  function Init(descs: seq<Desc>, completion: seq<nat>): Sys {
    Sys(Tx(descs, completion, 0, 0, [], []), 0, Out, 0, [], [], 0)
  }

  predicate ResetOk(descs: seq<Desc>, completion: seq<nat>) {
    0 < |descs| == |completion| && forall i :: 0 <= i < |descs| ==> descs[i].kern == 0
  }

  /** A buffer has an address.  Transmission waits while the cleaner holds the lock; the device does not, and it
      may report anything at any time. */
  ghost predicate Enabled(x: Sys, a: Action) {
    && Ok(x.t)
    && match a
       case Xmit(d) => d.kern != 0 && x.pc != Locked
       case Complete(i) => i < |x.t.completion|
       case Report(_) => true
       case CleanerStep => true
  }

  ghost function DoXmit(x: Sys, d: Desc): Sys
    requires Ok(x.t)
  {
    if Room(x.t) then x.(t := Store(Check(x.t), d), accepted := x.accepted + [d.skb]) else x.(t := Check(x.t))
  }

  ghost function DoClean(x: Sys): Sys
    requires Ok(x.t)
  {
    match x.pc
    case Out => if x.gcAddr == 0 then x else x.(pc := Round)
    case Round => x.(t := Check(x.t), pc := Locked)
    case Locked => x.(t := Clean(x.t, x.gcAddr), last := x.gcAddr, seen := |x.written|, pc := Compare)
    case Compare => if x.last != x.gcAddr then x.(pc := Round) else x.(pc := Exchange)
    case Exchange => if x.gcAddr == x.last then x.(gcAddr := 0, pc := Out) else x.(pc := Round)
  }

  ghost function Step(x: Sys, a: Action): Sys {
    if !Enabled(x, a) then x
    else
      match a
      case Xmit(d) => DoXmit(x, d)
      case Complete(i) => x.(t := x.t.(completion := x.t.completion[i := TX_COMPLETION_OKAY]))
      case Report(addr) => x.(gcAddr := addr, written := x.written + [addr])
      case CleanerStep => DoClean(x)
  }

  ghost function Run(x: Sys, acts: seq<Action>): Sys
    decreases |acts|
  {
    if acts == [] then x else Step(Run(x, acts[..|acts| - 1]), acts[|acts| - 1])
  }

  /** Zero in the word stands for no report, so a report of zero is none. */
  predicate NonZero(written: seq<nat>) { forall i :: 0 <= i < |written| ==> written[i] != 0 }

  /** The word holds the last report, or zero while the cleaner is out; no round goes by the same report twice. */
  ghost predicate Word(x: Sys) {
    && x.seen <= |x.written| && (x.seen > 0 ==> x.last == x.written[x.seen - 1])
    && (if x.gcAddr == 0 then x.pc == Out else |x.written| > 0 && x.gcAddr == x.written[|x.written| - 1])
    && (InWindow(x) ==> x.seen > 0)
    && (x.pc == Round || x.pc == Locked || (x.pc == Out && x.gcAddr != 0) ==> x.seen < |x.written|)
  }

  ghost predicate Reported(x: Sys) { NonZero(x.written) ==> Word(x) }

  /** Between the read of the word and the exchange. */
  predicate InWindow(x: Sys) { x.pc == Compare || x.pc == Exchange }

  ghost predicate Inv(x: Sys) { Conserved(x.t, x.accepted) && Reported(x) }

  lemma XmitKeeps(x: Sys, d: Desc)
    requires Inv(x) && Enabled(x, Xmit(d))
    ensures Inv(DoXmit(x, d))
  {
    CheckConserves(x.t, x.accepted);
    if Room(x.t) { StoreConserves(Check(x.t), d, x.accepted); }
    hide Conserved;
  }

  lemma CompleteKeeps(x: Sys, i: nat)
    requires Inv(x) && Enabled(x, Complete(i))
    ensures Inv(Step(x, Complete(i)))
  {
  }

  lemma ReportKeeps(x: Sys, addr: nat)
    requires Inv(x) && Enabled(x, Report(addr))
    ensures Inv(Step(x, Report(addr)))
  {
    var n := Step(x, Report(addr));
    if NonZero(n.written) {
      assert n.written[|x.written|] == addr;
      assert forall i :: 0 <= i < |x.written| ==> x.written[i] == n.written[i];
    }
    hide Conserved, Ok;
  }

  lemma CleanerKeeps(x: Sys)
    requires Inv(x) && Ok(x.t)
    ensures Inv(DoClean(x))
  {
    if x.pc == Round { CheckConserves(x.t, x.accepted); }
    if x.pc == Locked { CleanConserves(x.t, x.gcAddr, x.accepted); }
    hide Conserved;
  }

  lemma StepKeeps(x: Sys, a: Action)
    requires Inv(x)
    ensures Inv(Step(x, a))
  {
    if Enabled(x, a) {
      match a {
        case Xmit(d) => XmitKeeps(x, d);
        case Complete(i) => CompleteKeeps(x, i);
        case Report(addr) => ReportKeeps(x, addr);
        case CleanerStep => CleanerKeeps(x);
      }
    }
  }

  lemma InitInv(descs: seq<Desc>, completion: seq<nat>)
    requires ResetOk(descs, completion)
    ensures Inv(Init(descs, completion))
  {
  }

  lemma {:induction false} RunKeeps(descs: seq<Desc>, completion: seq<nat>, acts: seq<Action>)
    requires ResetOk(descs, completion)
    ensures Inv(Run(Init(descs, completion), acts))
    decreases |acts|
  {
    hide Step, Inv;
    if acts == [] {
      InitInv(descs, completion);
    } else {
      RunKeeps(descs, completion, acts[..|acts| - 1]);
      StepKeeps(Run(Init(descs, completion), acts[..|acts| - 1]), acts[|acts| - 1]);
    }
  }

  /** In every run: freed, pending and posted buffers together are those accepted, in order; the occupied
      slots are the circular span; full and empty are told apart. */
  lemma BuffersConserved(descs: seq<Desc>, completion: seq<nat>, acts: seq<Action>)
    requires ResetOk(descs, completion)
    ensures var x := Run(Init(descs, completion), acts); var t := x.t;
            && Ok(t) && t.freed + Skbs(t.pending) + Skbs(InRing(t)) == x.accepted
            && (Full(t.descs, t.prod, t.cons) <==> |InRing(t)| == |t.descs|)
            && (Empty(t.descs, t.prod, t.cons) <==> |InRing(t)| == 0)
  {
    RunKeeps(descs, completion, acts);
    var t := Run(Init(descs, completion), acts).t;
    hide Run;
    FullAndEmptyIff(t.descs, t.prod, t.cons);
    hide Circular, Contents, Full, Empty;
  }

  /** A report has come in the window, and the latest there repeats the address the round went by. */
  ghost predicate RepeatedLate(x: Sys) {
    InWindow(x) && x.seen < |x.written| && x.written[|x.written| - 1] == x.last
  }

  /** In every run, of the exchange: the cleaner leaves with a report unseen exactly if the latest report since
      it read the word repeats the address it read; it leaves with none unseen exactly if there was no report. */
  lemma LostIff(descs: seq<Desc>, completion: seq<nat>, acts: seq<Action>)
    requires ResetOk(descs, completion) && NonZero(Run(Init(descs, completion), acts).written)
    requires Run(Init(descs, completion), acts).pc == Exchange
    ensures var x := Run(Init(descs, completion), acts); var n := Step(x, CleanerStep);
            && (n.pc == Out && n.seen < |n.written| <==> RepeatedLate(x))
            && (n.pc == Out && n.seen == |n.written| <==> x.seen == |x.written|)
            && (n.pc == Out ==> n.gcAddr == 0)
  {
    RunKeeps(descs, completion, acts);
    var x := Run(Init(descs, completion), acts);
    hide Run, Conserved, NonZero;
  }

  /** The device's reports, one after the other. */
  ghost function Reports(x: Sys, addrs: seq<nat>): Sys
    decreases |addrs|
  {
    if addrs == [] then x else Step(Reports(x, addrs[..|addrs| - 1]), Report(addrs[|addrs| - 1]))
  }

  lemma {:induction false} ReportsAre(x: Sys, addrs: seq<nat>)
    requires Ok(x.t)
    ensures Reports(x, addrs)
         == x.(written := x.written + addrs, gcAddr := if addrs == [] then x.gcAddr else addrs[|addrs| - 1])
    decreases |addrs|
  {
    hide Ok;
    if addrs == [] {
      assert x.written + [] == x.written;
    } else {
      var before := addrs[..|addrs| - 1];
      ReportsAre(x, before);
      assert x.written + addrs == (x.written + before) + [addrs[|addrs| - 1]];
    }
  }

  /** From the comparison on, with everything seen so far, whatever the device reports before it (`a`) and
      between it and the exchange (`b`): the cleaner leaves exactly if each of the two either has no report or
      ends with the address the round went by, and then it has lost a report exactly if there was one. */
  lemma WindowIff(x: Sys, a: seq<nat>, b: seq<nat>)
    requires Ok(x.t) && x.pc == Compare && x.gcAddr == x.last && x.seen == |x.written|
    ensures var n := Step(Reports(Step(Reports(x, a), CleanerStep), b), CleanerStep);
            && (n.pc == Out <==> (a == [] || a[|a| - 1] == x.last) && (b == [] || b[|b| - 1] == x.last))
            && (n.pc == Out ==> n.gcAddr == 0 && (n.seen < |n.written| <==> a + b != []))
  {
    ReportsAre(x, a);
    var y := Step(Reports(x, a), CleanerStep);
    assert y.t == x.t by { hide Ok; }
    ReportsAre(y, b);
    hide Ok, Check, Clean, Reports;
  }

  /** No report that comes in the window repeats the address the round went by. */
  ghost predicate Spaced(x: Sys, acts: seq<Action>)
    decreases |acts|
  {
    acts == [] ||
    (Spaced(x, acts[..|acts| - 1])
     && var u, a := Run(x, acts[..|acts| - 1]), acts[|acts| - 1];
        a.Report? && InWindow(u) ==> a.addr != u.last)
  }

  /** Nothing is lost so far, and nothing in the window is about to be. */
  ghost predicate Lossless(x: Sys) {
    && (x.gcAddr == 0 ==> x.seen == |x.written|)
    && (InWindow(x) && x.gcAddr == x.last ==> x.seen == |x.written|)
  }

  lemma StepLossless(x: Sys, a: Action)
    requires Inv(x) && NonZero(x.written) && Lossless(x) && (a.Report? && InWindow(x) ==> a.addr != x.last)
    requires a.Report? ==> a.addr != 0
    ensures Lossless(Step(x, a))
  {
    hide Conserved, Ok, Check, Clean, Store, NonZero;
  }

  lemma {:induction false} RunLossless(descs: seq<Desc>, completion: seq<nat>, acts: seq<Action>)
    requires ResetOk(descs, completion) && Spaced(Init(descs, completion), acts)
    requires NonZero(Run(Init(descs, completion), acts).written)
    ensures Lossless(Run(Init(descs, completion), acts))
    decreases |acts|
  {
    hide Inv, Lossless, Ok, Check, Clean, Store;
    if acts == [] {
      StartsLossless(descs, completion);
    } else {
      var before, a := acts[..|acts| - 1], acts[|acts| - 1];
      var x := Run(Init(descs, completion), before);
      RunKeeps(descs, completion, before);
      WrittenGrows(x, a);
      RunLossless(descs, completion, before);
      if Enabled(x, a) { StepLossless(x, a); }
    }
  }

  lemma StartsLossless(descs: seq<Desc>, completion: seq<nat>)
    ensures Lossless(Init(descs, completion))
  {
  }

  lemma WrittenGrows(x: Sys, a: Action)
    requires NonZero(Step(x, a).written)
    ensures NonZero(x.written) && (a.Report? && Enabled(x, a) ==> a.addr != 0)
  {
    var n := Step(x, a);
    assert forall i :: 0 <= i < |x.written| ==> x.written[i] == n.written[i];
    if a.Report? && Enabled(x, a) { assert n.written[|x.written|] == a.addr; }
    hide Ok, Check, Clean, Store;
  }

  /** In every run so spaced, also one that reports addresses again and again: when the cleaner leaves by its
      exchange, its last round went by the last address the device had reported, and nothing has been
      reported since. */
  lemma NoReportIsLost(descs: seq<Desc>, completion: seq<nat>, acts: seq<Action>)
    requires ResetOk(descs, completion) && Spaced(Init(descs, completion), acts)
    requires NonZero(Run(Init(descs, completion), acts).written)
    ensures var x := Run(Init(descs, completion), acts); var n := Step(x, CleanerStep);
            x.pc == Exchange && n.pc == Out ==>
              && |n.written| > 0 && n.last == n.written[|n.written| - 1] && n.seen == |n.written| && n.gcAddr == 0
  {
    RunKeeps(descs, completion, acts);
    RunLossless(descs, completion, acts);
    var x := Run(Init(descs, completion), acts);
    hide Run, Conserved, Ok, Spaced, NonZero;
  }

  /** In such a run at any moment: an address waits in the device's word, or a round has gone by the last one. */
  lemma NothingLeftBehind(descs: seq<Desc>, completion: seq<nat>, acts: seq<Action>)
    requires ResetOk(descs, completion) && Spaced(Init(descs, completion), acts)
    requires NonZero(Run(Init(descs, completion), acts).written)
    ensures var x := Run(Init(descs, completion), acts);
            x.gcAddr == 0 ==> x.written == [] || (x.seen == |x.written| && x.last == x.written[|x.written| - 1])
  {
    RunKeeps(descs, completion, acts);
    RunLossless(descs, completion, acts);
    hide Run, Conserved, Spaced, NonZero;
  }

  // ----- the cleaner gets on -----------------------------------------------------------------

  /** The cleaner's steps until it is out with the word zero, if nothing is reported in the meantime. */
  function UntilOut(x: Sys): nat {
    match x.pc
    case Out => if x.gcAddr == 0 then 0 else 5
    case Round => 4
    case Locked => 3
    case Compare => if x.last == x.gcAddr then 2 else 5
    case Exchange => if x.last == x.gcAddr then 1 else 5
  }

  /** Each of its steps brings that nearer; transmission and completions do not put it off. */
  lemma StepNearer(x: Sys, a: Action)
    requires Ok(x.t) && !a.Report?
    ensures UntilOut(Step(x, a)) == UntilOut(x) - if a.CleanerStep? && UntilOut(x) > 0 then 1 else 0
  {
    hide Ok, Check, Clean, Store;
  }

  function CleanerSteps(acts: seq<Action>): nat {
    if acts == [] then 0 else CleanerSteps(acts[..|acts| - 1]) + if acts[|acts| - 1].CleanerStep? then 1 else 0
  }

  lemma {:induction false} RunNearer(x: Sys, acts: seq<Action>)
    requires Inv(x) && forall a :: a in acts ==> !a.Report?
    ensures Inv(Run(x, acts))
    ensures UntilOut(Run(x, acts)) == if CleanerSteps(acts) >= UntilOut(x) then 0 else UntilOut(x) - CleanerSteps(acts)
    decreases |acts|
  {
    if acts != [] {
      var before, a := acts[..|acts| - 1], acts[|acts| - 1];
      hide Step, UntilOut;
      RunNearer(x, before);
      StepNearer(Run(x, before), a);
      StepKeeps(Run(x, before), a);
    }
    hide Inv;
  }

  /** Wherever the cleaner stands, and whatever transmission and completions do: once it has had five steps without
      a report, it is out, and the word is zero. */
  lemma OutInFive(x: Sys, acts: seq<Action>)
    requires Inv(x) && (forall a :: a in acts ==> !a.Report?) && CleanerSteps(acts) >= 5
    ensures Run(x, acts).pc == Out && Run(x, acts).gcAddr == 0
  {
    hide Inv, Run, CleanerSteps;
    RunNearer(x, acts);
  }

  /** And a report that waits while it is out is what its next round goes by. */
  lemma NextRoundGoesByIt(x: Sys)
    requires Inv(x) && x.pc == Out && x.gcAddr != 0
    ensures var n := Step(Step(Step(x, CleanerStep), CleanerStep), CleanerStep);
            n.pc == Compare && n.last == x.gcAddr && n.seen == |x.written|
  {
    CleanerKeeps(x);
    var a := Step(x, CleanerStep);
    CleanerKeeps(a);
    var b := Step(a, CleanerStep);
    assert b.pc == Locked;
    hide Conserved, Reported, Check, Clean;
  }
}
