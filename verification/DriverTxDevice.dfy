/** What the completion words mean: for a device that marks a slot only when it has completed the buffer there,
    a buffer leaves the ring, and its slot is used again, only after the device has completed it. */
module DriverTxDevice {
  import opened DescRing
  import opened DriverTx
  import Runs = DriverTxRuns

  /** `done` are the positions, among all buffers taken over, of those the device has completed: it has marked
      their slot while they were in it. */
  datatype Sys = Sys(x: Runs.Sys, done: set<nat>)

  function Init(descs: seq<Desc>, completion: seq<nat>): Sys { Sys(Runs.Init(descs, completion), {}) }

  /** No word carries the mark. */
  predicate Unmarked(completion: seq<nat>) { forall i :: 0 <= i < |completion| ==> completion[i] != TX_COMPLETION_OKAY }

  /** The buffers that have left the ring. */
  function Out(t: Tx): nat { |t.freed| + |t.pending| }

  /** The position of the buffer in slot `i`. */
  function Position(t: Tx, i: nat): nat
    requires t.cons < |t.descs| && i < |t.descs|
  {
    Out(t) + if i >= t.cons then i - t.cons else i + |t.descs| - t.cons
  }

  /** A buffer is in the slot. */
  predicate Occupied(t: Tx, i: nat) { i < |t.descs| && t.descs[i].kern != 0 }

  ghost predicate Enabled(s: Sys, a: Runs.Action) { Runs.Enabled(s.x, a) }

  ghost function Step(s: Sys, a: Runs.Action): Sys {
    if !Enabled(s, a) then s
    else Sys(Runs.Step(s.x, a), if a.Complete? && Occupied(s.x.t, a.i) then s.done + {Position(s.x.t, a.i)} else s.done)
  }

  ghost function Run(s: Sys, acts: seq<Runs.Action>): Sys
    decreases |acts|
  {
    if acts == [] then s else Step(Run(s, acts[..|acts| - 1]), acts[|acts| - 1])
  }

  /** The device marks only slots with a buffer that it has not completed yet. */
  ghost predicate Honest(s: Sys, acts: seq<Runs.Action>)
    decreases |acts|
  {
    acts == [] ||
    (Honest(s, acts[..|acts| - 1])
     && var u, a := Run(s, acts[..|acts| - 1]), acts[|acts| - 1];
        a.Complete? && Enabled(u, a) ==> Occupied(u.x.t, a.i) && Position(u.x.t, a.i) !in u.done)
  }

  // ----- the invariant -----------------------------------------------------------------------

  /** A mark says that the buffer in the slot has been completed, and all that have left have been. */
  ghost predicate Marks(t: Tx, done: set<nat>) {
    && Ok(t)
    && (forall i :: 0 <= i < |t.completion| && t.completion[i] == TX_COMPLETION_OKAY ==>
          t.descs[i].kern != 0 && Position(t, i) in done)
    && forall k :: 0 <= k < Out(t) ==> k in done
  }

  ghost predicate Inv(s: Sys) { Runs.Inv(s.x) && Marks(s.x.t, s.done) }

  lemma RetireMarks(t: Tx, done: set<nat>)
    requires Marks(t, done) && HeadCompleted(t)
    ensures Marks(Retire(t), done)
  {
    RetireMoves(t);
    var n := Retire(t);
    assert Position(t, t.cons) == Out(t) && Out(n) == Out(t) + 1;
    forall i | 0 <= i < |n.completion| && n.completion[i] == TX_COMPLETION_OKAY
      ensures n.descs[i].kern != 0 && Position(n, i) in done
    {
      assert i != t.cons && Position(n, i) == Position(t, i);
    }
    hide Circular, Contents, Count;
  }

  lemma {:induction false} CheckMarks(t: Tx, done: set<nat>)
    requires Marks(t, done)
    ensures Marks(Check(t), done)
    decreases CountOf(t)
  {
    if HeadCompleted(t) {
      RetireMarks(t, done);
      RetireMoves(t);
      FullAndEmptyIff(t.descs, t.prod, t.cons);
      hide Circular, Contents;
      CheckMarks(Retire(t), done);
    }
  }

  /** A slot that becomes occupied carries no mark. */
  lemma StoreMarks(t: Tx, d: Desc, done: set<nat>)
    requires Marks(t, done) && !Full(t.descs, t.prod, t.cons) && d.kern != 0
    ensures Marks(Store(t, d), done)
  {
    PushAppends(t.descs, t.prod, t.cons, d);
    FullAndEmptyIff(t.descs, t.prod, t.cons);
    ProdIsFree(t);
    var n := Store(t, d);
    forall i | 0 <= i < |n.completion| && n.completion[i] == TX_COMPLETION_OKAY
      ensures n.descs[i].kern != 0 && Position(n, i) in done
    {
      assert i != t.prod && Position(n, i) == Position(t, i);
    }
    hide Circular, Contents, Count;
  }

  lemma ProdIsFree(t: Tx)
    requires Ok(t) && !Full(t.descs, t.prod, t.cons)
    ensures t.descs[t.prod].kern == 0
  {
    ProdIsNext(t.descs, t.prod, t.cons);
  }

  lemma CleanMarks(t: Tx, addr: nat, done: set<nat>)
    requires Marks(t, done)
    ensures Marks(Clean(t, addr), done)
  {
    var n := Clean(t, addr);
    assert Out(n) == Out(t) && n.completion == t.completion;
    hide Circular, ToFree;
    forall i | 0 <= i < |n.completion| && n.completion[i] == TX_COMPLETION_OKAY
      ensures n.descs[i].kern != 0 && Position(n, i) in done
    {
      assert Position(n, i) == Position(t, i);
    }
  }

  lemma CompleteMarks(t: Tx, i: nat, done: set<nat>)
    requires Marks(t, done) && i < |t.completion| && Occupied(t, i)
    ensures Marks(t.(completion := t.completion[i := TX_COMPLETION_OKAY]), done + {Position(t, i)})
  {
    var n := t.(completion := t.completion[i := TX_COMPLETION_OKAY]);
    forall j | 0 <= j < |n.completion| && n.completion[j] == TX_COMPLETION_OKAY
      ensures n.descs[j].kern != 0 && Position(n, j) in done + {Position(t, i)}
    {
      assert Position(n, j) == Position(t, j);
      if j != i { assert t.completion[j] == TX_COMPLETION_OKAY; }
    }
    hide Circular;
  }

  lemma StepKeeps(s: Sys, a: Runs.Action)
    requires Inv(s) && (a.Complete? && Enabled(s, a) ==> Occupied(s.x.t, a.i))
    ensures Inv(Step(s, a))
  {
    Runs.StepKeeps(s.x, a);
    hide Runs.Inv, Marks, Check, Clean, Store, Ok;
    if Enabled(s, a) {
      match a {
        case Xmit(d) =>
          CheckMarks(s.x.t, s.done);
          if Room(s.x.t) { StoreMarks(Check(s.x.t), d, s.done); }
        case Complete(i) => CompleteMarks(s.x.t, i, s.done);
        case Report(_) =>
        case CleanerStep =>
          if s.x.pc == Runs.Round { CheckMarks(s.x.t, s.done); }
          if s.x.pc == Runs.Locked { CleanMarks(s.x.t, s.x.gcAddr, s.done); }
      }
    }
  }

  lemma InitInv(descs: seq<Desc>, completion: seq<nat>)
    requires Runs.ResetOk(descs, completion) && Unmarked(completion)
    ensures Inv(Init(descs, completion))
  {
    Runs.InitInv(descs, completion);
  }

  lemma {:induction false} RunKeeps(descs: seq<Desc>, completion: seq<nat>, acts: seq<Runs.Action>)
    requires Runs.ResetOk(descs, completion) && Unmarked(completion) && Honest(Init(descs, completion), acts)
    ensures Inv(Run(Init(descs, completion), acts))
    decreases |acts|
  {
    hide Step, Inv, Enabled, Occupied;
    if acts == [] {
      InitInv(descs, completion);
    } else {
      var before, a := acts[..|acts| - 1], acts[|acts| - 1];
      RunKeeps(descs, completion, before);
      StepKeeps(Run(Init(descs, completion), before), a);
    }
  }

  // ----- main results ------------------------------------------------------------------------

  /** In every run with such a device, whatever the interleaving: every buffer in the garbage list, and every one
      freed, has been completed by the device while it was in the ring. */
  lemma OnlyCompletedLeave(descs: seq<Desc>, completion: seq<nat>, acts: seq<Runs.Action>, k: nat)
    requires Runs.ResetOk(descs, completion) && Unmarked(completion) && Honest(Init(descs, completion), acts)
    requires k < Out(Run(Init(descs, completion), acts).x.t)
    ensures k in Run(Init(descs, completion), acts).done
  {
    RunKeeps(descs, completion, acts);
    hide Run, Honest, Runs.Inv;
  }

  /** And no slot is used again before: where `n` more buffers have been taken over, the one with the same slot
      before has been completed. */
  lemma SlotsReusedAfter(descs: seq<Desc>, completion: seq<nat>, acts: seq<Runs.Action>, k: nat)
    requires Runs.ResetOk(descs, completion) && Unmarked(completion) && Honest(Init(descs, completion), acts)
    requires k + |Run(Init(descs, completion), acts).x.t.descs| < |Run(Init(descs, completion), acts).x.accepted|
    ensures k in Run(Init(descs, completion), acts).done
  {
    RunKeeps(descs, completion, acts);
    var s := Run(Init(descs, completion), acts);
    hide Run, Honest;
    RingBounds(s.x);
  }

  lemma RingBounds(x: Runs.Sys)
    requires Runs.Inv(x)
    ensures |x.accepted| <= Out(x.t) + |x.t.descs|
  {
    hide Runs.Reported;
  }

  /** The position is right: there, among the buffers taken over, is the one in the slot. */
  lemma PositionIs(x: Runs.Sys, i: nat)
    requires Runs.Inv(x) && Occupied(x.t, i)
    ensures Position(x.t, i) < |x.accepted| && x.accepted[Position(x.t, i)] == x.t.descs[i].skb
  {
    hide Runs.Reported;
    var t := x.t;
    var j := Position(t, i) - Out(t);
    assert Around(|t.descs|, t.cons, j) == i;
    assert InRing(t)[j] == t.descs[i];
    var all := t.freed + Skbs(t.pending) + Skbs(InRing(t));
    assert all[Out(t) + j] == Skbs(InRing(t))[j];
  }
}
