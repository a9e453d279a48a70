/** What the cleaning frees, for a device that reports the buffers in the order they were posted: never one
    past the last report, and in each round exactly up to the reported one if it is out of the ring by then. */
module DriverTxOrder {
  import opened DescRing
  import opened DriverTx
  import Runs = DriverTxRuns

  /** `posted` are all descriptors ever taken over; `reports` the positions among them that the device has
      reported; `atCheck` how many reports there were at the check of the last locked round, `atRead`
      how many buffers had been posted when it read the word. */
  datatype Sys = Sys(x: Runs.Sys, posted: seq<Desc>, reports: seq<nat>, atCheck: nat, atRead: nat)

  datatype Action =
    | Xmit(d: Desc)
    | Complete(i: nat)
    | Report(n: nat)
    | CleanerStep

  function Init(descs: seq<Desc>, completion: seq<nat>): Sys { Sys(Runs.Init(descs, completion), [], [], 0, 0) }

  function Under(s: Sys, a: Action): Runs.Action
    requires a.Report? ==> a.n < |s.posted|
  {
    match a
    case Xmit(d) => Runs.Xmit(d)
    case Complete(i) => Runs.Complete(i)
    case Report(n) => Runs.Report(s.posted[n].dma)
    case CleanerStep => Runs.CleanerStep
  }

  /** No two buffers in use are mapped to one address, which is never zero, and reports go forward.  An address
      may be mapped again once its buffer has been freed. */
  ghost predicate Enabled(s: Sys, a: Action) {
    && (a.Report? ==> a.n < |s.posted| && s.posted[a.n].dma != 0 && forall r :: r in s.reports ==> r < a.n)
    && Runs.Enabled(s.x, Under(s, a))
    && (a.Xmit? ==> forall k :: |s.x.t.freed| <= k < |s.posted| ==> s.posted[k].dma != a.d.dma)
  }

  ghost function Step(s: Sys, a: Action): Sys {
    if !Enabled(s, a) then s
    else
      Sys(Runs.Step(s.x, Under(s, a)), if a.Xmit? && Room(s.x.t) then s.posted + [a.d] else s.posted,
          if a.Report? then s.reports + [a.n] else s.reports,
          if a.CleanerStep? && s.x.pc == Runs.Round then |s.reports| else s.atCheck,
          if a.CleanerStep? && s.x.pc == Runs.Locked then |s.posted| else s.atRead)
  }

  ghost function Run(s: Sys, acts: seq<Action>): Sys
    decreases |acts|
  {
    if acts == [] then s else Step(Run(s, acts[..|acts| - 1]), acts[|acts| - 1])
  }

  // ----- the invariant -----------------------------------------------------------------------

  /** The posted buffers, oldest first: freed, pending, in the ring. */
  ghost predicate Lined(freed: seq<nat>, pending: seq<Desc>, ring: seq<Desc>, posted: seq<Desc>) {
    && |freed| <= |posted| && freed == Skbs(posted[..|freed|])
    && pending + ring == posted[|freed|..]
  }

  ghost predicate InOrder(t: Tx, posted: seq<Desc>) { Ok(t) && Lined(t.freed, t.pending, InRing(t), posted) }

  ghost predicate OwnAddresses(posted: seq<Desc>, from: nat) {
    forall i, j :: from <= i < j < |posted| ==> posted[i].dma != posted[j].dma
  }

  ghost predicate ReportsOk(posted: seq<Desc>, reports: seq<nat>, written: seq<nat>) {
    && |written| == |reports|
    && (forall i :: 0 <= i < |reports| ==> reports[i] < |posted| && written[i] == posted[reports[i]].dma)
    && forall i, j :: 0 <= i < j < |reports| ==> reports[i] < reports[j]
  }

  /** How many buffers the first `k` reports cover. */
  function Covered(reports: seq<nat>, k: nat): nat
    requires k <= |reports|
  {
    if k == 0 then 0 else reports[k - 1] + 1
  }

  ghost predicate Inv(s: Sys) {
    && Runs.Inv(s.x) && InOrder(s.x.t, s.posted) && OwnAddresses(s.posted, |s.x.t.freed|)
    && Runs.NonZero(s.x.written) && ReportsOk(s.posted, s.reports, s.x.written)
    && |s.x.t.freed| <= Covered(s.reports, s.x.seen)
  }

  lemma LinedMove(freed: seq<nat>, pending: seq<Desc>, ring: seq<Desc>, posted: seq<Desc>, k: nat)
    requires Lined(freed, pending, ring, posted) && k <= |ring|
    ensures Lined(freed, pending + ring[..k], ring[k..], posted)
  {
    hide Skbs;
    assert ring[..k] + ring[k..] == ring;
    assert (pending + ring[..k]) + ring[k..] == pending + ring;
  }

  lemma CheckInOrder(t: Tx, posted: seq<Desc>)
    requires InOrder(t, posted)
    ensures InOrder(Check(t), posted) && Check(t).freed == t.freed
  {
    hide Check, Contents, Lined;
    var k := CheckMoves(t);
    LinedMove(t.freed, t.pending, InRing(t), posted, k);
  }

  lemma LinedStore(freed: seq<nat>, pending: seq<Desc>, ring: seq<Desc>, posted: seq<Desc>, d: Desc)
    requires Lined(freed, pending, ring, posted)
    ensures Lined(freed, pending, ring + [d], posted + [d])
  {
    hide Skbs;
    assert (posted + [d])[..|freed|] == posted[..|freed|];
    assert (pending + ring) + [d] == pending + (ring + [d]);
  }

  lemma StoreInOrder(t: Tx, posted: seq<Desc>, d: Desc)
    requires InOrder(t, posted) && !Full(t.descs, t.prod, t.cons) && d.kern != 0
    ensures InOrder(Store(t, d), posted + [d]) && Store(t, d).freed == t.freed
  {
    FullAndEmptyIff(t.descs, t.prod, t.cons);
    PushAppends(t.descs, t.prod, t.cons, d);
    hide Circular, Contents, Lined;
    LinedStore(t.freed, t.pending, InRing(t), posted, d);
  }

  lemma LinedFree(freed: seq<nat>, pending: seq<Desc>, ring: seq<Desc>, posted: seq<Desc>, k: nat)
    requires Lined(freed, pending, ring, posted) && k <= |pending|
    ensures Lined(freed + Skbs(pending[..k]), pending[k..], ring, posted)
  {
    var f := |freed|;
    SkbsConcat(posted[..f], posted[f..f + k]);
    assert posted[..f] + posted[f..f + k] == posted[..f + k];
    assert pending[..k] == posted[f..][..k] == posted[f..f + k];
    assert pending[k..] + ring == (pending + ring)[k..] == posted[f + k..];
  }

  lemma CleanInOrder(t: Tx, posted: seq<Desc>, addr: nat)
    requires InOrder(t, posted)
    ensures InOrder(Clean(t, addr), posted) && |Clean(t, addr).freed| == |t.freed| + ToFree(t.pending, addr)
  {
    var k := ToFree(t.pending, addr);
    LinedFree(t.freed, t.pending, InRing(t), posted, k);
    assert |Skbs(t.pending[..k])| == k;
    hide ToFree, Circular, Contents, Lined, Skbs;
  }

  /** Where the reported position lies when a round goes by it: never freed before. */
  lemma ReportIsAhead(s: Sys)
    requires Inv(s) && s.x.pc == Runs.Locked
    ensures s.reports != []
    ensures var n := s.reports[|s.reports| - 1];
            |s.x.t.freed| <= n < |s.posted| && s.x.gcAddr == s.posted[n].dma
  {
    hide Conserved, InOrder, OwnAddresses;
    assert s.x.seen < |s.x.written|;
  }

  /** How far a round frees that goes by position `n`: up to there if it is pending, else all that is. */
  lemma FreesUpTo(t: Tx, posted: seq<Desc>, n: nat)
    requires InOrder(t, posted) && OwnAddresses(posted, |t.freed|) && |t.freed| <= n < |posted|
    ensures var f, p := |t.freed|, |t.pending|;
            ToFree(t.pending, posted[n].dma) == if n < f + p then n + 1 - f else p
  {
    hide ToFree, Skbs, Contents, OwnAddresses;
    assert (t.pending + InRing(t))[..|t.pending|] == t.pending;
    FreesUpToIn(t.pending, posted, |t.freed|, n);
  }

  lemma FreesUpToIn(pending: seq<Desc>, posted: seq<Desc>, f: nat, n: nat)
    requires f + |pending| <= |posted| && pending == posted[f..][..|pending|]
    requires OwnAddresses(posted, f) && f <= n < |posted|
    ensures ToFree(pending, posted[n].dma) == if n < f + |pending| then n + 1 - f else |pending|
  {
    hide ToFree;
    var k := ToFree(pending, posted[n].dma);
    if k > 0 && pending[k - 1].dma == posted[n].dma {
      assert pending[k - 1] == posted[f + k - 1];
    } else if n < f + |pending| {
      assert pending[n - f] == posted[n];
    }
  }

  /** A round goes by the last report.  It frees the reported buffer exactly if that is pending after the check,
      and then exactly the buffers up to it; otherwise it frees all that are pending, which lie before it. */
  lemma RoundFrees(s: Sys)
    requires Inv(s) && s.x.pc == Runs.Locked
    ensures s.reports != []
    ensures var t, u, n := s.x.t, Step(s, CleanerStep).x.t, s.reports[|s.reports| - 1];
            && (n < |u.freed| <==> n < |t.freed| + |t.pending|)
            && |u.freed| == (if n < |t.freed| + |t.pending| then n + 1 else |t.freed| + |t.pending|)
            && u.freed == Skbs(s.posted[..|u.freed|])
  {
    ReportIsAhead(s);
    FreesUpTo(s.x.t, s.posted, s.reports[|s.reports| - 1]);
    CleanInOrder(s.x.t, s.posted, s.x.gcAddr);
    hide Conserved, OwnAddresses, Clean, ToFree, InRing, Skbs;
  }

  lemma XmitKeeps(s: Sys, d: Desc)
    requires Inv(s) && Enabled(s, Xmit(d))
    ensures Inv(Step(s, Xmit(d)))
  {
    Runs.XmitKeeps(s.x, d);
    XmitInOrder(s.x.t, s.posted, d);
    OwnAppend(s.posted, |s.x.t.freed|, d);
    hide Runs.Inv, InOrder, Check, Store, Full, OwnAddresses, Ok;
  }

  lemma XmitInOrder(t: Tx, posted: seq<Desc>, d: Desc)
    requires InOrder(t, posted) && d.kern != 0
    ensures InOrder(Check(t), posted) && Check(t).freed == t.freed
    ensures Room(t) ==> InOrder(Store(Check(t), d), posted + [d]) && Store(Check(t), d).freed == t.freed
  {
    CheckInOrder(t, posted);
    hide InOrder, Check, Store, Full;
    if Room(t) { StoreInOrder(Check(t), posted, d); }
  }

  lemma OwnAppend(posted: seq<Desc>, from: nat, d: Desc)
    requires OwnAddresses(posted, from) && forall k :: from <= k < |posted| ==> posted[k].dma != d.dma
    ensures OwnAddresses(posted + [d], from)
  {
  }

  lemma CleanerKeeps(s: Sys)
    requires Inv(s) && Enabled(s, CleanerStep)
    ensures Inv(Step(s, CleanerStep))
  {
    Runs.CleanerKeeps(s.x);
    if s.x.pc == Runs.Locked {
      RoundFrees(s);
      LockedKeeps(s);
    } else {
      UnlockedKeeps(s);
    }
    hide Inv, Step;
  }

  lemma UnlockedKeeps(s: Sys)
    requires Inv(s) && s.x.pc != Runs.Locked && Runs.Inv(Runs.DoClean(s.x))
    ensures Inv(Step(s, CleanerStep))
  {
    hide Runs.Inv, InOrder, Check, Ok, OwnAddresses, ReportsOk, Covered, Runs.NonZero, Clean;
    if s.x.pc == Runs.Round { CheckInOrder(s.x.t, s.posted); }
  }

  lemma LockedKeeps(s: Sys)
    requires Inv(s) && s.x.pc == Runs.Locked && Runs.Inv(Runs.DoClean(s.x)) && s.reports != []
    requires |Step(s, CleanerStep).x.t.freed| <= s.reports[|s.reports| - 1] + 1
    ensures Inv(Step(s, CleanerStep))
  {
    CleanInOrder(s.x.t, s.posted, s.x.gcAddr);
    hide Runs.Inv, InOrder, Clean, ToFree, Ok;
  }

  lemma CompleteKeeps(s: Sys, i: nat)
    requires Inv(s) && Enabled(s, Complete(i))
    ensures Inv(Step(s, Complete(i)))
  {
    Runs.CompleteKeeps(s.x, i);
    hide Skbs, Contents, OwnAddresses, Circular, ReportsOk, Runs.Reported, Lined;
  }

  lemma ReportsAppend(posted: seq<Desc>, reports: seq<nat>, written: seq<nat>, n: nat, seen: nat)
    requires ReportsOk(posted, reports, written) && n < |posted| && (forall r :: r in reports ==> r < n)
    requires seen <= |reports|
    ensures ReportsOk(posted, reports + [n], written + [posted[n].dma])
    ensures Covered(reports + [n], seen) == Covered(reports, seen)
  {
    assert forall i :: 0 <= i < |reports| ==> reports[i] in reports;
  }

  lemma ReportKeeps(s: Sys, n: nat)
    requires Inv(s) && Enabled(s, Report(n))
    ensures Inv(Step(s, Report(n)))
  {
    Runs.StepKeeps(s.x, Under(s, Report(n)));
    assert s.x.seen <= |s.reports| by { hide Conserved, InOrder; }
    ReportsAppend(s.posted, s.reports, s.x.written, n, s.x.seen);
    hide Runs.Inv, InOrder, OwnAddresses, ReportsOk, Covered, Ok;
  }

  lemma StepKeeps(s: Sys, a: Action)
    requires Inv(s)
    ensures Inv(Step(s, a))
  {
    if Enabled(s, a) {
      match a {
        case Xmit(d) => XmitKeeps(s, d);
        case CleanerStep => CleanerKeeps(s);
        case Complete(i) => CompleteKeeps(s, i);
        case Report(n) => ReportKeeps(s, n);
      }
    }
  }

  lemma InitInv(descs: seq<Desc>, completion: seq<nat>)
    requires Runs.ResetOk(descs, completion)
    ensures Inv(Init(descs, completion))
  {
    Runs.InitInv(descs, completion);
  }

  lemma {:induction false} RunKeeps(descs: seq<Desc>, completion: seq<nat>, acts: seq<Action>)
    requires Runs.ResetOk(descs, completion)
    ensures Inv(Run(Init(descs, completion), acts))
    decreases |acts|
  {
    hide Step, Inv;
    if acts == [] {
      InitInv(descs, completion);
    } else {
      RunKeeps(descs, completion, acts[..|acts| - 1]);
      StepKeeps(Run(Init(descs, completion), acts[..|acts| - 1]), acts[|acts| - 1]);
    }
  }

  /** In every run, a buffer is freed only if it or a later one has been reported, and oldest first. */
  lemma FreedOnlyIfReported(descs: seq<Desc>, completion: seq<nat>, acts: seq<Action>)
    requires Runs.ResetOk(descs, completion)
    ensures var s := Run(Init(descs, completion), acts); var freed := s.x.t.freed;
            && |freed| <= |s.posted| && freed == Skbs(s.posted[..|freed|])
            && (freed != [] ==> s.reports != [] && |freed| <= s.reports[|s.reports| - 1] + 1)
  {
    RunKeeps(descs, completion, acts);
    var s := Run(Init(descs, completion), acts);
    hide Run, Conserved, Skbs;
  }

  // ----- a device that marks completion before it reports ------------------------------------

  /** The buffers that have left the ring. */
  function Left(t: Tx): nat { |t.freed| + |t.pending| }

  /** Position `n` has left the ring, or the device has marked everything up to it as completed. */
  ghost predicate Marked(t: Tx, n: nat)
    requires Ok(t)
  {
    n < Left(t) || (n + 1 - Left(t) <= |InRing(t)| <= |t.descs| && AllCompleted(t, n + 1 - Left(t)))
  }

  /** Each report comes when the buffers up to it are marked. */
  ghost predicate MarksFirst(s: Sys, acts: seq<Action>)
    decreases |acts|
  {
    acts == [] ||
    (MarksFirst(s, acts[..|acts| - 1])
     && var u, a := Run(s, acts[..|acts| - 1]), acts[|acts| - 1];
        a.Report? && Enabled(u, a) ==> Marked(u.x.t, a.n))
  }

  lemma CompletedAfter(t: Tx, j: nat)
    requires Ok(t) && 0 < j <= |t.descs| && AllCompleted(t, j)
    ensures t.completion[t.cons] == TX_COMPLETION_OKAY && AllCompleted(Retire(t), j - 1)
  {
    var n, r := |t.descs|, Retire(t);
    CompletedAt(t, j, 0);
    forall i | 0 <= i < j - 1 ensures r.completion[Around(n, r.cons, i)] == TX_COMPLETION_OKAY {
      assert Around(n, r.cons, i) == Around(n, t.cons, i + 1) != t.cons;
      CompletedAt(t, j, i + 1);
    }
  }

  /** The check takes out at least what is marked at the head of the ring. */
  lemma {:induction false} CheckReaches(t: Tx, j: nat)
    requires Ok(t) && j <= |InRing(t)| && j <= |t.descs| && AllCompleted(t, j)
    ensures |InRing(Check(t))| + j <= |InRing(t)|
    decreases j
  {
    if j == 0 {
      var k := CheckMoves(t);
    } else {
      CompletedAfter(t, j);
      FullAndEmptyIff(t.descs, t.prod, t.cons);
      RetireMoves(t);
      hide AllCompleted, Circular, Contents;
      CheckReaches(Retire(t), j - 1);
    }
  }

  lemma CheckMarked(t: Tx, n: nat)
    requires Ok(t) && Marked(t, n)
    ensures n < Left(Check(t))
  {
    var k := CheckMoves(t);
    if n >= Left(t) { CheckReaches(t, n + 1 - Left(t)); }
    hide Check, AllCompleted, Contents;
  }

  /** The last report is marked, and under the lock the last one at the check is out of the ring. */
  ghost predicate ReadyAt(t: Tx, locked: bool, reports: seq<nat>, atCheck: nat) {
    && Ok(t) && atCheck <= |reports|
    && (reports != [] ==> Marked(t, reports[|reports| - 1]))
    && (locked && atCheck > 0 ==> reports[atCheck - 1] < Left(t))
  }

  ghost predicate Ready(s: Sys) { ReadyAt(s.x.t, s.x.pc == Runs.Locked, s.reports, s.atCheck) }

  lemma AfterCheck(t: Tx, u: Tx, reports: seq<nat>, atCheck: nat)
    requires ReadyAt(t, false, reports, atCheck) && Ok(u) && Left(u) == Left(Check(t))
    ensures ReadyAt(u, false, reports, atCheck) && ReadyAt(u, true, reports, |reports|)
  {
    if reports != [] { CheckMarked(t, reports[|reports| - 1]); }
    hide Check, AllCompleted, Contents, Circular;
  }

  lemma XmitReady(s: Sys, d: Desc)
    requires Inv(s) && Ready(s) && Enabled(s, Xmit(d)) && Ok(Step(s, Xmit(d)).x.t)
    ensures Ready(Step(s, Xmit(d)))
  {
    hide Inv, ReadyAt, Check, Ok, Circular;
    AfterCheck(s.x.t, Step(s, Xmit(d)).x.t, s.reports, s.atCheck);
  }

  lemma CleanReady(t: Tx, addr: nat, reports: seq<nat>, atCheck: nat)
    requires ReadyAt(t, true, reports, atCheck)
    ensures ReadyAt(Clean(t, addr), false, reports, atCheck)
  {
    assert Left(Clean(t, addr)) == Left(t) && InRing(Clean(t, addr)) == InRing(t);
    hide ToFree, Contents;
  }

  lemma CleanerReady(s: Sys)
    requires Inv(s) && Ready(s) && Enabled(s, CleanerStep)
    ensures Ready(Step(s, CleanerStep))
  {
    hide Inv, ReadyAt, Check, Circular, Clean;
    if s.x.pc == Runs.Round {
      AfterCheck(s.x.t, Check(s.x.t), s.reports, s.atCheck);
    } else if s.x.pc == Runs.Locked {
      CleanReady(s.x.t, s.x.gcAddr, s.reports, s.atCheck);
    }
  }

  lemma CompleteReady(t: Tx, i: nat, locked: bool, reports: seq<nat>, atCheck: nat)
    requires ReadyAt(t, locked, reports, atCheck) && i < |t.completion|
    ensures ReadyAt(t.(completion := t.completion[i := TX_COMPLETION_OKAY]), locked, reports, atCheck)
  {
    hide Contents;
  }

  lemma ReportReady(t: Tx, locked: bool, reports: seq<nat>, atCheck: nat, n: nat)
    requires ReadyAt(t, locked, reports, atCheck) && Marked(t, n)
    ensures ReadyAt(t, locked, reports + [n], atCheck)
  {
    hide Marked, Ok;
  }

  lemma DeviceReady(s: Sys, a: Action)
    requires Inv(s) && Ready(s) && Enabled(s, a) && (a.Complete? || (a.Report? && Marked(s.x.t, a.n)))
    ensures Ready(Step(s, a))
  {
    hide Inv, Marked, Circular, ReadyAt, Ok;
    if a.Complete? {
      CompleteReady(s.x.t, a.i, s.x.pc == Runs.Locked, s.reports, s.atCheck);
    } else {
      ReportReady(s.x.t, s.x.pc == Runs.Locked, s.reports, s.atCheck, a.n);
    }
  }

  lemma InitReady(descs: seq<Desc>, completion: seq<nat>)
    requires Runs.ResetOk(descs, completion)
    ensures Ready(Init(descs, completion))
  {
    InitInv(descs, completion);
  }

  lemma StepReady(s: Sys, a: Action)
    requires Inv(s) && Ready(s) && (a.Report? && Enabled(s, a) ==> Marked(s.x.t, a.n))
    ensures Ready(Step(s, a))
  {
    if Enabled(s, a) {
      match a {
        case Xmit(d) => {
          StepKeeps(s, a);
          XmitReady(s, d);
        }
        case CleanerStep => CleanerReady(s);
        case _ => DeviceReady(s, a);
      }
    }
  }

  lemma {:induction false} RunReady(descs: seq<Desc>, completion: seq<nat>, acts: seq<Action>)
    requires Runs.ResetOk(descs, completion) && MarksFirst(Init(descs, completion), acts)
    ensures Ready(Run(Init(descs, completion), acts))
    decreases |acts|
  {
    hide Inv, Marked, Enabled;
    if acts == [] {
      InitReady(descs, completion);
    } else {
      var before, a := acts[..|acts| - 1], acts[|acts| - 1];
      RunReady(descs, completion, before);
      RunKeeps(descs, completion, before);
      var s := Run(Init(descs, completion), before);
      hide Ready, Step;
      StepReady(s, a);
    }
  }

  /** The round frees exactly the buffers up to the last report. */
  ghost predicate FreesReported(s: Sys) {
    && s.reports != [] && s.reports[|s.reports| - 1] < |s.posted|
    && Step(s, CleanerStep).x.t.freed == Skbs(s.posted[..s.reports[|s.reports| - 1] + 1])
  }

  lemma ReadyRound(s: Sys)
    requires Inv(s) && Ready(s) && s.x.pc == Runs.Locked && s.atCheck == |s.reports|
    ensures FreesReported(s)
  {
    RoundFrees(s);
    ReportIsAhead(s);
    hide Inv, Marked, Step, Skbs, Ok;
  }

  /** For a device that marks before it reports, in every run: a round that finds no report newer than its check
      frees exactly the reported buffers. */
  lemma ReportedAreFreed(descs: seq<Desc>, completion: seq<nat>, acts: seq<Action>)
    requires Runs.ResetOk(descs, completion) && MarksFirst(Init(descs, completion), acts)
    ensures var s := Run(Init(descs, completion), acts);
            s.x.pc == Runs.Locked && s.atCheck == |s.reports| ==> FreesReported(s)
  {
    RunKeeps(descs, completion, acts);
    RunReady(descs, completion, acts);
    var s := Run(Init(descs, completion), acts);
    hide Inv, Run, MarksFirst, Ready, FreesReported, Init;
    if s.x.pc == Runs.Locked && s.atCheck == |s.reports| { ReadyRound(s); }
  }

  /** Five steps from the check on: the device completes the oldest buffer in the ring and reports it, and the
      cleaner goes on to its exchange. */
  ghost function LateReport(s: Sys): Sys
    requires Ok(s.x.t)
  {
    var u := Step(Step(s, Complete(s.x.t.cons)), Report(Left(s.x.t)));
    Step(Step(Step(u, CleanerStep), CleanerStep), CleanerStep)
  }

  lemma MarkedHead(t: Tx)
    requires Ok(t) && |InRing(t)| > 0
    ensures Marked(t.(completion := t.completion[t.cons := TX_COMPLETION_OKAY]), Left(t))
  {
  }

  /** A report that comes after the check is acted on without effect: the word is zero again, and the buffer,
      marked and reported, has not been freed. */
  lemma LateReportStays(s: Sys)
    requires Inv(s) && s.x.pc == Runs.Locked && Left(s.x.t) < |s.posted| && Enabled(s, Report(Left(s.x.t)))
    ensures var n, e := Left(s.x.t), LateReport(s);
            && Marked(Step(s, Complete(s.x.t.cons)).x.t, n) && n in e.reports
            && e.x.gcAddr == 0 && e.x.pc == Runs.Out && |e.x.t.freed| == n
  {
    var n, a := Left(s.x.t), Complete(s.x.t.cons);
    var b := Step(s, a);
    StepKeeps(s, a);
    LateReported(s);
    var c := Step(b, Report(n));
    StepKeeps(b, Report(n));
    hide Inv, Marked, Step, Enabled, Ok;
    RoundFrees(c);
    RoundThenOut(c);
    assert n == c.reports[|c.reports| - 1];
  }

  lemma LateReported(s: Sys)
    requires Inv(s) && s.x.pc == Runs.Locked && Left(s.x.t) < |s.posted| && Enabled(s, Report(Left(s.x.t)))
    ensures var n, b := Left(s.x.t), Step(s, Complete(s.x.t.cons)); var c := Step(b, Report(n));
            Marked(b.x.t, n) && c.x.pc == Runs.Locked && Left(c.x.t) == n && c.reports == s.reports + [n]
  {
    MarkedHead(s.x.t);
    hide Runs.Inv, Marked, OwnAddresses, ReportsOk, Covered, Contents;
  }

  /** Undisturbed, the cleaner leaves after the round. */
  lemma RoundThenOut(s: Sys)
    requires Inv(s) && s.x.pc == Runs.Locked
    ensures var d := Step(s, CleanerStep); var e := Step(Step(d, CleanerStep), CleanerStep);
            e.x.pc == Runs.Out && e.x.gcAddr == 0 && e.x.t == d.x.t && e.reports == s.reports
  {
    CleanerKeeps(s);
    var d := Step(s, CleanerStep);
    assert Ok(d.x.t);
    hide Inv, Ok, Clean;
  }

  /** There it stays until the next report, whatever else happens. */
  lemma {:induction false} KeptUntilReport(s: Sys, acts: seq<Action>)
    requires s.x.pc == Runs.Out && s.x.gcAddr == 0 && forall a :: a in acts ==> !a.Report?
    ensures var e := Run(s, acts);
            e.x.pc == Runs.Out && e.x.gcAddr == 0 && e.x.t.freed == s.x.t.freed
    decreases |acts|
  {
    if acts != [] {
      var u, a := Run(s, acts[..|acts| - 1]), acts[|acts| - 1];
      KeptUntilReport(s, acts[..|acts| - 1]);
      if a.Xmit? && Enabled(u, a) { var k := CheckMoves(u.x.t); }
      hide Check, Ok;
    }
  }

  // ----- addresses that are mapped again -----------------------------------------------------

  /** What the round read is reported position `r`; no buffer behind it that was posted by then has its address. */
  ghost predicate ReadOk(s: Sys) {
    Runs.InWindow(s.x) && 0 < s.x.seen <= |s.reports| ==>
      var r := s.reports[s.x.seen - 1];
      && r < s.atRead <= |s.posted| && s.x.last == s.posted[r].dma
      && forall k :: r < k < s.atRead ==> s.posted[k].dma != s.x.last
  }

  lemma LockedReadOk(s: Sys)
    requires Inv(s) && s.x.pc == Runs.Locked && Enabled(s, CleanerStep)
    ensures ReadOk(Step(s, CleanerStep))
  {
    ReportIsAhead(s);
    hide Runs.Inv, InOrder, Clean, Ok;
  }

  /** Other steps leave alone what the round read. */
  lemma StepFrame(s: Sys, a: Action)
    requires !(a.CleanerStep? && s.x.pc == Runs.Locked)
    ensures var n := Step(s, a);
            && n.x.seen == s.x.seen && n.x.last == s.x.last && n.atRead == s.atRead
            && s.posted <= n.posted && s.reports <= n.reports && (Runs.InWindow(n.x) ==> Runs.InWindow(s.x))
  {
    hide Runs.Enabled, Check, Clean, Store, Full, Contents;
  }

  lemma ReadOkStays(s: Sys, n: Sys)
    requires ReadOk(s) && s.x.seen <= |s.reports| && n.x.seen == s.x.seen && n.x.last == s.x.last
    requires n.atRead == s.atRead && s.posted <= n.posted && s.reports <= n.reports
    requires Runs.InWindow(n.x) ==> Runs.InWindow(s.x)
    ensures ReadOk(n)
  {
  }

  lemma StepReadOk(s: Sys, a: Action)
    requires Inv(s) && ReadOk(s)
    ensures ReadOk(Step(s, a))
  {
    SeenBound(s);
    if a.CleanerStep? && s.x.pc == Runs.Locked {
      if Enabled(s, a) { LockedReadOk(s); }
    } else {
      StepFrame(s, a);
      ReadOkStays(s, Step(s, a));
    }
    hide Inv, Step, ReadOk;
  }

  lemma SeenBound(s: Sys)
    requires Inv(s)
    ensures s.x.seen <= |s.reports| == |s.x.written|
  {
    hide Conserved, InOrder, OwnAddresses;
  }

  lemma {:induction false} RunReadOk(descs: seq<Desc>, completion: seq<nat>, acts: seq<Action>)
    requires Runs.ResetOk(descs, completion)
    ensures ReadOk(Run(Init(descs, completion), acts))
    decreases |acts|
  {
    hide Step, Inv;
    if acts != [] {
      RunReadOk(descs, completion, acts[..|acts| - 1]);
      RunKeeps(descs, completion, acts[..|acts| - 1]);
      hide ReadOk;
      StepReadOk(Run(Init(descs, completion), acts[..|acts| - 1]), acts[|acts| - 1]);
    }
  }

  /** The latest report is of a buffer posted since the round read the word, at the address of the buffer the
      round went by, which it has freed. */
  ghost predicate Recycled(s: Sys) {
    && 0 < s.x.seen < |s.reports|
    && var r, n := s.reports[s.x.seen - 1], s.reports[|s.reports| - 1];
       r < |s.x.t.freed| && s.atRead <= n && r < n < |s.posted| && s.posted[n].dma == s.posted[r].dma
  }

  lemma RepeatIsRecycled(s: Sys)
    requires Inv(s) && ReadOk(s) && Runs.RepeatedLate(s.x)
    ensures Recycled(s)
  {
    SeenBound(s);
    assert s.x.seen > 0 by { hide Conserved, InOrder, OwnAddresses, ReportsOk; }
    hide Runs.Inv, InOrder;
    var r, n := s.reports[s.x.seen - 1], s.reports[|s.reports| - 1];
    assert r < n && s.posted[n].dma == s.x.last;
  }

  /** In every run, a report that the exchange loses is of such a recycled address. */
  lemma OnlyRecycledIsLost(descs: seq<Desc>, completion: seq<nat>, acts: seq<Action>)
    requires Runs.ResetOk(descs, completion) && Runs.RepeatedLate(Run(Init(descs, completion), acts).x)
    ensures Recycled(Run(Init(descs, completion), acts))
  {
    hide Inv, ReadOk, Run, Recycled, Runs.RepeatedLate, Init;
    RunKeeps(descs, completion, acts);
    RunReadOk(descs, completion, acts);
    RepeatIsRecycled(Run(Init(descs, completion), acts));
  }

  /** And such a report is lost: posted, and reported before the comparison, with the cleaner going on to its
      exchange. */
  lemma RecycledIsLost(s: Sys, d: Desc)
    requires Inv(s) && s.x.pc == Runs.Compare && s.x.seen == |s.x.written| && Enabled(s, Xmit(d)) && Room(s.x.t)
    requires d.dma == s.x.last
    ensures var n := |s.posted|;
            var e := Step(Step(Step(Step(s, Xmit(d)), Report(n)), CleanerStep), CleanerStep);
            && n in e.reports && e.posted == s.posted + [d] && |e.x.t.freed| <= n
            && e.x.pc == Runs.Out && e.x.gcAddr == 0 && e.x.seen < |e.x.written|
  {
    SameFreed(s, d);
    CompareFacts(s);
    hide Inv;
    LostSteps(Step(s, Xmit(d)), |s.posted|);
  }

  lemma CompareFacts(s: Sys)
    requires Inv(s) && s.x.pc == Runs.Compare
    ensures s.x.last != 0 && |s.x.t.freed| <= |s.posted| && (s.x.seen == |s.x.written| ==> s.x.gcAddr == s.x.last)
    ensures forall r :: r in s.reports ==> r < |s.posted|
  {
    hide Conserved, OwnAddresses;
  }

  lemma LostSteps(u: Sys, n: nat)
    requires Ok(u.x.t) && u.x.pc == Runs.Compare && u.x.seen == |u.x.written| && u.x.gcAddr == u.x.last != 0
    requires n < |u.posted| && u.posted[n].dma == u.x.last && forall r :: r in u.reports ==> r < n
    ensures var e := Step(Step(Step(u, Report(n)), CleanerStep), CleanerStep);
            && n in e.reports && e.posted == u.posted && e.x.t == u.x.t
            && e.x.pc == Runs.Out && e.x.gcAddr == 0 && e.x.seen < |e.x.written|
  {
    hide Ok;
    var v := Step(u, Report(n));
    assert v.reports == u.reports + [n] && v.x.gcAddr == v.x.last && v.x.pc == Runs.Compare;
    hide Check, Clean, Store;
  }

  lemma SameFreed(s: Sys, d: Desc)
    requires Inv(s) && Enabled(s, Xmit(d)) && Room(s.x.t)
    ensures var u := Step(s, Xmit(d));
            && u.x.t.freed == s.x.t.freed && Ok(u.x.t) && u.x == s.x.(t := u.x.t, accepted := u.x.accepted)
            && u.posted == s.posted + [d] && u.reports == s.reports
  {
    XmitKeeps(s, d);
    XmitInOrder(s.x.t, s.posted, d);
    assert Ok(Step(s, Xmit(d)).x.t);
    hide Check, Store, Inv, InOrder, Ok;
  }
}
