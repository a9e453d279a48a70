/** What the endpoint takes from the shared bus: whole TLPs one after the other, each with its words in order, its
    first beat and its last marked, whoever sends it and however the endpoint stalls. */
module BusTlps {
  import opened EndpointBus

  datatype Beat = Beat(td: bv64, tremN: bv8, sof: bool, eof: bool)

  datatype Kind = ReadRequest | Completion | Notification | PageData | PageEnd

  /** A TLP with the words given for it so far; `ended` if there will be no more. */
  datatype Tlp = Tlp(kind: Kind, words: seq<bv64>, ended: bool)

  /** The last beat of a completion word holds four bytes only. */
  function LastRem(k: Kind): bv8 { if k == Completion then 0x0F else 0 }

  function BeatOf(t: Tlp, i: nat): Beat
    requires i < |t.words|
  {
    var last := t.ended && i == |t.words| - 1;
    Beat(t.words[i], if last then LastRem(t.kind) else 0, i == 0, last)
  }

  function BeatsOf(t: Tlp): seq<Beat> { seq(|t.words|, i requires 0 <= i < |t.words| => BeatOf(t, i)) }

  function AllBeats(ts: seq<Tlp>): seq<Beat> {
    if ts == [] then [] else AllBeats(ts[..|ts| - 1]) + BeatsOf(ts[|ts| - 1])
  }

  /** The number of beats, where the kind determines it. */
  predicate RightLength(t: Tlp) {
    match t.kind
    case ReadRequest => |t.words| == 2
    case PageData => |t.words| >= 3
    case _ => |t.words| == 3
  }

  /** The bus, the beats that the endpoint has taken, and the TLPs that its two sides have begun. */
  datatype Sys = Sys(b: Bus, taken: seq<Beat>, tlps: seq<Tlp>)

  function Seen(b: Bus): Lines { Merge(b.rx.lines, b.tx.lines) }

  function OnBus(l: Lines): seq<Beat> { if l.srcN then [] else [Beat(l.td, l.tremN, !l.sofN, !l.eofN)] }

  function Begun(ts: seq<Tlp>, k: Kind, w: bv64): seq<Tlp> { ts + [Tlp(k, [w], false)] }

  function Added(ts: seq<Tlp>, w: bv64, ended: bool): seq<Tlp> {
    if ts == [] then ts
    else ts[|ts| - 1 := ts[|ts| - 1].(words := ts[|ts| - 1].words + [w], ended := ended)]
  }

  /** The words that the receive side gives: header, address, and qwords or the page's count. */
  function FromRx(ts: seq<Tlp>, r: RxDriver, i: RxIn): seq<Tlp> {
    match r.fsm
    case R2 => Begun(ts, PageData, i.word)
    case R8 => Begun(ts, PageEnd, i.word)
    case R3 => if i.ready then Added(ts, i.word, false) else ts
    case R4 => if i.ready then Added(ts, i.word, i.lastQword) else ts
    case R9 => if i.ready then Added(ts, i.word, false) else ts
    case R10 => if i.ready then Added(ts, i.word, true) else ts
    case _ => ts
  }

  /** And the transmit side: header, address, and what is written. */
  function FromTx(ts: seq<Tlp>, t: TxDriver, i: TxIn): seq<Tlp> {
    match t.fsm
    case T1 => Begun(ts, ReadRequest, i.word)
    case T4 => Begun(ts, Completion, i.word)
    case T9 => Begun(ts, Notification, i.word)
    case T2 => if i.ready then Added(ts, i.word, true) else ts
    case T5 => if i.ready then Added(ts, i.word, false) else ts
    case T6 => if i.ready then Added(ts, i.word, true) else ts
    case T10 => if i.ready then Added(ts, i.word, false) else ts
    case T11 => if i.ready then Added(ts, i.word, true) else ts
    case _ => ts
  }

  /** Both sides see the same ready signal. */
  function Step(s: Sys, i: Input): Sys {
    if i.rx.ready != i.tx.ready then s
    else Sys(Tick(s.b, i), if i.rx.ready then s.taken + OnBus(Seen(s.b)) else s.taken,
             FromTx(FromRx(s.tlps, s.b.rx, i.rx), s.b.tx, i.tx))
  }

  function Run(ins: seq<Input>): Sys
    decreases |ins|
  {
    if ins == [] then Sys(RESET, [], []) else Step(Run(ins[..|ins| - 1]), ins[|ins| - 1])
  }

  // ----- the invariant -----------------------------------------------------------------------

  predicate Whole(ts: seq<Tlp>) { forall i :: 0 <= i < |ts| ==> ts[i].ended && RightLength(ts[i]) }

  /** All TLPs but the last are whole; the last, of the kind, has as many words. */
  predicate Open(ts: seq<Tlp>, k: Kind, n: nat) {
    ts != [] && Whole(ts[..|ts| - 1]) && ts[|ts| - 1].kind == k && !ts[|ts| - 1].ended && |ts[|ts| - 1].words| == n
  }

  /** What a side's lines have to be for the next beat to come out right. */
  predicate Between(l: Lines, sof: bool, src: bool) {
    l.sofN == !sof && l.eofN && l.srcN == !src && l.tremN == 0
  }

  /** The last beat is on the bus. */
  predicate Ending(l: Lines) { l.sofN && !l.eofN && !l.srcN }

  predicate RxPhase(r: RxDriver, ts: seq<Tlp>) {
    match r.fsm
    case R3 => Open(ts, PageData, 1) && Between(r.lines, true, true)
    case R4 => ts != [] && Open(ts, PageData, |ts[|ts| - 1].words|) && |ts[|ts| - 1].words| >= 2
               && Between(r.lines, false, !r.lines.srcN)
    case R6 => ts != [] && Open(ts, PageData, |ts[|ts| - 1].words|) && |ts[|ts| - 1].words| >= 2
               && Between(r.lines, false, !r.lines.srcN)
    case R7 => ts != [] && Open(ts, PageData, |ts[|ts| - 1].words|) && |ts[|ts| - 1].words| >= 2
               && Between(r.lines, false, false)
    case R9 => Open(ts, PageEnd, 1) && Between(r.lines, true, true)
    case R10 => Open(ts, PageEnd, 2) && Between(r.lines, false, true)
    case R5 => Whole(ts) && Ending(r.lines)
    case R11 => Whole(ts) && Ending(r.lines)
    case _ => Whole(ts) && r.lines.srcN && r.lines.sofN && r.lines.eofN
  }

  predicate TxPhase(t: TxDriver, ts: seq<Tlp>) {
    match t.fsm
    case T2 => Open(ts, ReadRequest, 1) && Between(t.lines, true, true)
    case T5 => Open(ts, Completion, 1) && Between(t.lines, true, true)
    case T6 => Open(ts, Completion, 2) && Between(t.lines, false, true)
    case T10 => Open(ts, Notification, 1) && Between(t.lines, true, true)
    case T11 => Open(ts, Notification, 2) && Between(t.lines, false, true)
    case T3 => Whole(ts) && Ending(t.lines)
    case T7 => Whole(ts) && Ending(t.lines)
    case _ => Whole(ts) && t.lines.srcN && t.lines.sofN && t.lines.eofN
  }

  predicate Phase(b: Bus, ts: seq<Tlp>) {
    if b.rx.driving then RxPhase(b.rx, ts) && b.tx.fsm == T0
    else if b.tx.driving then TxPhase(b.tx, ts) else Whole(ts)
  }

  predicate Inv(s: Sys) {
    && EndpointBus.Inv(s.b) && Phase(s.b, s.tlps) && s.taken + OnBus(Seen(s.b)) == AllBeats(s.tlps)
  }

  // ----- beats -------------------------------------------------------------------------------

  lemma BeginBeat(ts: seq<Tlp>, k: Kind, w: bv64)
    requires Whole(ts)
    ensures AllBeats(Begun(ts, k, w)) == AllBeats(ts) + [Beat(w, 0, true, false)] && Open(Begun(ts, k, w), k, 1)
  {
    var n := Begun(ts, k, w);
    assert n[..|n| - 1] == ts;
    assert BeatsOf(Tlp(k, [w], false)) == [Beat(w, 0, true, false)];
  }

  lemma AddBeat(ts: seq<Tlp>, k: Kind, c: nat, w: bv64, ended: bool)
    requires Open(ts, k, c) && c >= 1
    ensures var n := Added(ts, w, ended);
            && AllBeats(n) == AllBeats(ts) + [Beat(w, if ended then LastRem(k) else 0, false, ended)]
            && (!ended ==> Open(n, k, c + 1))
  {
    var n, t := Added(ts, w, ended), ts[|ts| - 1];
    assert n[..|n| - 1] == ts[..|ts| - 1];
    var m := n[|n| - 1];
    assert BeatsOf(m) == BeatsOf(t) + [Beat(w, if ended then LastRem(k) else 0, false, ended)] by {
      forall i | 0 <= i < |t.words| ensures BeatOf(m, i) == BeatOf(t, i) {
      }
    }
  }

  /** What a clock does to the beats of the driving side: with the endpoint ready the beat on the bus is taken and
      what is there next is new; without, it stays, or there was none and a new one comes. */
  predicate Flows(ready: bool, l: Lines, n: Lines, ts: seq<Tlp>, ns: seq<Tlp>) {
    if !ready && OnBus(l) != [] then OnBus(n) == OnBus(l) && AllBeats(ns) == AllBeats(ts)
    else AllBeats(ns) == AllBeats(ts) + OnBus(n)
  }

  /** A TLP's last word makes it whole. */
  lemma EndsWhole(ts: seq<Tlp>, k: Kind, c: nat, w: bv64)
    requires Open(ts, k, c) && RightLength(Tlp(k, ts[|ts| - 1].words + [w], true))
    ensures Whole(Added(ts, w, true))
  {
    var n := Added(ts, w, true);
    assert n[..|n| - 1] == ts[..|ts| - 1];
    forall i | 0 <= i < |n| ensures n[i].ended && RightLength(n[i]) {
      if i < |n| - 1 { assert n[i] == ts[..|ts| - 1][i]; }
    }
  }

  /** The receive side where it begins a TLP, and where it has none. */
  lemma RxStarts(r: RxDriver, ts: seq<Tlp>, turn: bool, i: RxIn)
    requires RxPhase(r, ts) && r.fsm !in {R3, R4, R5, R6, R7, R9, R10, R11}
    ensures var n, ns := NextRx(r, turn, i), FromRx(ts, r, i);
            RxPhase(n, ns) && Flows(i.ready, r.lines, n.lines, ts, ns)
  {
    hide Whole, AllBeats, Begun;
    if r.fsm == R2 { BeginBeat(ts, PageData, i.word); }
    if r.fsm == R8 { BeginBeat(ts, PageEnd, i.word); }
    hide Open;
  }

  lemma RxData(r: RxDriver, ts: seq<Tlp>, turn: bool, i: RxIn)
    requires RxPhase(r, ts) && r.fsm in {R3, R4, R5, R6, R7}
    ensures var n, ns := NextRx(r, turn, i), FromRx(ts, r, i);
            RxPhase(n, ns) && Flows(i.ready, r.lines, n.lines, ts, ns)
  {
    hide Whole, AllBeats;
    if i.ready && (r.fsm == R3 || r.fsm == R4) {
      var c := |ts[|ts| - 1].words|;
      AddBeat(ts, PageData, c, i.word, r.fsm == R4 && i.lastQword);
      if r.fsm == R4 && i.lastQword { EndsWhole(ts, PageData, c, i.word); }
    }
  }

  lemma RxEnd(r: RxDriver, ts: seq<Tlp>, turn: bool, i: RxIn)
    requires RxPhase(r, ts) && r.fsm in {R9, R10, R11}
    ensures var n, ns := NextRx(r, turn, i), FromRx(ts, r, i);
            RxPhase(n, ns) && Flows(i.ready, r.lines, n.lines, ts, ns)
  {
    hide Whole, AllBeats;
    if i.ready && r.fsm == R9 { AddBeat(ts, PageEnd, 1, i.word, false); }
    if i.ready && r.fsm == R10 {
      AddBeat(ts, PageEnd, 2, i.word, true);
      EndsWhole(ts, PageEnd, 2, i.word);
    }
  }

  lemma RxOn(r: RxDriver, ts: seq<Tlp>, turn: bool, i: RxIn)
    requires RxPhase(r, ts)
    ensures var n, ns := NextRx(r, turn, i), FromRx(ts, r, i);
            RxPhase(n, ns) && Flows(i.ready, r.lines, n.lines, ts, ns)
  {
    hide RxPhase, NextRx, FromRx, Flows;
    if r.fsm in {R3, R4, R5, R6, R7} {
      RxData(r, ts, turn, i);
    } else if r.fsm in {R9, R10, R11} {
      RxEnd(r, ts, turn, i);
    } else {
      RxStarts(r, ts, turn, i);
    }
  }

  lemma TxStarts(t: TxDriver, ts: seq<Tlp>, turn: bool, i: TxIn)
    requires TxPhase(t, ts) && t.fsm !in {T2, T3, T5, T6, T7, T10, T11}
    ensures var n, ns := NextTx(t, turn, i), FromTx(ts, t, i);
            TxPhase(n, ns) && Flows(i.ready, t.lines, n.lines, ts, ns)
  {
    hide Whole, AllBeats, Begun;
    if t.fsm == T1 { BeginBeat(ts, ReadRequest, i.word); }
    if t.fsm == T4 { BeginBeat(ts, Completion, i.word); }
    if t.fsm == T9 { BeginBeat(ts, Notification, i.word); }
    hide Open;
  }

  lemma TxGoes(t: TxDriver, ts: seq<Tlp>, turn: bool, i: TxIn)
    requires TxPhase(t, ts) && t.fsm in {T2, T3, T5, T6, T7, T10, T11}
    ensures var n, ns := NextTx(t, turn, i), FromTx(ts, t, i);
            TxPhase(n, ns) && Flows(i.ready, t.lines, n.lines, ts, ns)
  {
    hide Whole, AllBeats, BeatsOf, RightLength;
    if i.ready && t.fsm != T3 && t.fsm != T7 {
      var k := if t.fsm == T2 then ReadRequest else if t.fsm == T5 || t.fsm == T6 then Completion else Notification;
      var c := if t.fsm == T6 || t.fsm == T11 then 2 else 1;
      var ended := t.fsm == T2 || t.fsm == T6 || t.fsm == T11;
      AddBeat(ts, k, c, i.word, ended);
      if ended { EndsWhole(ts, k, c, i.word); }
    }
  }

  lemma TxOn(t: TxDriver, ts: seq<Tlp>, turn: bool, i: TxIn)
    requires TxPhase(t, ts)
    ensures var n, ns := NextTx(t, turn, i), FromTx(ts, t, i);
            TxPhase(n, ns) && Flows(i.ready, t.lines, n.lines, ts, ns)
  {
    hide TxPhase, NextTx, FromTx, Flows;
    if t.fsm in {T2, T3, T5, T6, T7, T10, T11} { TxGoes(t, ts, turn, i); } else { TxStarts(t, ts, turn, i); }
  }

  // ----- runs --------------------------------------------------------------------------------

  lemma SeenIs(b: Bus)
    requires EndpointBus.Inv(b)
    ensures Seen(b) == if b.rx.driving then b.rx.lines else if b.tx.driving then b.tx.lines else IDLE
  {
    MergeIdle(b.rx.lines);
    MergeIdle(b.tx.lines);
    hide Merge;
  }

  lemma TakesOne(taken: seq<Beat>, ready: bool, l: Lines, n: Lines, ts: seq<Tlp>, ns: seq<Tlp>)
    requires Flows(ready, l, n, ts, ns) && taken + OnBus(l) == AllBeats(ts)
    ensures (if ready then taken + OnBus(l) else taken) + OnBus(n) == AllBeats(ns)
  {
    hide AllBeats;
  }

  /** A side that does not drive gives no words, and without the turn it does not begin to. */
  lemma RxRests(r: RxDriver, ts: seq<Tlp>, turn: bool, i: RxIn)
    requires RxOk(r) && !r.driving
    ensures FromRx(ts, r, i) == ts && (Whole(ts) ==> RxPhase(r, ts)) && r.lines == IDLE
    ensures !turn ==> !NextRx(r, turn, i).driving
  {
    hide Whole;
  }

  lemma TxRests(t: TxDriver, ts: seq<Tlp>, turn: bool, i: TxIn)
    requires TxOk(t) && !t.driving
    ensures FromTx(ts, t, i) == ts && (Whole(ts) ==> TxPhase(t, ts)) && t.lines == IDLE && t.fsm == T0
    ensures !turn ==> !NextTx(t, turn, i).driving
  {
    hide Whole;
  }

  lemma LetsGo(r: RxDriver, t: TxDriver, ts: seq<Tlp>)
    ensures RxOk(r) && !r.driving && RxPhase(r, ts) ==> Whole(ts)
    ensures TxOk(t) && !t.driving && TxPhase(t, ts) ==> Whole(ts)
  {
    hide Whole;
  }

  lemma RxDrives(s: Sys, i: Input)
    requires Inv(s) && s.b.rx.driving && i.rx.ready == i.tx.ready
    ensures Inv(Step(s, i))
  {
    hide RxPhase, TxPhase, NextRx, NextTx, FromRx, FromTx, Flows, OnBus, AllBeats, Whole, Merge, RxOk, TxOk;
    hide NextArbiter;
    var n, b := Step(s, i), s.b;
    TickKeeps(b, i);
    SeenIs(b);
    SeenIs(n.b);
    TxIdle(b);
    TxRests(b.tx, FromRx(s.tlps, b.rx, i.rx), b.a.txTurn, i.tx);
    TxRests(n.b.tx, n.tlps, false, i.tx) by { TxIdle(n.b); }
    RxOn(b.rx, s.tlps, b.a.rxTurn, i.rx);
    TakesOne(s.taken, i.rx.ready, b.rx.lines, n.b.rx.lines, s.tlps, n.tlps);
    LetsGo(n.b.rx, n.b.tx, n.tlps);
    RxIdleLines(n.b);
  }

  lemma TxIdle(b: Bus)
    requires EndpointBus.Inv(b)
    ensures RxOk(b.rx) && TxOk(b.tx) && (b.rx.driving ==> !b.tx.driving && !b.a.txTurn)
    ensures b.tx.driving ==> !b.rx.driving && !b.a.rxTurn
  {
    hide RxOk, TxOk;
  }

  lemma RxIdleLines(b: Bus)
    requires EndpointBus.Inv(b)
    ensures !b.rx.driving ==> b.rx.lines == IDLE
    ensures !b.tx.driving ==> b.tx.lines == IDLE && b.tx.fsm == T0
  {
  }

  lemma TxDrives(s: Sys, i: Input)
    requires Inv(s) && s.b.tx.driving && i.rx.ready == i.tx.ready
    ensures Inv(Step(s, i))
  {
    hide RxPhase, TxPhase, NextRx, NextTx, FromRx, FromTx, Flows, OnBus, AllBeats, Whole, Merge, RxOk, TxOk;
    hide NextArbiter;
    var n, b := Step(s, i), s.b;
    TickKeeps(b, i);
    SeenIs(b);
    SeenIs(n.b);
    TxIdle(b);
    RxRests(b.rx, s.tlps, b.a.rxTurn, i.rx);
    TxOn(b.tx, s.tlps, b.a.txTurn, i.tx);
    TakesOne(s.taken, i.rx.ready, b.tx.lines, n.b.tx.lines, s.tlps, n.tlps);
    TxIdle(n.b);
    LetsGo(n.b.rx, n.b.tx, n.tlps);
    RxIdleLines(n.b);
  }

  lemma NoneDrives(s: Sys, i: Input)
    requires Inv(s) && !s.b.rx.driving && !s.b.tx.driving && i.rx.ready == i.tx.ready
    ensures Inv(Step(s, i))
  {
    hide RxPhase, TxPhase, NextRx, NextTx, FromRx, FromTx, Flows, OnBus, AllBeats, Whole, Merge, RxOk, TxOk;
    hide NextArbiter;
    var n, b := Step(s, i), s.b;
    TickKeeps(b, i);
    SeenIs(b);
    SeenIs(n.b);
    TxIdle(b);
    TxIdle(n.b);
    RxRests(b.rx, s.tlps, b.a.rxTurn, i.rx);
    TxRests(b.tx, s.tlps, b.a.txTurn, i.tx);
    RxOn(b.rx, s.tlps, b.a.rxTurn, i.rx);
    TxOn(b.tx, s.tlps, b.a.txTurn, i.tx);
    RxIdleLines(n.b);
    TakesOne(s.taken, i.rx.ready, IDLE, n.b.rx.lines, s.tlps, n.tlps);
    TakesOne(s.taken, i.rx.ready, IDLE, n.b.tx.lines, s.tlps, n.tlps);
  }

  lemma StepKeeps(s: Sys, i: Input)
    requires Inv(s)
    ensures Inv(Step(s, i))
  {
    if i.rx.ready == i.tx.ready {
      if s.b.rx.driving {
        RxDrives(s, i);
      } else if s.b.tx.driving {
        TxDrives(s, i);
      } else {
        NoneDrives(s, i);
      }
    }
    hide Inv, Tick, OnBus, FromRx, FromTx;
  }

  lemma {:induction false} RunKeeps(ins: seq<Input>)
    ensures Inv(Run(ins))
    decreases |ins|
  {
    if ins == [] {
      MergeIdle(IDLE);
    } else {
      hide Step, Inv;
      RunKeeps(ins[..|ins| - 1]);
      StepKeeps(Run(ins[..|ins| - 1]), ins[|ins| - 1]);
    }
  }

  /** In every run of both sides and the arbiter, with any stalls: the beats that the endpoint has taken, with the one
      on the bus, are exactly those of the TLPs begun, one after the other and never interleaved; all of them are
      whole but at most the last. */
  lemma WholeTlps(ins: seq<Input>)
    ensures var s := Run(ins);
            && s.taken + OnBus(Seen(s.b)) == AllBeats(s.tlps)
            && (Whole(s.tlps) || (s.tlps != [] && Whole(s.tlps[..|s.tlps| - 1])))
            && (!s.b.rx.driving && !s.b.tx.driving ==> s.taken == AllBeats(s.tlps) && Whole(s.tlps))
  {
    RunKeeps(ins);
    var s := Run(ins);
    SeenIs(s.b);
    hide Run, AllBeats, Merge;
    RxIdleLines(s.b);
    PhaseWhole(s.b, s.tlps);
    assert s.taken + [] == s.taken;
  }

  lemma PhaseWhole(b: Bus, ts: seq<Tlp>)
    requires Phase(b, ts)
    ensures Whole(ts) || (ts != [] && Whole(ts[..|ts| - 1]))
    ensures !b.rx.driving && !b.tx.driving ==> Whole(ts)
  {
    hide Whole;
  }

  /** A whole TLP's beats: as many as its kind has, the first and only the first marked as the start, the last and
      only the last as the end. */
  lemma WholeBeats(t: Tlp, i: nat)
    requires t.ended && RightLength(t) && i < |t.words|
    ensures BeatsOf(t)[i] == Beat(t.words[i], if i == |t.words| - 1 && t.kind == Completion then 0x0F else 0,
                                  i == 0, i == |t.words| - 1)
    ensures |BeatsOf(t)| >= 2
  {
  }
}
