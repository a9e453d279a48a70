/** What is committed is returned: in the runs of RxPipeline the trigger sees what RxTriggerProgress asks for, so
    its bound holds there, and what it has closed is on returned pages as soon as the writer has caught up. */
module RxProgress {
  import opened LbufApi
  import opened Ring
  import opened RxPipeline
  import F = RxFraming
  import G = RxTriggerProgress
  import H = RxTriggerPatience
  import T = RxTlpTrigger
  import M = RxMacInterface
  import W = RxWrPktToHugepages

  /** The run from its front. */
  ghost function From(s: Rx, acts: seq<Action>): Rx
    decreases |acts|
  {
    if acts == [] then s else From(Step(s, acts[0]), acts[1..])
  }

  lemma {:induction false} FromIsRun(s: Rx, a: seq<Action>, b: seq<Action>)
    ensures Run(s, a + b) == From(Run(s, a), b)
    decreases |b|
  {
    hide Step;
    if b == [] {
      assert a + b == a;
    } else {
      var c := a + [b[0]];
      assert c[..|a|] == a && c + b[1..] == a + b;
      FromIsRun(s, c, b[1..]);
    }
  }

  /** What the trigger sees in its clocks of a run. */
  ghost function Seen(s: Rx, acts: seq<Action>): seq<G.Input>
    decreases |acts|
  {
    if acts == [] then []
    else
      var a := acts[0];
      (if a.TriggerTick? && Enabled(s, a)
       then [G.Input(|s.mac.stream|, a.accept && s.link.None?, a.accept && s.link.None?)] else [])
      + Seen(Step(s, a), acts[1..])
  }

  /** Other parts leave the trigger alone, and the committed stream only grows. */
  lemma OtherStep(s: Rx, a: Action)
    requires Inv(s) && !(a.TriggerTick? && Enabled(s, a))
    ensures Step(s, a).trg == s.trg && |s.mac.stream| <= |Step(s, a).mac.stream|
  {
    if a.MacTick? && Enabled(s, a) { MacGrows(s, a.beat); }
    hide Inv, W.Serve, W.TakePage, M.Tick;
  }

  lemma MacGrows(s: Rx, b: M.Beat)
    requires Inv(s) && Enabled(s, MacTick(b))
    ensures |s.mac.stream| <= |M.Tick(s.mac, b, s.rdSeen).stream|
  {
    hide Inv;
  }

  lemma TriggerStepIs(s: Rx, accept: bool)
    requires s.trg.r.Typed()
    ensures var n, ack := Step(s, TriggerTick(accept)), accept && s.link.None?;
            n.trg == G.Next(s.trg, G.Input(|s.mac.stream|, ack, ack)) && n.mac == s.mac
  {
    hide T.Tick;
  }

  /** The trigger's clocks of a run follow the committed count and lead to the same trigger. */
  lemma {:induction false} SeenFollows(s: Rx, acts: seq<Action>, wrCount: nat)
    requires Inv(s) && wrCount <= |s.mac.stream|
    ensures G.Follows(s.trg, wrCount, Seen(s, acts)) && G.After(s.trg, Seen(s, acts)) == From(s, acts).trg
    decreases |acts|
  {
    hide Inv, Step, T.Legal, G.Next;
    if acts != [] {
      var a := acts[0];
      var n := Step(s, a);
      StepKeeps(s, a);
      if a.TriggerTick? && Enabled(s, a) {
        TriggerLegal(s);
        TriggerStepIs(s, a.accept);
        SeenFollows(n, acts[1..], |s.mac.stream|);
        assert Seen(s, acts)[1..] == Seen(n, acts[1..]);
      } else {
        OtherStep(s, a);
        SeenFollows(n, acts[1..], wrCount);
        assert [] + Seen(n, acts[1..]) == Seen(n, acts[1..]);
      }
    }
  }

  /** When the link holds nothing, the returned pages hold all that the trigger has closed. */
  lemma ReturnedUpToStart(s: Rx)
    requires Inv(s) && s.link.None?
    ensures |s.ends| > 0 && s.ends[|s.ends| - 1] == s.trg.start
  {
    hide M.Inv, W.Inv, T.Inv, PagesAre, AllMarks, IsMark, SeenMarks;
  }

  /** In every run of the receive path: once the trigger, after the steps `a`, has had as many clocks of its own
      as the measure says for the first `c` qwords that it has seen committed, they are all on closed pages, and
      on returned ones if the writer has served all requests. */
  lemma ReturnedInTime(aux0: nat, diff0: nat, ring0: seq<Qword>, a: seq<Action>, b: seq<Action>, c: nat)
    requires ResetOk(aux0, diff0, ring0)
    requires var s := Run(Init(aux0, diff0, ring0), a);
             c <= s.trg.snap && c <= |s.mac.stream| && G.Working(s.trg, Seen(s, b)) >= G.Clocks(s.trg, c)
    ensures var e := Run(Init(aux0, diff0, ring0), a + b);
            e.trg.start >= c && (e.link.None? ==> |e.ends| > 0 && e.ends[|e.ends| - 1] >= c)
  {
    hide Inv, Run, Init, G.Clocks, From, Seen;
    var s := Run(Init(aux0, diff0, ring0), a);
    RunKeeps(aux0, diff0, ring0, a);
    RunKeeps(aux0, diff0, ring0, a + b);
    SeenFollows(s, b, |s.mac.stream|);
    FromIsRun(Init(aux0, diff0, ring0), a, b);
    assert T.Inv(s.trg, |s.mac.stream|) by { TriggerInv(s); }
    G.ClosedInTime(s.trg, |s.mac.stream|, Seen(s, b), c);
    if From(s, b).link.None? { ReturnedUpToStart(From(s, b)); }
  }

  /** What the writer does with the request that the link holds, given a page: one TLP or two, and it is taken. */
  ghost function Serving(s: Rx, addr: nat): Rx { Step(Step(Step(s, TakePage(addr)), Serve), Serve) }

  lemma ServeStep(s: Rx)
    requires Inv(s) && s.link.Some? && s.wr.r.ready
    ensures var n := Step(s, Serve);
            && n.trg == s.trg && n.link == (if W.Takes(s.wr.r, s.link.value) then T.None else s.link)
            && (n.link.Some? ==> n.wr.r.ready && n.wr.r.remember)
  {
    hide Inv, W.ServedTlp, M.Typed;
    RingIs(s);
  }

  lemma RingIs(s: Rx)
    requires Inv(s)
    ensures |s.mac.ring| == RING
  {
    hide M.StateInv, M.Encoded, W.Inv, TriggerSide, PagesAre, OpenPage, AllMarks, F.Framed;
  }

  lemma ServedInThree(s: Rx, addr: nat)
    requires Inv(s) && addr % W.PAGE_BYTES == 0
    ensures Inv(Serving(s, addr)) && Serving(s, addr).link.None? && Serving(s, addr).trg == s.trg
  {
    hide Inv, W.Serve;
    var a := Step(s, TakePage(addr));
    StepKeeps(s, TakePage(addr));
    assert a.wr.r.ready && a.trg == s.trg && a.link == s.link;
    var b := Step(a, Serve);
    StepKeeps(a, Serve);
    StepKeeps(b, Serve);
    if a.link.Some? {
      ServeStep(a);
      if b.link.Some? { ServeStep(b); }
    }
  }

  /** Committed qwords reach the host: in every run of the receive path, once the trigger has had the clocks that the
      measure says, a page and two services later the first `c` of them are on returned pages. */
  lemma CommittedAreReturned(aux0: nat, diff0: nat, ring0: seq<Qword>, a: seq<Action>, b: seq<Action>, c: nat,
                             addr: nat)
    requires ResetOk(aux0, diff0, ring0) && addr % W.PAGE_BYTES == 0
    requires var s := Run(Init(aux0, diff0, ring0), a);
             c <= s.trg.snap && c <= |s.mac.stream| && G.Working(s.trg, Seen(s, b)) >= G.Clocks(s.trg, c)
    ensures var e := Serving(Run(Init(aux0, diff0, ring0), a + b), addr);
            |e.ends| > 0 && e.ends[|e.ends| - 1] >= c
  {
    hide Inv, Run, Init, G.Clocks, G.Working, From, Seen, Serving;
    ReturnedInTime(aux0, diff0, ring0, a, b, c);
    RunKeeps(aux0, diff0, ring0, a + b);
    var e := Run(Init(aux0, diff0, ring0), a + b);
    ServedInThree(e, addr);
    ReturnedUpToStart(Serving(e, addr));
  }

  /** And no sooner than it has to be: in every run of the receive path the trigger hands over a page's end only
      if the batch it found last does not fit, or if it had waited for more than 0xA000 clocks on end. */
  lemma ClosedOnlyIfDue(aux0: nat, diff0: nat, ring0: seq<Qword>, acts: seq<Action>, i: G.Input)
    requires ResetOk(aux0, diff0, ring0)
    ensures var w := H.Watched(H.Start(), Seen(Init(aux0, diff0, ring0), acts));
            w.t == Run(Init(aux0, diff0, ring0), acts).trg && H.ClosesDue(w, i)
  {
    hide Inv, Run, From, Seen, H.ClosesDue, H.Watched;
    var s := Init(aux0, diff0, ring0);
    InitInv(aux0, diff0, ring0);
    SeenFollows(s, acts, 0);
    FromIsRun(s, [], acts);
    assert [] + acts == acts;
    assert Run(s, []) == s by { RunNone(s); }
    H.ClosedOnlyIfDue(Seen(s, acts), i);
  }

  lemma RunNone(s: Rx)
    ensures Run(s, []) == s
  {
  }

  lemma TriggerInv(s: Rx)
    requires Inv(s)
    ensures T.Inv(s.trg, |s.mac.stream|)
  {
    hide M.Inv, W.Inv, T.Inv, LinkInv, PagesAre, OpenPage, AllMarks, IsMark, SeenMarks;
  }
}
