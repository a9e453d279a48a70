/** Which frames find room: a good frame is committed exactly if in each of its clocks, the preamble's included, the
    slot written next lies no more than 480 beyond the read count seen then.  In the preamble's clock that slot may
    still be the one behind a frame just forgotten, and then the new frame is lost whatever its size. */
module RxRoom {
  import opened Ring
  import M = RxMacInterface
  import opened RxFraming

  /** The slot to be written lies no more than 480 beyond the read count. */
  predicate Near(x: Both, c: Clock) { x.m.auxCount <= c.rdSeen + 480 }

  ghost predicate AllNear(x: Both, cs: seq<Clock>)
    requires M.Typed(x.m)
    decreases |cs|
  {
    cs == [] || (Near(x, cs[0]) && (TypedOn(x, cs[0]); AllNear(Next(x, cs[0]), cs[1..])))
  }

  /** The interface in order, `rd` being the last read count seen. */
  ghost predicate InOrder(x: Both, rd: nat) { M.Inv(x.m, |x.m.stream|, rd) && Tracks(x.m, x.w) }

  /** The MAC's beat comes with a read count that is no older than the last and was reached. */
  predicate Follows(x: Both, rd: nat, c: Clock) { FromMac(x.w, c.beat) && rd <= c.rdSeen <= |x.m.stream| }

  predicate Ends(b: M.Beat) { b.good || b.bad }

  /** Clocks of a frame, the last of them not its end. */
  ghost predicate Body(x: Both, rd: nat, cs: seq<Clock>)
    requires M.Typed(x.m)
    decreases |cs|
  {
    cs == [] ||
    (Follows(x, rd, cs[0]) && !Ends(cs[0].beat) && (TypedOn(x, cs[0]); Body(Next(x, cs[0]), cs[0].rdSeen, cs[1..])))
  }

  /** A frame is being taken; the registered difference is the true one of the clock before. */
  ghost predicate Taking(x: Both, rd: nat) {
    && InOrder(x, rd) && x.m.r.fsm == M.Receive && x.w.at == Frame(x.m.cur, false)
    && x.m.r.diff + x.m.diffRd == x.m.diffAux
  }

  /** A frame that is being dropped and goes on. */
  ghost predicate Lost(x: Both) {
    M.Typed(x.m) && x.m.r.fsm == M.Drop && !x.m.r.goodReg && !x.m.r.badReg && x.w.at.Frame?
  }

  /** A clock keeps the interface in order. */
  lemma OrderOn(x: Both, rd: nat, c: Clock)
    requires InOrder(x, rd) && Follows(x, rd, c)
    ensures M.Typed(x.m) && M.Inv(Next(x, c).m, |x.m.stream|, c.rdSeen) && Tracks(Next(x, c).m, Next(x, c).w)
  {
    hide M.Inv, Tracks, M.Tick, Hear;
    M.CountsInOrder(x.m, |x.m.stream|, rd);
    M.ReadKeeps(x.m, |x.m.stream|, rd, |x.m.stream|, c.rdSeen);
    LegalBeat(x.m, x.w, c.beat);
    M.TickKeeps(x.m, c.beat, |x.m.stream|, c.rdSeen);
    assert M.Typed(x.m) by { TypedIs(x.m, |x.m.stream|, rd); }
    TracksOn(x.m, x.w, c.beat, c.rdSeen);
  }

  lemma TypedIs(m: M.Mac, rdCount: nat, rd: nat)
    requires M.Inv(m, rdCount, rd)
    ensures M.Typed(m)
  {
  }

  /** The registered difference of the next clock: the true distance of this one. */
  lemma DiffIs(x: Both, rd: nat, c: Clock)
    requires M.Typed(x.m) && M.AuxNear(x.m, rd, 484) && rd <= c.rdSeen <= |x.m.stream|
    ensures var n := Next(x, c).m;
            n.r.diff + n.diffRd == n.diffAux && n.diffAux == x.m.auxCount && n.diffRd == c.rdSeen
    ensures NearlyFull(Next(x, c).m) <==> !Near(x, c)
  {
    M.DiffStep(x.m, c.rdSeen, 484);
    hide Sub, Add, Hear, M.Header;
  }

  lemma AuxIsNear(x: Both, rd: nat)
    requires InOrder(x, rd) && x.m.r.fsm == M.Receive
    ensures M.Typed(x.m) && M.AuxNear(x.m, rd, 484)
  {
    hide M.Pending, M.Encoded, Holds;
  }

  /** The registers and the wire in a clock of a frame. */
  lemma TakesOn(x: Both, c: Clock)
    requires M.Typed(x.m) && x.m.r.fsm == M.Receive && x.w.at == Frame(x.m.cur, false)
    requires FromMac(x.w, c.beat) && !Ends(c.beat)
    ensures var n := Next(x, c);
            if NearlyFull(x.m) then Lost(n)
            else n.m.r.fsm == M.Receive && n.w.at == Frame(n.m.cur, false) && n.m.stream == x.m.stream
  {
    TypedOn(x, c);
    hide Sub, Add, M.Header;
    assert x.m.cur + c.beat.data[..0] == x.m.cur;
  }

  lemma BodyOn(x: Both, rd: nat, c: Clock)
    requires Taking(x, rd) && Follows(x, rd, c) && !Ends(c.beat)
    ensures var n := Next(x, c);
            if NearlyFull(x.m) then Lost(n) else Taking(n, c.rdSeen) && (NearlyFull(n.m) <==> !Near(x, c))
  {
    hide M.Inv, Tracks, Next, Lost, Near, NearlyFull;
    AuxIsNear(x, rd);
    OrderOn(x, rd, c);
    TakesOn(x, c);
    DiffIs(x, rd, c);
  }

  lemma LostOn(x: Both, c: Clock)
    requires Lost(x) && FromMac(x.w, c.beat)
    ensures Next(x, c).m.r.fsm != M.Commit && (!Ends(c.beat) ==> Lost(Next(x, c)))
  {
    TypedOn(x, c);
    hide Sub, Add;
  }

  lemma {:induction false} StaysLost(x: Both, rd: nat, body: seq<Clock>, e: Clock)
    requires Lost(x) && Body(x, rd, body) && FromMac(Go(x, body).w, e.beat)
    ensures Next(Go(x, body), e).m.r.fsm != M.Commit
    decreases |body|
  {
    hide Next;
    if body == [] {
      LostOn(x, e);
    } else {
      LostOn(x, body[0]);
      hide Lost;
      StaysLost(Next(x, body[0]), body[0].rdSeen, body[1..], e);
    }
  }

  lemma EndOn(x: Both, e: Clock)
    requires M.Typed(x.m) && x.m.r.fsm == M.Receive && e.beat.good
    ensures Next(x, e).m.r.fsm == M.Commit <==> !NearlyFull(x.m)
  {
    hide Sub, Add, Hear;
  }

  lemma {:induction false} FrameIff(x: Both, rd: nat, body: seq<Clock>, e: Clock)
    requires Taking(x, rd) && M.Typed(x.m) && Body(x, rd, body)
    requires FromMac(Go(x, body).w, e.beat) && e.beat.good
    ensures Next(Go(x, body), e).m.r.fsm == M.Commit <==> !NearlyFull(x.m) && AllNear(x, body)
    decreases |body|
  {
    hide Next, NearlyFull, InOrder, FromMac, Near;
    if body == [] {
      EndOn(x, e);
    } else {
      var n := Next(x, body[0]);
      BodyOn(x, rd, body[0]);
      TypedOn(x, body[0]);
      hide Taking, Lost;
      if NearlyFull(x.m) {
        StaysLost(n, body[0].rdSeen, body[1..], e);
      } else {
        FrameIff(n, body[0].rdSeen, body[1..], e);
      }
    }
  }

  /** An interface that waits between frames, with its write pointer past the committed one. */
  ghost predicate Waiting(x: Both, rd: nat) {
    InOrder(x, rd) && x.m.r.fsm == M.Idle && x.w.at.Gap? && M.AuxNear(x.m, rd, 484)
  }

  lemma PreambleStarts(x: Both, rd: nat, p: Clock)
    requires Waiting(x, rd) && Follows(x, rd, p) && p.beat.valid > 0
    ensures M.Typed(x.m) && M.Typed(Next(x, p).m)
    ensures var n := Next(x, p);
            Taking(n, p.rdSeen) && n.m.stream == x.m.stream && (NearlyFull(n.m) <==> !Near(x, p))
  {
    OrderOn(x, rd, p);
    TypedOn(x, p);
    DiffIs(x, rd, p);
    hide M.Inv, Tracks, M.NextRing, Sub, Add, Near, NearlyFull;
  }

  /** In a waiting interface, a frame that the MAC ends as good is up for publication exactly if in every clock
      before its last the slot to be written was near enough. */
  lemma CommittedIff(x: Both, rd: nat, p: Clock, body: seq<Clock>, e: Clock)
    requires Waiting(x, rd) && Follows(x, rd, p) && p.beat.valid > 0 && M.Typed(x.m) && M.Typed(Next(x, p).m)
    requires Body(Next(x, p), p.rdSeen, body) && FromMac(Go(Next(x, p), body).w, e.beat) && e.beat.good
    ensures Next(Go(Next(x, p), body), e).m.r.fsm == M.Commit <==> Near(x, p) && AllNear(Next(x, p), body)
  {
    hide Next, InOrder, FromMac, Near, Waiting, Follows, Taking;
    PreambleStarts(x, rd, p);
    FrameIff(Next(x, p), p.rdSeen, body, e);
  }

  /** While a frame is taken, that slot is behind its header and the bytes so far. */
  lemma SlotInFrame(x: Both, rd: nat)
    requires Taking(x, rd)
    ensures x.m.auxCount == |x.m.stream| + 1 + (|x.w.at.bytes| + 7) / 8
  {
    hide M.Encoded, Holds;
  }

  /** And before it, it is the one behind the header slot, if the interface has waited a clock since the last. */
  lemma SlotAfterGap(x: Both, c: Clock)
    requires M.Typed(x.m) && x.m.r.fsm == M.Idle
    ensures Next(x, c).m.auxCount == |Next(x, c).m.stream| + 1
  {
  }

  lemma {:induction false} Grows(x: Both, rd: nat, body: seq<Clock>)
    requires M.Typed(x.m) && x.w.at.Frame? && Body(x, rd, body)
    ensures Go(x, body).w.at.Frame? && |x.w.at.bytes| <= |Go(x, body).w.at.bytes|
    decreases |body|
  {
    if body != [] {
      TypedOn(x, body[0]);
      hide M.Tick, M.Typed;
      Grows(Next(x, body[0]), body[0].rdSeen, body[1..]);
    }
  }

  lemma {:induction false} NearIf(x: Both, rd: nat, body: seq<Clock>)
    requires Taking(x, rd) && M.Typed(x.m) && !NearlyFull(x.m) && Body(x, rd, body) && Go(x, body).w.at.Frame?
    requires |x.m.stream| + 1 + (|Go(x, body).w.at.bytes| + 7) / 8 <= rd + 480
    ensures AllNear(x, body)
    decreases |body|
  {
    hide Next, NearlyFull, InOrder, Hear, FromMac;
    if body != [] {
      Grows(x, rd, body);
      SlotInFrame(x, rd);
      BodyOn(x, rd, body[0]);
      SameStream(x, body[0]);
      hide Taking;
      NearIf(Next(x, body[0]), body[0].rdSeen, body[1..]);
    }
  }

  lemma SameStream(x: Both, c: Clock)
    requires M.Typed(x.m) && x.m.r.fsm != M.Commit
    ensures Next(x, c).m.stream == x.m.stream && M.Typed(Next(x, c).m)
  {
    TypedOn(x, c);
    hide M.NextRegs, M.NextRing, Hear;
  }

  /** So a good frame is up for publication if it comes after a gap and all its qwords lie within 480 of the read
      count seen before it. */
  lemma FittingIsCommitted(x: Both, rd: nat, p: Clock, body: seq<Clock>, e: Clock)
    requires Waiting(x, rd) && Follows(x, rd, p) && p.beat.valid > 0 && M.Typed(x.m) && M.Typed(Next(x, p).m)
    requires Body(Next(x, p), p.rdSeen, body) && FromMac(Go(Next(x, p), body).w, e.beat) && e.beat.good
    requires x.m.auxCount == |x.m.stream| + 1 && Go(Next(x, p), body).w.at.Frame?
    requires |x.m.stream| + 1 + (|Go(Next(x, p), body).w.at.bytes| + 7) / 8 <= rd + 480
    ensures Next(Go(Next(x, p), body), e).m.r.fsm == M.Commit
  {
    hide Next, InOrder, FromMac, Waiting, Taking, Go, NearlyFull;
    PreambleStarts(x, rd, p);
    NearIf(Next(x, p), p.rdSeen, body);
    CommittedIff(x, rd, p, body, e);
  }
}
