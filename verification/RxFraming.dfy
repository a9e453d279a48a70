/** Frames as the MAC's beats carry them, told from the beats alone, and what the receive interface makes of
    them.  The two agree as long as no frame begins in the clock after one that met the nearly full ring in
    its very last clock; a frame that does loses its first beat of data. */
module RxFraming {
  import opened LbufApi
  import opened Ring
  import opened RxMacInterface

  /** Between frames or in one.  `late`: the frame before met the nearly full ring in its last clock and not
      earlier.  `full`: the ring was nearly full in some clock of this frame. */
  datatype Framing = Gap(late: bool) | Frame(bytes: seq<Byte>, full: bool)

  /** What has come over the wire: the good frames that never met the nearly full ring, and whether every
      frame so far kept clear of the clock after a late one. */
  datatype Wire = Wire(at: Framing, kept: seq<seq<Byte>>, clear: bool)

  const SILENCE: Wire := Wire(Gap(false), [], true)

  function Bytes(b: Beat): seq<Byte> { if b.valid <= 8 then b.data[..b.valid] else b.data }

  /** A gap ends with the first valid beat, which is the preamble; a frame's bytes are those of the beats after
      it, up to the one that comes with good or bad. */
  function Hear(w: Wire, b: Beat, nearlyFull: bool): Wire {
    match w.at
    case Gap(late) =>
      if b.valid > 0 then Wire(Frame([], false), w.kept, w.clear && !late) else w.(at := Gap(false))
    case Frame(bytes, full) =>
      var more, met := bytes + Bytes(b), full || nearlyFull;
      if b.good then Wire(Gap(met && !full), if met then w.kept else w.kept + [more], w.clear)
      else if b.bad then w.(at := Gap(met && !full))
      else w.(at := Frame(more, met))
  }

  /** What the MAC delivers: a preamble fills a beat, only a frame's last data beat may be partial, and good
      or bad come with frames only. */
  predicate FromMac(w: Wire, b: Beat) {
    && b.valid <= 8
    && match w.at
       case Gap(_) => (b.valid == 0 || b.valid == 8) && !b.good && !b.bad
       case Frame(bytes, _) => b.valid > 0 ==> |bytes| % 8 == 0
  }

  predicate NearlyFull(m: Mac) { m.r.diff > MAX_DIFF }

  /** The bytes of the frame in progress, if any. */
  function SoFar(at: Framing): seq<Byte> { if at.Frame? then at.bytes else [] }

  // ----- the interface against the wire ------------------------------------------------------

  /** In every run, clear or not: how far the interface and the wire can be apart. */
  ghost predicate Tracks(m: Mac, w: Wire) {
    match m.r.fsm
    case Idle => m.cur == [] && (w.at.Frame? ==> w.at.bytes == [])
    case Receive => |SoFar(w.at)| % 8 == 0 ==> |m.cur| % 8 == 0
    case Commit => w.at.Gap?
    case Drop => m.cur == [] && (m.r.goodReg || m.r.badReg ==> w.at.Gap?)
  }

  /** In a clear run they are together: the frame in progress is the wire's, what is committed is what the
      wire keeps, and a frame being dropped is one that met the nearly full ring. */
  ghost predicate Together(m: Mac, w: Wire) {
    match m.r.fsm
    case Idle => w.at == Gap(false) && w.kept == m.frames && m.cur == []
    case Receive => w.at == Frame(m.cur, false) && w.kept == m.frames
    case Commit => w.at == Gap(false) && w.kept == m.frames + [m.cur]
    case Drop =>
      && w.kept == m.frames && m.cur == []
      && (if m.r.goodReg || m.r.badReg then w.at == Gap(true) else w.at.Frame? && w.at.full)
  }

  ghost predicate Framed(m: Mac, w: Wire) { Tracks(m, w) && (w.clear ==> Together(m, w)) }

  lemma StartsFramed(aux0: nat, diff0: nat, ring0: seq<Qword>)
    ensures Framed(Init(aux0, diff0, ring0), SILENCE)
  {
  }

  /** A beat the MAC delivers is one the interface can place. */
  lemma LegalBeat(m: Mac, w: Wire, b: Beat)
    requires Tracks(m, w) && FromMac(w, b)
    ensures Legal(m, b)
  {
  }

  lemma TracksOn(m: Mac, w: Wire, b: Beat, rdSeen: nat)
    requires Typed(m) && Tracks(m, w) && FromMac(w, b)
    ensures Tracks(Tick(m, b, rdSeen), Hear(w, b, NearlyFull(m)))
  {
    hide Sub, Add, Header;
    assert [] + b.data[..0] == [];
    if m.r.fsm == Receive { EightMore(|SoFar(w.at)|, b.valid, |m.cur|); }
  }

  /** Lengths that are multiples of eight together stay so together, and end so together. */
  lemma EightMore(a: nat, valid: nat, c: nat)
    requires valid <= 8 && (a % 8 == 0 ==> c % 8 == 0)
    ensures a % 8 == 0 && (a + valid) % 8 == 0 ==> (c + valid) % 8 == 0
    ensures valid == 8 && c % 8 == 0 ==> (c + valid) % 8 == 0
  {
  }

  lemma TogetherOn(m: Mac, w: Wire, b: Beat, rdSeen: nat)
    requires Typed(m) && Together(m, w) && FromMac(w, b) && Hear(w, b, NearlyFull(m)).clear
    ensures Together(Tick(m, b, rdSeen), Hear(w, b, NearlyFull(m)))
  {
    hide Sub, Add, Header;
    assert m.cur + b.data[..0] == m.cur;
  }

  /** Each clock keeps both. */
  lemma FramedOn(m: Mac, w: Wire, b: Beat, rdSeen: nat)
    requires Typed(m) && Framed(m, w) && FromMac(w, b)
    ensures Framed(Tick(m, b, rdSeen), Hear(w, b, NearlyFull(m)))
  {
    TracksOn(m, w, b, rdSeen);
    if Hear(w, b, NearlyFull(m)).clear {
      assert w.clear;
      TogetherOn(m, w, b, rdSeen);
    }
    hide Tracks, Together, Tick;
  }

  /** In a clear run the committed frames are the good ones that never met the nearly full ring; the latest of
      them may still be one clock away. */
  lemma KeptIsCommitted(m: Mac, w: Wire)
    requires Framed(m, w) && w.clear
    ensures w.kept == if m.r.fsm == Commit then m.frames + [m.cur] else m.frames
    ensures m.frames <= w.kept
  {
  }

  /** In a clear run a frame is up for publication exactly after the clock in which the MAC ends a good one
      that has not met the nearly full ring, and then with all its bytes. */
  lemma CommitIffGood(m: Mac, w: Wire, b: Beat, rdSeen: nat)
    requires Typed(m) && Framed(m, w) && FromMac(w, b) && Hear(w, b, NearlyFull(m)).clear
    ensures var n := Tick(m, b, rdSeen);
            n.r.fsm == Commit <==> w.at.Frame? && b.good && !w.at.full && !NearlyFull(m)
    ensures var n := Tick(m, b, rdSeen);
            n.r.fsm == Commit ==> w.at.Frame? && n.cur == w.at.bytes + Bytes(b)
  {
    hide Sub, Add, Header;
    assert m.cur + b.data[..0] == m.cur;
  }

  // ----- the clock after a late frame --------------------------------------------------------

  datatype Clock = Clock(beat: Beat, rdSeen: nat)

  /** The interface and what has come over the wire. */
  datatype Both = Both(m: Mac, w: Wire)

  ghost function Next(x: Both, c: Clock): Both
    requires Typed(x.m)
  {
    Both(Tick(x.m, c.beat, c.rdSeen), Hear(x.w, c.beat, NearlyFull(x.m)))
  }

  lemma TypedOn(x: Both, c: Clock)
    requires Typed(x.m)
    ensures Typed(Next(x, c).m)
  {
    hide Sub, Add, Header;
  }

  ghost function Go(x: Both, cs: seq<Clock>): (y: Both)
    requires Typed(x.m)
    ensures Typed(y.m)
    decreases |cs|
  {
    if cs == [] then x else (TypedOn(x, cs[0]); Go(Next(x, cs[0]), cs[1..]))
  }

  /** A clock of a frame that does not end it, with room in the ring. */
  ghost predicate Amid(x: Both, c: Clock) { FromMac(x.w, c.beat) && !c.beat.good && !c.beat.bad && !NearlyFull(x.m) }

  ghost predicate AllAmid(x: Both, cs: seq<Clock>)
    requires Typed(x.m)
    decreases |cs|
  {
    cs == [] || (Amid(x, cs[0]) && (TypedOn(x, cs[0]); AllAmid(Next(x, cs[0]), cs[1..])))
  }

  predicate Silent(b: Beat) { b.valid == 0 && !b.good && !b.bad }

  /** The bytes of the first beat with data. */
  function FirstData(cs: seq<Clock>): seq<Byte> {
    if cs == [] then [] else if cs[0].beat.valid > 0 then Bytes(cs[0].beat) else FirstData(cs[1..])
  }

  /** In the same frame, of which the interface has not had the bytes `missing`. */
  ghost predicate Behind(x: Both, missing: seq<Byte>) {
    Typed(x.m) && x.m.r.fsm == Receive && x.w.at == Frame(missing + x.m.cur, false)
  }

  lemma BehindOn(x: Both, c: Clock, missing: seq<Byte>)
    requires Behind(x, missing) && Amid(x, c)
    ensures Behind(Next(x, c), missing) && Next(x, c).w.kept == x.w.kept
  {
    TypedOn(x, c);
    hide Sub, Add;
    assert x.m.cur + c.beat.data[..0] == x.m.cur;
    assert (missing + x.m.cur) + Bytes(c.beat) == missing + (x.m.cur + Bytes(c.beat));
  }

  lemma {:induction false} StaysBehind(x: Both, cs: seq<Clock>, missing: seq<Byte>)
    requires Behind(x, missing) && AllAmid(x, cs)
    ensures Behind(Go(x, cs), missing) && Go(x, cs).w.kept == x.w.kept
    decreases |cs|
  {
    if cs != [] {
      BehindOn(x, cs[0], missing);
      hide Next, Behind, Amid;
      StaysBehind(Next(x, cs[0]), cs[1..], missing);
    }
  }

  /** A frame whose preamble the interface has missed. */
  ghost predicate Unaware(x: Both) { Typed(x.m) && x.m.r.fsm == Idle && x.m.cur == [] && x.w.at == Frame([], false) }

  lemma UnawareOn(x: Both, c: Clock)
    requires Unaware(x) && Amid(x, c)
    ensures var y := Next(x, c);
            y.w.kept == x.w.kept && if c.beat.valid > 0 then Behind(y, Bytes(c.beat)) else Unaware(y)
  {
    TypedOn(x, c);
    hide Sub, Add;
    assert [] + Bytes(c.beat) == Bytes(c.beat) + [];
    assert [] + c.beat.data[..0] == [];
  }

  /** It takes the first beat of data for the preamble. */
  lemma {:induction false} FallsBehind(x: Both, cs: seq<Clock>)
    requires Unaware(x) && AllAmid(x, cs) && FirstData(cs) != []
    ensures Behind(Go(x, cs), FirstData(cs)) && Go(x, cs).w.kept == x.w.kept
    decreases |cs|
  {
    UnawareOn(x, cs[0]);
    hide Next, Behind, Unaware, Amid, Bytes;
    if cs[0].beat.valid > 0 {
      StaysBehind(Next(x, cs[0]), cs[1..], Bytes(cs[0].beat));
    } else {
      FallsBehind(Next(x, cs[0]), cs[1..]);
    }
  }

  /** Between frames: waiting, or with one clock of dropping to go. */
  ghost predicate Resting(x: Both, dropping: bool) {
    && Typed(x.m) && x.m.cur == [] && x.w.at.Gap?
    && (if dropping then x.m.r.fsm == Drop && (x.m.r.goodReg || x.m.r.badReg) else x.m.r.fsm == Idle)
  }

  /** So it is after a frame whose last clock was the first in which it met the nearly full ring. */
  lemma DroppedAtItsEnd(x: Both, c: Clock)
    requires Typed(x.m) && x.m.r.fsm == Receive && x.w.at.Frame? && NearlyFull(x.m) && (c.beat.good || c.beat.bad)
    ensures Resting(Next(x, c), true) && Next(x, c).w.kept == x.w.kept
  {
    TypedOn(x, c);
    hide Sub, Add;
  }

  /** One silent clock ends the dropping. */
  lemma RestingOn(x: Both, dropping: bool, c: Clock)
    requires Resting(x, dropping) && Silent(c.beat)
    ensures Resting(Next(x, c), false) && Next(x, c).w.kept == x.w.kept
  {
    TypedOn(x, c);
    hide Sub, Add;
  }

  lemma {:induction false} StaysResting(x: Both, dropping: bool, cs: seq<Clock>)
    requires Resting(x, dropping) && forall i :: 0 <= i < |cs| ==> Silent(cs[i].beat)
    ensures Resting(Go(x, cs), dropping && cs == []) && Go(x, cs).w.kept == x.w.kept
    decreases |cs|
  {
    if cs != [] {
      RestingOn(x, dropping, cs[0]);
      hide Next, Resting, Silent;
      StaysResting(Next(x, cs[0]), false, cs[1..]);
    }
  }

  /** The preamble starts a frame in an interface that waits, and is lost on one that is still dropping. */
  lemma PreambleOn(x: Both, dropping: bool, p: Clock)
    requires Resting(x, dropping) && p.beat.valid == 8
    ensures var y := Next(x, p);
            y.w.kept == x.w.kept && if dropping then Unaware(y) else Behind(y, [])
  {
    TypedOn(x, p);
    hide Sub, Add;
    assert [] + Next(x, p).m.cur == [];
  }

  lemma GoodEnd(x: Both, e: Clock, missing: seq<Byte>)
    requires Behind(x, missing) && FromMac(x.w, e.beat) && e.beat.good && !NearlyFull(x.m)
    ensures var y := Next(x, e);
            y.m.r.fsm == Commit && y.w.kept == x.w.kept + [missing + y.m.cur]
  {
    hide Sub, Add;
    assert x.m.cur + e.beat.data[..0] == x.m.cur;
    assert (missing + x.m.cur) + Bytes(e.beat) == missing + (x.m.cur + Bytes(e.beat));
  }

  /** From `x`, where the preamble has just gone by: data, and a good end, never with a nearly full ring. */
  ghost predicate GoodFrame(x: Both, body: seq<Clock>, e: Clock)
    requires Typed(x.m)
  {
    && AllAmid(x, body) && FirstData(body) != []
    && var y := Go(x, body);
       FromMac(y.w, e.beat) && e.beat.good && !NearlyFull(y.m)
  }

  /** The frame that the wire has kept since is the one now up for publication, but for what is missing. */
  ghost predicate UpBut(kept: seq<seq<Byte>>, y: Both, missing: seq<Byte>) {
    y.m.r.fsm == Commit && y.w.kept == kept + [missing + y.m.cur]
  }

  /** A frame ended in the clock in which it was dropped.  After a gap of silent clocks comes another, which is
      good and never meets the nearly full ring.  It is up for publication whole exactly if the gap is not
      empty; without a gap its first beat of data is missing. */
  lemma NextFrameIff(x: Both, gap: seq<Clock>, p: Clock, body: seq<Clock>, e: Clock)
    requires Resting(x, true) && (forall i :: 0 <= i < |gap| ==> Silent(gap[i].beat)) && p.beat.valid == 8
    requires Typed(Next(Go(x, gap), p).m) && GoodFrame(Next(Go(x, gap), p), body, e)
    ensures var y := Next(Go(Next(Go(x, gap), p), body), e);
            && UpBut(x.w.kept, y, if gap == [] then FirstData(body) else [])
            && (UpBut(x.w.kept, y, []) <==> gap != [])
  {
    hide Next, Resting, Behind, Unaware, Silent, AllAmid, FromMac, NearlyFull;
    StaysResting(x, true, gap);
    var a := Go(x, gap);
    PreambleOn(a, gap == [], p);
    var b := Next(a, p);
    if gap == [] { FallsBehind(b, body); } else { StaysBehind(b, body, []); }
    GoodEnd(Go(b, body), e, if gap == [] then FirstData(body) else []);
    OnlyOneMissing(x.w.kept, Next(Go(b, body), e), FirstData(body));
  }

  lemma OnlyOneMissing(kept: seq<seq<Byte>>, y: Both, missing: seq<Byte>)
    requires missing != []
    ensures !(UpBut(kept, y, missing) && UpBut(kept, y, []))
  {
    assert |missing + y.m.cur| > |[] + y.m.cur|;
    assert (kept + [missing + y.m.cur])[|kept|] == missing + y.m.cur;
    assert (kept + [[] + y.m.cur])[|kept|] == [] + y.m.cur;
  }

  lemma GoOn(x: Both, cs: seq<Clock>)
    requires Typed(x.m) && cs != []
    ensures Typed(Next(x, cs[0]).m) && Go(x, cs) == Go(Next(x, cs[0]), cs[1..])
  {
    TypedOn(x, cs[0]);
    hide Next, Typed;
  }

  /** The five clocks after the first: the end in the dropping clock, and all of the next frame. */
  lemma LateFrameHurts(a: Both, on: Clock, gone: Clock, end: Clock, quiet: Clock, p: Qword, q: Qword)
    requires Typed(a.m) && a.m.r.fsm == Receive && NearlyFull(a.m) && a.m.frames == []
    requires a.m.r.aux == 1 && a.m.r.wrCommit == 0 && a.m.stream == []
    requires a.w == Wire(Frame([], false), [], true)
    requires on == Clock(Beat(p, 8, false, false), 0) && gone == Clock(Beat(p, 0, true, false), 0)
    requires end == Clock(Beat(q, 8, true, false), 0) && quiet == Clock(Beat(p, 0, false, false), 0)
    ensures var y := Go(a, [gone, on, on, end, quiet]);
            y.m.frames == [q] && y.w.kept == [p + q] && !y.w.clear
  {
    assert p[..8] == p && q[..8] == q && p + [] == p && [] + q == q;
    DroppedAtItsEnd(a, gone);
    var b := Next(a, gone);
    assert b.w == Wire(Gap(true), [], true) && b.m.frames == [];
    PreambleOn(b, true, on);
    var c := Next(b, on);
    assert !c.w.clear && c.w.kept == [] && c.m.frames == [] && c.m.r.aux == 1;
    UnawareOn(c, on);
    var d := Next(c, on);
    assert !d.w.clear && d.m.frames == [] && d.m.r.diff == 1 && d.m.cur == [];
    assert d.w == Wire(Frame(p, false), [], false);
    GoodEnd(d, end, p);
    var e := Next(d, end);
    assert e.w == Wire(Gap(false), [p + q], false) && e.m.frames == [] && e.m.cur == q;
    var f := Next(e, quiet);
    assert f.w == Wire(Gap(false), [p + q], false) && f.m.frames == [q];
    hide Next, Typed, Resting, Behind, Unaware, Hear, Tick;
    GoOn(a, [gone, on, on, end, quiet]);
    GoOn(b, [on, on, end, quiet]);
    GoOn(c, [on, end, quiet]);
    GoOn(d, [end, quiet]);
    GoOn(e, [quiet]);
    assert Go(f, []) == f;
  }

  /** Six clocks from reset with a register that happens to hold 500: an empty frame ends in the clock that
      drops it, a preamble follows at once, and then the qwords `p` and `q`.  What is committed is `q`. */
  lemma FirstQwordIsLost(ring0: seq<Qword>, p: Qword, q: Qword)
    requires |ring0| == RING
    ensures var x := Both(Init(500, 0, ring0), SILENCE);
            var on, gone := Clock(Beat(p, 8, false, false), 0), Clock(Beat(p, 0, true, false), 0);
            var y := Go(x, [on, gone, on, on, Clock(Beat(q, 8, true, false), 0), Clock(Beat(p, 0, false, false), 0)]);
            y.m.frames == [q] && y.w.kept == [p + q] && !y.w.clear
  {
    var x := Both(Init(500, 0, ring0), SILENCE);
    var on, gone := Clock(Beat(p, 8, false, false), 0), Clock(Beat(p, 0, true, false), 0);
    var end, quiet := Clock(Beat(q, 8, true, false), 0), Clock(Beat(p, 0, false, false), 0);
    var a := Next(x, on);
    assert a.m.r.diff == 500 && a.m.frames == [] && a.w == Wire(Frame([], false), [], true);
    GoOn(x, [on, gone, on, on, end, quiet]);
    hide Next, Typed;
    LateFrameHurts(a, on, gone, end, quiet, p, q);
  }
}
