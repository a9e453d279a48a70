/** The receive MAC interface: writes each frame speculatively into the ring behind the committed
    pointer, publishes it on a good frame and forgets it on a bad or dropped one. */
module RxMacInterface {
  import opened LbufApi
  import opened Ring

  const MAX_DIFF: nat := 0x1E0

  /** rx_fsm: s0 waits for a preamble, s1 takes beats, s2 commits, s3 drops the rest of a frame. */
  datatype Fsm = Idle | Receive | Commit | Drop

  datatype Regs = Regs(fsm: Fsm, byteCounter: nat, aux: nat, diff: nat, wrCommit: nat, goodReg: bool, badReg: bool) {
    ghost predicate Typed() { byteCounter < 0x1_0000 && aux < RING && diff < RING && wrCommit < RING }
  }

  /** One clock of the MAC core: eight byte lanes of which the first `valid` hold data. */
  datatype Beat = Beat(data: Qword, valid: nat, good: bool, bad: bool)

  /** The first qword of a packet: no timestamp, then the byte count. */
  function Header(len: nat): Qword {
    [0, 0, 0, 0, len % 0x100, len / 0x100, 0, 0]
  }

  function NextRegs(r: Regs, b: Beat, rd: nat): Regs
    requires r.Typed() && rd < RING
  {
    var s := r.(diff := Sub(r.aux, rd, RING));
    match r.fsm
    case Idle =>
      s.(byteCounter := 0, aux := Add(r.wrCommit, 1, RING), fsm := if b.valid > 0 then Receive else Idle)
    case Receive =>
      s.(aux := if b.valid > 0 then Add(r.aux, 1, RING) else r.aux,
         byteCounter := (r.byteCounter + b.valid) % 0x1_0000,
         goodReg := b.good, badReg := b.bad,
         fsm := if r.diff > MAX_DIFF then Drop else if b.good then Commit else if b.bad then Idle else Receive)
    case Commit =>
      s.(wrCommit := r.aux, aux := Add(r.aux, 1, RING), byteCounter := 0,
         fsm := if b.valid > 0 then Receive else Idle)
    case Drop =>
      s.(fsm := if b.good || r.goodReg || b.bad || r.badReg then Idle else Drop)
  }

  function NextRing(r: Regs, ring: seq<Qword>, b: Beat): seq<Qword>
    requires r.Typed() && |ring| == RING
  {
    match r.fsm
    case Receive => ring[r.aux := b.data]
    case Commit => ring[r.wrCommit := Header(r.byteCounter)]
    case _ => ring
  }

  /** The interface as the hardware has it: registers and a dual-port ring. */
  class MacInterface {
    var fsm: Fsm
    var byteCounter: nat
    var aux: nat
    var diff: nat
    var wrCommit: nat
    var goodReg: bool
    var badReg: bool
    const ring: array<Qword>

    ghost function State(): Regs
      reads this
    {
      Regs(fsm, byteCounter, aux, diff, wrCommit, goodReg, badReg)
    }

    ghost predicate Valid()
      reads this
    {
      State().Typed() && ring.Length == RING
    }

    /** Reset clears the committed pointer and the state; the other registers keep whatever they hold. */
    constructor (aux0: nat, diff0: nat)
      requires aux0 < RING && diff0 < RING
      ensures Valid() && fresh(ring) && State() == Regs(Idle, 0, aux0, diff0, 0, false, false)
    {
      fsm, byteCounter, aux, diff, wrCommit, goodReg, badReg := Idle, 0, aux0, diff0, 0, false, false;
      ring := new Qword[RING](_ => ZERO_QWORD);
    }

    method Tick(b: Beat, rd: nat)
      requires Valid() && rd < RING && b.valid <= 8
      modifies this, ring
      ensures Valid() && State() == NextRegs(old(State()), b, rd)
      ensures ring[..] == NextRing(old(State()), old(ring[..]), b)
    {
      hide Sub, Add, Header;
      var fill := diff;
      diff := Sub(aux, rd, RING);
      match fsm {
        case Idle =>
          byteCounter := 0;
          aux := Add(wrCommit, 1, RING);
          if b.valid > 0 { fsm := Receive; }
        case Receive =>
          ring[aux] := b.data;
          if b.valid > 0 { aux := Add(aux, 1, RING); }
          byteCounter := (byteCounter + b.valid) % 0x1_0000;
          goodReg, badReg := b.good, b.bad;
          if fill > MAX_DIFF {
            fsm := Drop;
          } else if b.good {
            fsm := Commit;
          } else if b.bad {
            fsm := Idle;
          }
        case Commit =>
          ring[wrCommit] := Header(byteCounter);
          wrCommit := aux;
          aux := Add(aux, 1, RING);
          byteCounter := 0;
          fsm := if b.valid > 0 then Receive else Idle;
        case Drop =>
          if b.good || goodReg || b.bad || badReg { fsm := Idle; }
      }
    }
  }
  // ----- what was committed ------------------------------------------------------------------

  /** The interface with its ring and a record of its run: the qwords and frames committed so far,
      the frame in progress, and the unbounded counts behind `aux` and `diff`. */
  datatype Mac = Mac(r: Regs, ring: seq<Qword>, stream: seq<Qword>, frames: seq<seq<Byte>>,
                     pend: seq<Qword>, cur: seq<Byte>, auxCount: nat, diffAux: nat, diffRd: nat)

  ghost predicate Typed(m: Mac) { m.r.Typed() && |m.ring| == RING }

  /** Only the last data beat of a frame may be partial. */
  predicate Legal(m: Mac, b: Beat) { b.valid <= 8 && (m.r.fsm == Receive && b.valid > 0 ==> |m.cur| % 8 == 0) }

  /** `rdCount` is the read count whose low bits the interface currently sees. */
  function Tick(m: Mac, b: Beat, rdCount: nat): Mac
    requires Typed(m)
  {
    var n := m.(r := NextRegs(m.r, b, rdCount % RING), ring := NextRing(m.r, m.ring, b),
                diffAux := m.auxCount, diffRd := rdCount);
    match m.r.fsm
    case Idle => n.(auxCount := |m.stream| + 1)
    case Receive =>
      if n.r.fsm == Drop || n.r.fsm == Idle then
        n.(pend := [], cur := [], auxCount := m.auxCount + if b.valid > 0 then 1 else 0)
      else if b.valid > 0 && b.valid <= 8 then
        n.(pend := m.pend + [b.data], cur := m.cur + b.data[..b.valid], auxCount := m.auxCount + 1)
      else n
    case Commit =>
      n.(stream := m.stream + [Header(m.r.byteCounter)] + m.pend, frames := m.frames + [m.cur],
         pend := [], cur := [], auxCount := m.auxCount + 1)
    case Drop => n
  }

  function Init(aux0: nat, diff0: nat, ring0: seq<Qword>): Mac {
    Mac(Regs(Idle, 0, aux0, diff0, 0, false, false), ring0, [], [], [], [], 0, 0, 0)
  }

  /** The frame in progress: its bytes fill `pend`, which lies in the ring behind the header slot. */
  ghost predicate Pending(m: Mac) {
    && m.auxCount == |m.stream| + 1 + |m.pend|
    && m.r.aux == m.auxCount % RING
    && m.r.byteCounter == |m.cur|
    && |m.pend| == (|m.cur| + 7) / 8
    && (forall i :: 0 <= i < |m.cur| ==> m.pend[i / 8][i % 8] == m.cur[i])
    && |m.ring| == RING
    && forall j :: 0 <= j < |m.pend| ==> m.ring[(|m.stream| + 1 + j) % RING] == m.pend[j]
  }

  /** `aux` stands past the committed pointer, close enough to the read pointer to be measured. */
  ghost predicate AuxNear(m: Mac, rdSeen: nat, bound: nat) {
    m.r.aux == m.auxCount % RING && |m.stream| < m.auxCount <= rdSeen + bound
  }

  /** The registered difference is the distance one clock ago. */
  ghost predicate DiffOk(m: Mac, rdSeen: nat) {
    m.diffRd <= rdSeen && m.r.diff + m.diffRd == m.diffAux && m.auxCount <= m.diffAux + 1
  }

  ghost predicate StateInv(m: Mac, rdSeen: nat) {
    match m.r.fsm
    case Idle => m.pend == [] && m.cur == [] && (m.stream == [] || AuxNear(m, rdSeen, 484))
    case Receive =>
      Pending(m) && AuxNear(m, rdSeen, 483) && ((m.stream == [] && m.pend == []) || DiffOk(m, rdSeen))
    case Commit => Pending(m) && AuxNear(m, rdSeen, 482)
    case Drop => m.pend == [] && m.cur == [] && AuxNear(m, rdSeen, 484)
  }

  /** The committed stream is the concatenated encoding of the committed frames. */
  ghost predicate Encoded(stream: seq<Qword>, frames: seq<seq<Byte>>) {
    && |stream| == Offset(frames, |frames|)
    && forall k :: 0 <= k < |frames| ==> EncodedAt(stream, Offset(frames, k), frames[k])
  }

  /** `rdCount` qwords have been read; the interface sees the possibly older count `rdSeen`. */
  ghost predicate Inv(m: Mac, rdCount: nat, rdSeen: nat) {
    && Typed(m)
    && rdSeen <= rdCount <= |m.stream| <= rdSeen + 482
    && m.r.wrCommit == |m.stream| % RING
    && Encoded(m.stream, m.frames)
    && Holds(m.ring, m.stream, rdCount, |m.stream|)
    && StateInv(m, rdSeen)
  }

  /** The count of the slot a clock writes, if it writes. */
  function WriteCount(m: Mac): nat { if m.r.fsm == Receive then m.auxCount else |m.stream| }

  lemma DiffStep(m: Mac, rdSeen: nat, bound: nat)
    requires Typed(m) && AuxNear(m, rdSeen, bound) && bound < RING && rdSeen <= |m.stream|
    ensures Sub(m.r.aux, rdSeen % RING, RING) + rdSeen == m.auxCount
  {
    SubIsDistance(m.auxCount, rdSeen, RING);
  }

  lemma IdleKeeps(m: Mac, b: Beat, rdCount: nat, rdSeen: nat)
    requires Inv(m, rdCount, rdSeen) && Legal(m, b) && m.r.fsm == Idle
    ensures Inv(Tick(m, b, rdSeen), rdCount, rdSeen)
  {
    hide Encoded, Holds;
    AddIsShift(|m.stream|, 1, RING);
    if m.stream != [] {
      DiffStep(m, rdSeen, 484);
    }
  }

  lemma DropKeeps(m: Mac, b: Beat, rdCount: nat, rdSeen: nat)
    requires Inv(m, rdCount, rdSeen) && Legal(m, b) && m.r.fsm == Drop
    ensures Inv(Tick(m, b, rdSeen), rdCount, rdSeen)
  {
    hide Encoded, Holds;
  }

  lemma PendStep(m: Mac, b: Beat)
    requires Typed(m) && Pending(m) && Legal(m, b) && m.r.fsm == Receive && b.valid > 0 && |m.pend| < RING - 1
    ensures var n := m.(pend := m.pend + [b.data], cur := m.cur + b.data[..b.valid], auxCount := m.auxCount + 1,
                        ring := m.ring[m.r.aux := b.data],
                        r := m.r.(aux := Add(m.r.aux, 1, RING), byteCounter := (m.r.byteCounter + b.valid) % 0x1_0000));
            Pending(n)
  {
    AddIsShift(m.auxCount, 1, RING);
    var at := |m.stream| + 1;
    var pend, ring := m.pend + [b.data], m.ring[m.r.aux := b.data];
    BytesAppend(m.pend, m.cur, b);
    hide Add;
    forall j | 0 <= j < |pend| ensures ring[(at + j) % RING] == pend[j] {
      if j < |m.pend| { SlotsDiffer(at + j, m.auxCount); }
    }
  }

  lemma BytesAppend(pend: seq<Qword>, cur: seq<Byte>, b: Beat)
    requires |cur| % 8 == 0 && |pend| == |cur| / 8 && 0 < b.valid <= 8
    requires forall i :: 0 <= i < |cur| ==> pend[i / 8][i % 8] == cur[i]
    ensures var longer := cur + b.data[..b.valid];
            && |pend| + 1 == (|longer| + 7) / 8
            && forall i :: 0 <= i < |longer| ==> (pend + [b.data])[i / 8][i % 8] == longer[i]
  {
    var longer := cur + b.data[..b.valid];
    forall i | 0 <= i < |longer| ensures (pend + [b.data])[i / 8][i % 8] == longer[i] {
      if i >= |cur| {
        assert i / 8 == |pend| && i % 8 == i - |cur|;
      }
    }
  }

  lemma ReceiveKeeps(m: Mac, b: Beat, rdCount: nat, rdSeen: nat)
    requires Inv(m, rdCount, rdSeen) && Legal(m, b) && m.r.fsm == Receive
    ensures Inv(Tick(m, b, rdSeen), rdCount, rdSeen)
  {
    hide Encoded, Holds;
    assert m.auxCount == |m.stream| + 1 + |m.pend|;
    hide Pending;
    WriteKeeps(m.ring, m.stream, rdCount, |m.stream|, m.auxCount, b.data) by {
      assert m.r.aux == m.auxCount % RING;
    }
    DiffStep(m, rdSeen, 483);
    AddIsShift(m.auxCount, 1, RING);
    var n := Tick(m, b, rdSeen);
    if n.r.fsm == Receive || n.r.fsm == Commit {
      PendingKept(m, b, rdSeen);
      assert m.auxCount <= rdSeen + 481;
    }
  }

  lemma PendingKept(m: Mac, b: Beat, rdSeen: nat)
    requires Typed(m) && Pending(m) && Legal(m, b) && m.r.fsm == Receive && m.auxCount <= rdSeen + 483
    requires rdSeen <= |m.stream|
    requires Tick(m, b, rdSeen).r.fsm == Receive || Tick(m, b, rdSeen).r.fsm == Commit
    ensures Pending(Tick(m, b, rdSeen))
  {
    hide Add, Sub;
    if b.valid > 0 {
      PendStep(m, b);
    } else {
      BlankKeeps(m, b.data);
    }
  }

  /** A beat without data leaves the frame in progress alone. */
  lemma BlankKeeps(m: Mac, data: Qword)
    requires Typed(m) && Pending(m) && |m.pend| < RING - 1
    ensures Pending(m.(ring := m.ring[m.r.aux := data]))
  {
    hide Add, Sub;
    forall j | 0 <= j < |m.pend|
      ensures m.ring[m.r.aux := data][(|m.stream| + 1 + j) % RING] == m.pend[j]
    {
      SlotsDiffer(|m.stream| + 1 + j, m.auxCount);
    }
  }

  lemma HeaderHoldsLength(len: nat)
    requires len < 0x1_0000
    ensures HighDword(Header(len)) == len && LowDword(Header(len)) == 0
  {
  }

  lemma EncodedAppend(stream: seq<Qword>, frames: seq<seq<Byte>>, longer: seq<Qword>, f: seq<Byte>)
    requires Encoded(stream, frames) && stream <= longer && |longer| == |stream| + FrameQwords(f)
    requires EncodedAt(longer, |stream|, f)
    ensures Encoded(longer, frames + [f])
  {
    hide EncodedAt, FrameQwords;
    var all := frames + [f];
    OffsetAppend(frames, f, |frames|);
    assert Offset(all, |all|) == Offset(all, |frames|) + FrameQwords(all[|frames|]);
    forall k | 0 <= k < |all| ensures EncodedAt(longer, Offset(all, k), all[k]) {
      OffsetAppend(frames, f, k);
      if k < |frames| {
        OldFrameEncoded(stream, longer, Offset(frames, k), frames[k]);
      }
    }
  }

  /** The committed frame is encoded behind the stream. */
  lemma CommitEncodes(m: Mac)
    requires Pending(m) && Encoded(m.stream, m.frames) && |m.cur| < 0x1_0000
    ensures Encoded(m.stream + [Header(m.r.byteCounter)] + m.pend, m.frames + [m.cur])
  {
    var stream := m.stream + [Header(m.r.byteCounter)] + m.pend;
    NewFrameEncoded(m, stream);
    EncodedAppend(m.stream, m.frames, stream, m.cur);
  }

  lemma NewFrameEncoded(m: Mac, stream: seq<Qword>)
    requires Pending(m) && |m.cur| < 0x1_0000 && stream == m.stream + [Header(m.r.byteCounter)] + m.pend
    ensures EncodedAt(stream, |m.stream|, m.cur)
  {
    HeaderHoldsLength(|m.cur|);
    assert stream[|m.stream|] == Header(|m.cur|);
    forall i | 0 <= i < |m.cur| ensures stream[|m.stream| + 1 + i / 8][i % 8] == m.cur[i] {
      assert stream[|m.stream| + 1 + i / 8] == m.pend[i / 8];
    }
  }

  lemma OldFrameEncoded(stream: seq<Qword>, longer: seq<Qword>, at: nat, f: seq<Byte>)
    requires EncodedAt(stream, at, f) && stream <= longer
    ensures EncodedAt(longer, at, f)
  {
    forall i | 0 <= i < |f| ensures longer[at + 1 + i / 8][i % 8] == f[i] {
      assert longer[at + 1 + i / 8] == stream[at + 1 + i / 8];
    }
  }

  lemma CommitHolds(m: Mac, rdCount: nat)
    requires Typed(m) && Pending(m) && Holds(m.ring, m.stream, rdCount, |m.stream|) && rdCount <= |m.stream|
    requires m.auxCount <= rdCount + 482 && m.r.wrCommit == |m.stream| % RING
    ensures var h := Header(m.r.byteCounter); var stream := m.stream + [h] + m.pend;
            Holds(m.ring[m.r.wrCommit := h], stream, rdCount, |stream|)
  {
    var h := Header(m.r.byteCounter);
    var at, stream, ring := |m.stream|, m.stream + [h] + m.pend, m.ring[m.r.wrCommit := h];
    forall i | rdCount <= i < |stream| ensures ring[i % RING] == stream[i] {
      if i < at {
        SlotsDiffer(i, at);
      } else if at < i {
        SlotsDiffer(at, i);
        assert stream[i] == m.pend[i - at - 1];
        assert m.ring[(at + 1 + (i - at - 1)) % RING] == m.pend[i - at - 1];
      }
    }
  }

  lemma CommitKeeps(m: Mac, b: Beat, rdCount: nat, rdSeen: nat)
    requires Inv(m, rdCount, rdSeen) && Legal(m, b) && m.r.fsm == Commit
    ensures Inv(Tick(m, b, rdSeen), rdCount, rdSeen)
  {
    hide Encoded, Holds, Header, Offset;
    assert |m.cur| < 0x1_0000 && m.auxCount == |m.stream| + 1 + |m.pend|;
    CommitEncodes(m);
    CommitHolds(m, rdCount);
    AddIsShift(m.auxCount, 1, RING);
    DiffStep(m, rdSeen, 482);
    assert Pending(m.(stream := m.stream + [Header(m.r.byteCounter)] + m.pend, pend := [], cur := [],
                      auxCount := m.auxCount + 1, r := Tick(m, b, rdSeen).r, ring := Tick(m, b, rdSeen).ring));
  }

  /** Every clock keeps the invariant, only extends what is committed, and writes no slot that still
      holds a committed qword nobody has read. */
  lemma TickKeeps(m: Mac, b: Beat, rdCount: nat, rdSeen: nat)
    requires Inv(m, rdCount, rdSeen) && Legal(m, b)
    ensures var n := Tick(m, b, rdSeen);
            && Inv(n, rdCount, rdSeen)
            && m.stream <= n.stream && m.frames <= n.frames
    ensures |m.stream| <= WriteCount(m) < rdCount + RING
  {
    match m.r.fsm {
      case Idle => IdleKeeps(m, b, rdCount, rdSeen);
      case Receive => ReceiveKeeps(m, b, rdCount, rdSeen);
      case Commit => CommitKeeps(m, b, rdCount, rdSeen);
      case Drop => DropKeeps(m, b, rdCount, rdSeen);
    }
  }

  /** The clock after a frame is up for publication publishes it; nothing is published in any other state. */
  lemma CommitPublishes(m: Mac, b: Beat, rdCount: nat, rdSeen: nat)
    requires Inv(m, rdCount, rdSeen) && Legal(m, b)
    ensures var n := Tick(m, b, rdSeen);
            && Encoded(n.stream, n.frames) && n.r.wrCommit == |n.stream| % RING
            && n.frames == (if m.r.fsm == Commit then m.frames + [m.cur] else m.frames)
  {
    TickKeeps(m, b, rdCount, rdSeen);
    hide Encoded, Holds, StateInv, NextRegs, NextRing, Header;
  }

  lemma CountsInOrder(m: Mac, rdCount: nat, rdSeen: nat)
    requires Inv(m, rdCount, rdSeen)
    ensures rdSeen <= rdCount <= |m.stream| <= rdSeen + 482
  {
  }

  /** Readers may advance, and the interface may learn of it late. */
  lemma ReadKeeps(m: Mac, rdCount: nat, rdSeen: nat, rdCount': nat, rdSeen': nat)
    requires Inv(m, rdCount, rdSeen) && rdSeen <= rdSeen' <= rdCount' && rdCount <= rdCount' <= |m.stream|
    ensures Inv(m, rdCount', rdSeen')
  {
  }
}
