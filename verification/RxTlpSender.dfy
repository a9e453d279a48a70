/** A data TLP of the huge-page writer beat by beat: the ring is read ahead, through a memory with two registers,
    and the endpoint may stall any beat.  What is sent and where reading goes on then depends on how long it
    stalls two of them: the header, and the last. */
module RxTlpSender {
  import opened LbufApi
  import opened Ring
  import W = RxWrPktToHugepages

  datatype Fsm = S1 | S2 | S3 | S4 | S5 | S6 | S7

  datatype Word = Nothing | Header(dwords: nat, tag: nat) | Address(addr: nat) | Data(q: Qword)

  datatype Beat = Beat(word: Word, sof: bool, eof: bool)

  /** The read address with its last two values, and the ring's registers behind it: the ring keeps the address
      for a clock and the qword for another. */
  datatype Reader = Reader(addr: nat, prev1: nat, prev2: nat, ramAddr: nat, ramOut: Qword)

  /** Where the next TLP goes. */
  datatype Place = Place(host: nat, counter: nat, number: nat)

  /** `word`, `sof` and `eof` are valid while `src` is. */
  datatype Regs = Regs(fsm: Fsm, rd: Reader, committed: nat, notReady: bool, count: nat, qwords: nat,
                       word: Word, sof: bool, eof: bool, src: bool, place: Place, next: Place)
  {
    predicate Typed() {
      committed < RING && rd.addr < RING && rd.prev1 < RING && rd.prev2 < RING && rd.ramAddr < RING
    }
  }

  /** A clock of the endpoint's: whether it takes the beat, and the ring as it is. */
  datatype Input = Input(ready: bool, ring: seq<Qword>)

  function Up(addr: nat): nat { (addr + 1) % RING }

  function NextAddr(x: Regs, ready: bool): (addr: nat)
    ensures x.Typed() ==> addr < RING
  {
    match x.fsm
    case S1 => x.rd.addr
    case S2 => Up(x.rd.addr)
    case S3 => if !ready then x.rd.prev1 else if x.notReady then x.rd.addr else Up(x.rd.addr)
    case S4 => if ready then Up(x.rd.addr) else x.rd.prev2
    case S5 => x.rd.prev2
    case S6 => if ready then Up(x.rd.addr) else x.rd.addr
    case S7 => Up(x.rd.addr)
  }

  function NextReader(x: Regs, i: Input): Reader
    requires x.Typed() && |i.ring| == RING
  {
    Reader(NextAddr(x, i.ready), x.rd.addr, x.rd.prev1, x.rd.addr, i.ring[x.rd.ramAddr])
  }

  function Behind(p: Place, n: nat): Place { Place(p.host + 8 * n, p.counter + n, (p.number + 1) % U32) }

  /** All registers but those of the reading. */
  function NextControl(x: Regs, ready: bool): Regs {
    match x.fsm
    case S1 => x
    case S2 =>
      x.(fsm := S3, word := Header(2 * x.qwords, x.place.number % 16), sof := true, src := true,
         next := Behind(x.place, x.qwords))
    case S3 =>
      if ready
      then x.(fsm := if x.notReady then S6 else S4, word := Address(x.place.host), sof := false, src := true,
              count := 1)
      else x.(notReady := true, count := 1)
    case S4 =>
      if ready
      then x.(fsm := if x.count == x.qwords then S5 else S4, word := Data(x.rd.ramOut), src := true,
              eof := x.eof || x.count == x.qwords, count := (x.count + 1) % 512)
      else x.(fsm := S6)
    case S5 =>
      var m := x.(committed := x.rd.prev2, place := x.next);
      if ready then m.(fsm := S1, eof := false, src := false) else m
    case S6 => if ready then x.(fsm := S7, src := false) else x
    case S7 => x.(fsm := S4, src := false)
  }

  function NextRegs(x: Regs, i: Input): Regs
    requires x.Typed() && |i.ring| == RING
  {
    NextControl(x, i.ready).(rd := NextReader(x, i))
  }

  class TlpSender {
    var fsm: Fsm
    var rd: Reader
    var committed: nat
    var notReady: bool
    var count: nat
    var qwords: nat
    var word: Word
    var sof: bool
    var eof: bool
    var src: bool
    var place: Place
    var next: Place

    ghost function State(): Regs
      reads this
    {
      Regs(fsm, rd, committed, notReady, count, qwords, word, sof, eof, src, place, next)
    }

    constructor (ramOut0: Qword)
      ensures State().Typed() && State().fsm == S1 && State().rd.addr == State().committed == 0 && !State().src
    {
      fsm, rd, committed := S1, Reader(0, 0, 0, 0, ramOut0), 0;
      notReady, count, qwords, word, sof, eof, src := false, 0, 0, Nothing, false, false, false;
      place, next := Place(0, 0, 0), Place(0, 0, 0);
    }

    /** The machine sets its registers and the next read address; then the ring's registers and the address's
        last values move on. */
    method Tick(ready: bool, ring: array<Qword>)
      requires State().Typed() && ring.Length == RING
      modifies this
      ensures State() == NextRegs(old(State()), old(Input(ready, ring[..])))
    {
      var addr := Machine(ready);
      rd := Reader(addr, rd.addr, rd.prev1, rd.addr, ring[rd.ramAddr]);
    }

    method Machine(ready: bool) returns (addr: nat)
      modifies this
      ensures addr == NextAddr(old(State()), ready)
      ensures State() == NextControl(old(State()), ready)
    {
      addr := rd.addr;
      match fsm {
        case S1 =>
        case S2 =>
          addr, fsm, next := (addr + 1) % RING, S3, Behind(place, qwords);
          word, sof, src := Header(2 * qwords, place.number % 16), true, true;
        case S3 =>
          count := 1;
          if !ready {
            notReady, addr := true, rd.prev1;
          } else {
            sof, src, word := false, true, Address(place.host);
            if notReady { fsm := S6; } else { addr, fsm := (addr + 1) % RING, S4; }
          }
        case S4 =>
          if ready {
            src, word, addr := true, Data(rd.ramOut), (addr + 1) % RING;
            if count == qwords { eof, fsm := true, S5; }
            count := (count + 1) % 512;
          } else {
            addr, fsm := rd.prev2, S6;
          }
        case S5 =>
          committed, addr, place := rd.prev2, rd.prev2, next;
          if ready { eof, src, fsm := false, false, S1; }
        case S6 => if ready { addr, src, fsm := (addr + 1) % RING, false, S7; }
        case S7 => src, addr, fsm := false, (addr + 1) % RING, S4;
      }
    }
  }

  // ----- a TLP on the bus --------------------------------------------------------------------

  /** `beats` are those the endpoint has taken; `head` and `tail` count the clocks it did not take the header and
      the last beat; `exact` says whether the committed address has been nothing but `from` or `n` further. */
  datatype Sys = Sys(x: Regs, beats: seq<Beat>, head: nat, tail: nat, from: nat, exact: bool)

  function OnBus(x: Regs): seq<Beat> { if x.src then [Beat(x.word, x.sof, x.eof)] else [] }

  function Clock(s: Sys, i: Input): Sys
    requires s.x.Typed() && |i.ring| == RING
  {
    var n := NextRegs(s.x, i);
    Sys(n, if i.ready then s.beats + OnBus(s.x) else s.beats,
        if s.x.fsm == S3 && !i.ready then s.head + 1 else s.head,
        if s.x.fsm == S5 && !i.ready then s.tail + 1 else s.tail,
        s.from, s.exact && (n.committed == s.from || n.committed == (s.from + s.x.qwords) % RING))
  }

  function Step(s: Sys, i: Input): Sys { if s.x.Typed() && |i.ring| == RING then Clock(s, i) else s }

  function Run(s: Sys, ins: seq<Input>): Sys
    decreases |ins|
  {
    if ins == [] then s else Step(Run(s, ins[..|ins| - 1]), ins[|ins| - 1])
  }

  lemma StepTyped(s: Sys, i: Input)
    requires s.x.Typed()
    ensures Step(s, i).x.Typed()
  {
    hide NextAddr, OnBus;
  }

  /** State s1 has decided on a TLP of `n` qwords. */
  predicate Decided(x: Regs, n: nat) {
    && x.Typed() && x.fsm == S2 && 1 <= n == x.qwords < 32 && x.rd.addr == x.committed
    && !x.notReady && !x.src && !x.eof
  }

  function Start(x: Regs): Sys { Sys(x, [], 0, 0, x.committed, true) }

  /** The header was stalled, and an even number of clocks: then reading begins a qword too far. */
  function Slip(head: nat): (e: nat)
    ensures e <= 1
  {
    if head > 0 && head % 2 == 0 then 1 else 0
  }

  function Slot(ring: seq<Qword>, k: nat): Qword
    requires |ring| == RING
  {
    ring[k % RING]
  }

  /** The beats of a TLP up to its first `c` qwords, read from `from` on. */
  function Beats(p: Place, n: nat, ring: seq<Qword>, from: nat, c: nat): seq<Beat>
    requires |ring| == RING
    decreases c
  {
    if c == 0 then [Beat(Header(2 * n, p.number % 16), true, false), Beat(Address(p.host), false, false)]
    else Beats(p, n, ring, from, c - 1) + [Beat(Data(Slot(ring, from + c - 1)), false, c == n)]
  }

  /** The ring keeps the `n` slots from `from` on as they are in `ring`. */
  predicate Keeps(i: Input, ring: seq<Qword>, from: nat, n: nat)
    requires |i.ring| == RING == |ring|
  {
    forall k :: from <= k < from + n ==> Slot(i.ring, k) == Slot(ring, k)
  }

  // ----- the invariant -----------------------------------------------------------------------

  /** The slot `k` behind the one at `from`. */
  function At(from: nat, k: nat): nat { (from + k) % RING }

  /** The read address and its last two values. */
  predicate Reads(rd: Reader, addr: nat, prev1: nat, prev2: nat) {
    rd.addr == addr && rd.prev1 == rd.ramAddr == prev1 && rd.prev2 == prev2
  }

  /** Where the first qword is read: a slot too far after a slip. */
  function Base(s: Sys): nat { s.from + Slip(s.head) }

  /** The addresses, as far as they matter. */
  predicate ReaderOk(s: Sys) {
    var rd, b, c, n := s.x.rd, Base(s), s.x.count, s.x.qwords;
    match s.x.fsm
    case S1 => rd.addr == s.x.committed == At(b, n + s.tail % 3)
    case S2 => rd.addr == At(s.from, 0)
    case S3 =>
      if s.head % 2 == 0 then rd.addr == At(s.from, 1) && rd.prev1 == rd.ramAddr == At(s.from, 0)
      else rd.addr == At(s.from, 0) && rd.prev1 == rd.ramAddr == At(s.from, 1)
    case S4 => 1 <= c && Reads(rd, At(b, c + 1), At(b, c), At(b, c - 1))
    case S5 =>
      if s.tail % 3 == 0 then Reads(rd, At(b, n + 2), At(b, n + 1), At(b, n))
      else if s.tail % 3 == 1 then Reads(rd, At(b, n), At(b, n + 2), At(b, n + 1))
      else Reads(rd, At(b, n + 1), At(b, n), At(b, n + 2))
    case S6 => 1 <= c && rd.addr == At(b, c - 1)
    case S7 => 1 <= c && rd.addr == At(b, c) && rd.prev1 == rd.ramAddr == At(b, c - 1)
  }

  predicate ControlOk(s: Sys, p: Place, n: nat) {
    var x := s.x;
    && x.Typed() && 1 <= n == x.qwords < 32 && s.from < RING
    && (x.fsm == S3 ==> (x.notReady <==> s.head > 0))
    && (x.fsm == S1 || x.fsm == S2 || x.fsm == S3 ==> !x.eof)
    && (x.fsm == S4 || x.fsm == S6 || x.fsm == S7 ==> 1 <= x.count <= n && !x.eof)
    && (x.fsm == S5 ==> x.eof && x.count == n + 1)
    && (x.fsm == S3 || x.fsm == S5 ==> x.src)
    && (x.fsm == S2 || x.fsm == S7 || x.fsm == S1 ==> !x.src)
    && (x.fsm == S1 || x.fsm == S2 || x.fsm == S3 || !x.sof)
    && (x.fsm == S3 ==> x.sof && x.word == Header(2 * n, p.number % 16))
    && (x.fsm == S1 || (x.fsm == S5 && s.tail > 0) ==> x.place == Behind(p, n))
    && (x.fsm != S1 && !(x.fsm == S5 && s.tail > 0) ==> x.place == p)
    && (x.fsm == S2 || x.next == Behind(p, n))
    && (x.fsm == S2 ==> s.head == 0 && !x.notReady)
    && (x.fsm != S1 && x.fsm != S5 ==> s.tail == 0)
  }

  /** What the committed address has been. */
  predicate CommitOk(s: Sys) {
    var e, n := Slip(s.head), s.x.qwords;
    if s.x.fsm == S1 then s.exact <==> e == 0 && s.tail == 0
    else if s.x.fsm == S5 && s.tail > 0 then
      s.x.committed == At(Base(s), n + (s.tail - 1) % 3) && (s.exact <==> e == 0 && s.tail == 1)
    else s.x.committed == s.from && s.exact
  }

  /** The beats on the bus so far. */
  function Put(s: Sys): seq<Beat> { s.beats + OnBus(s.x) }

  /** In the data states: the qwords so far are on the bus, and the next one comes out of the ring. */
  predicate DataOk(s: Sys, p: Place, n: nat, ring: seq<Qword>, from: nat)
    requires |ring| == RING
  {
    && s.x.count >= 1 && Put(s) == Beats(p, n, ring, from, s.x.count - 1)
    && (s.x.fsm == S4 ==> s.x.rd.ramOut == Slot(ring, from + s.x.count - 1))
  }

  /** The beats put on the bus, when `e` is the slip that there has been. */
  predicate BeatsOk(s: Sys, p: Place, n: nat, ring: seq<Qword>, e: nat)
    requires |ring| == RING
  {
    match s.x.fsm
    case S2 => s.beats == []
    case S3 => s.beats == []
    case S1 => s.beats == Beats(p, n, ring, s.from + e, n)
    case S5 => Put(s) == Beats(p, n, ring, s.from + e, n)
    case _ => DataOk(s, p, n, ring, s.from + e)
  }

  lemma UpIs(from: nat, k: nat)
    ensures Up(At(from, k)) == At(from, k + 1) == At(from + 1, k)
  {
  }

  lemma ControlKeeps(s: Sys, i: Input, p: Place, n: nat)
    requires ControlOk(s, p, n) && |i.ring| == RING
    ensures ControlOk(Step(s, i), p, n)
  {
    StepTyped(s, i);
    hide NextReader, OnBus;
  }

  /** Reading: while the header waits, the address goes back and forth between the first qword and the next;
      while the last beat waits, it goes round over three. */
  lemma ReaderKeeps(s: Sys, i: Input, p: Place, n: nat)
    requires ControlOk(s, p, n) && ReaderOk(s) && |i.ring| == RING
    ensures ReaderOk(Step(s, i))
  {
    match s.x.fsm {
      case S1 =>
      case S5 => LastWaits(s, i, p, n);
      case S2 => HeaderWaits(s, i, p, n);
      case S3 => HeaderWaits(s, i, p, n);
      case S4 => DataGoes(s, i, p, n);
      case S6 => DataGoes(s, i, p, n);
      case S7 => DataGoes(s, i, p, n);
    }
    hide Step, At;
  }

  lemma HeaderWaits(s: Sys, i: Input, p: Place, n: nat)
    requires ControlOk(s, p, n) && ReaderOk(s) && |i.ring| == RING && (s.x.fsm == S2 || s.x.fsm == S3)
    ensures ReaderOk(Step(s, i))
  {
    UpIs(s.from, 0);
    UpIs(s.from, 1);
    hide OnBus, Up, At;
  }

  /** What a clock does to the reading in the data states. */
  lemma ReaderMoves(s: Sys, i: Input)
    requires s.x.Typed() && |i.ring| == RING && (s.x.fsm == S4 || s.x.fsm == S6 || s.x.fsm == S7)
    ensures var m := Step(s, i); var rd, was := m.x.rd, s.x.rd;
            && rd.prev1 == rd.ramAddr == was.addr && rd.prev2 == was.prev1 && m.head == s.head && m.from == s.from
            && m.tail == s.tail && m.x.qwords == s.x.qwords
            && (s.x.fsm == S4 && i.ready ==>
                  && rd.addr == Up(was.addr) && m.x.count == (s.x.count + 1) % 512
                  && m.x.fsm == if s.x.count == s.x.qwords then S5 else S4)
            && (s.x.fsm == S4 && !i.ready ==> rd.addr == was.prev2 && m.x.fsm == S6 && m.x.count == s.x.count)
            && (s.x.fsm == S6 ==>
                  && m.x.count == s.x.count
                  && if i.ready then rd.addr == Up(was.addr) && m.x.fsm == S7 else rd.addr == was.addr && m.x.fsm == S6)
            && (s.x.fsm == S7 ==> rd.addr == Up(was.addr) && m.x.fsm == S4 && m.x.count == s.x.count)
  {
    hide OnBus, Up;
  }

  lemma DataGoes(s: Sys, i: Input, p: Place, n: nat)
    requires ControlOk(s, p, n) && ReaderOk(s) && |i.ring| == RING
    requires s.x.fsm == S4 || s.x.fsm == S6 || s.x.fsm == S7
    ensures ReaderOk(Step(s, i))
  {
    hide Step, Up, At, Slip;
    ReaderMoves(s, i);
    assert 1 <= s.x.count <= n == s.x.qwords < 32 && s.tail == 0;
    hide ControlOk;
    var b, c := Base(s), s.x.count;
    UpIs(b, c - 1);
    UpIs(b, c);
    UpIs(b, c + 1);
    assert Base(Step(s, i)) == b;
    hide Base;
  }

  lemma LastWaits(s: Sys, i: Input, p: Place, n: nat)
    requires ControlOk(s, p, n) && ReaderOk(s) && |i.ring| == RING && s.x.fsm == S5
    ensures ReaderOk(Step(s, i))
  {
    hide OnBus, At, Slip;
  }

  lemma CommitAt(from: nat, n: nat, e: nat, k: nat)
    requires from < RING && 1 <= n < 32 && e <= 1 && k <= 2
    ensures At(from + e, n + k) == from || At(from + e, n + k) == At(from, n) <==> e == 0 && k == 0
  {
  }

  lemma CommitKeeps(s: Sys, i: Input, p: Place, n: nat)
    requires ControlOk(s, p, n) && ReaderOk(s) && CommitOk(s) && |i.ring| == RING
    ensures CommitOk(Step(s, i))
  {
    if s.x.fsm == S5 || s.x.fsm == S1 {
      CommitMoves(s, i, p, n);
    } else {
      hide ReaderOk, OnBus, NextAddr, Slip, At;
      CommitRests(s, i, p, n);
    }
    hide Step, CommitOk;
  }

  lemma CommitMoves(s: Sys, i: Input, p: Place, n: nat)
    requires ControlOk(s, p, n) && ReaderOk(s) && CommitOk(s) && |i.ring| == RING && (s.x.fsm == S5 || s.x.fsm == S1)
    ensures CommitOk(Step(s, i))
  {
    hide OnBus, NextReader, Slip, At;
    var k := s.tail % 3;
    assert (if s.x.fsm == S5 then s.x.rd.prev2 else s.x.committed) == At(Base(s), n + k);
    hide ReaderOk;
    CommitAt(s.from, n, Slip(s.head), k);
    AtIs(s.from, n);
  }

  lemma AtIs(from: nat, k: nat)
    ensures At(from, k) == (from + k) % RING
  {
  }

  lemma CommitRests(s: Sys, i: Input, p: Place, n: nat)
    requires ControlOk(s, p, n) && CommitOk(s) && |i.ring| == RING && s.x.fsm != S5 && s.x.fsm != S1
    ensures CommitOk(Step(s, i))
  {
    hide OnBus, NextReader, Slip, At;
  }

  // ----- what is sent ------------------------------------------------------------------------

  predicate PastHeader(f: Fsm) { f != S2 && f != S3 }

  /** The beats are right for the slip `e`, if that is the one there has been. */
  predicate SentOk(s: Sys, p: Place, n: nat, ring: seq<Qword>, e: nat)
    requires |ring| == RING
  {
    (PastHeader(s.x.fsm) ==> Slip(s.head) == e) ==> BeatsOk(s, p, n, ring, e)
  }

  /** The qword that comes out of the ring: from the slot at its address register. */
  lemma ComesOut(s: Sys, i: Input, ring: seq<Qword>, from: nat, n: nat, k: nat)
    requires s.x.Typed() && |i.ring| == RING == |ring| && Keeps(i, ring, from, n) && k < n
    requires s.x.rd.ramAddr == At(from, k)
    ensures Step(s, i).x.rd.ramOut == Slot(ring, from + k)
  {
    hide Up, NextControl, NextAddr, OnBus;
    assert Slot(i.ring, from + k) == Slot(ring, from + k);
  }

  lemma HeaderSent(s: Sys, i: Input, p: Place, n: nat, ring: seq<Qword>, e: nat)
    requires ControlOk(s, p, n) && ReaderOk(s) && |i.ring| == RING == |ring| && (s.x.fsm == S2 || s.x.fsm == S3)
    requires Keeps(i, ring, s.from + e, n) && s.beats == []
    ensures SentOk(Step(s, i), p, n, ring, e)
  {
    if s.x.fsm == S3 && i.ready && s.head == 0 && e == 0 { ComesOut(s, i, ring, s.from, n, 0); }
    hide NextAddr, Keeps, Reads;
  }

  lemma PutStays(s: Sys, i: Input)
    requires s.x.Typed() && |i.ring| == RING && (s.x.fsm == S7 ==> !s.x.src)
    requires (s.x.fsm == S4 && !i.ready) || s.x.fsm == S6 || s.x.fsm == S7
    ensures Put(Step(s, i)) == Put(s) && Step(s, i).x.count == s.x.count && Base(Step(s, i)) == Base(s)
    ensures Step(s, i).x.fsm == if s.x.fsm == S7 then S4 else if s.x.fsm == S6 && i.ready then S7 else S6
  {
    hide NextReader;
  }

  lemma PutOne(s: Sys, i: Input)
    requires s.x.Typed() && |i.ring| == RING && s.x.fsm == S4 && i.ready && s.x.count < 32
    ensures var n := Step(s, i).x;
            && Put(Step(s, i)) == Put(s) + [Beat(Data(s.x.rd.ramOut), s.x.sof, s.x.eof || s.x.count == s.x.qwords)]
            && n.count == s.x.count + 1 && n.fsm == (if s.x.count == s.x.qwords then S5 else S4)
            && Base(Step(s, i)) == Base(s)
  {
    hide NextReader;
  }

  lemma DataPut(s: Sys, i: Input, p: Place, n: nat, ring: seq<Qword>)
    requires ControlOk(s, p, n) && ReaderOk(s) && |i.ring| == RING == |ring| && s.x.fsm == S4 && i.ready
    requires Keeps(i, ring, Base(s), n) && DataOk(s, p, n, ring, Base(s))
    ensures var m := Step(s, i);
            && Base(m) == Base(s)
            && if m.x.fsm == S5 then Put(m) == Beats(p, n, ring, Base(s), n)
               else m.x.fsm == S4 && DataOk(m, p, n, ring, Base(s))
  {
    hide Step, Keeps, Slip, At, Slot, Put;
    var c := s.x.count;
    assert 1 <= c <= n == s.x.qwords < 32 && !s.x.sof && !s.x.eof && s.x.rd.ramAddr == At(Base(s), c);
    hide ControlOk, ReaderOk;
    PutOne(s, i);
    if c < n { ComesOut(s, i, ring, Base(s), n, c); }
  }

  lemma DataWaits(s: Sys, i: Input, p: Place, n: nat, ring: seq<Qword>)
    requires ControlOk(s, p, n) && ReaderOk(s) && |i.ring| == RING == |ring|
    requires (s.x.fsm == S4 && !i.ready) || s.x.fsm == S6 || s.x.fsm == S7
    requires Keeps(i, ring, Base(s), n) && DataOk(s, p, n, ring, Base(s))
    ensures var m := Step(s, i);
            && Base(m) == Base(s) && (m.x.fsm == S4 || m.x.fsm == S6 || m.x.fsm == S7)
            && DataOk(m, p, n, ring, Base(s))
  {
    hide Step, Keeps, Slip, At, Slot, Put, Beats;
    PutStays(s, i);
    if s.x.fsm == S7 { ComesOut(s, i, ring, Base(s), n, s.x.count - 1); }
    hide ControlOk, ReaderOk;
  }

  lemma DataSent(s: Sys, i: Input, p: Place, n: nat, ring: seq<Qword>)
    requires ControlOk(s, p, n) && ReaderOk(s) && |i.ring| == RING == |ring|
    requires s.x.fsm == S4 || s.x.fsm == S6 || s.x.fsm == S7
    requires Keeps(i, ring, Base(s), n) && BeatsOk(s, p, n, ring, Slip(s.head))
    ensures BeatsOk(Step(s, i), p, n, ring, Slip(s.head))
  {
    hide Step, ControlOk, ReaderOk, Keeps, Slip, DataOk;
    if s.x.fsm == S4 && i.ready { DataPut(s, i, p, n, ring); } else { DataWaits(s, i, p, n, ring); }
    StepFrom(s, i);
  }

  lemma StepFrom(s: Sys, i: Input)
    ensures Step(s, i).from == s.from
  {
  }

  lemma LastSent(s: Sys, i: Input, p: Place, n: nat, ring: seq<Qword>)
    requires ControlOk(s, p, n) && |i.ring| == RING == |ring| && (s.x.fsm == S5 || s.x.fsm == S1)
    requires BeatsOk(s, p, n, ring, Slip(s.head))
    ensures BeatsOk(Step(s, i), p, n, ring, Slip(s.head))
  {
    hide NextAddr, Slip, Slot;
  }

  lemma SentKeeps(s: Sys, i: Input, p: Place, n: nat, ring: seq<Qword>, e: nat)
    requires ControlOk(s, p, n) && ReaderOk(s) && |i.ring| == RING == |ring| && Keeps(i, ring, s.from + e, n)
    requires SentOk(s, p, n, ring, e)
    ensures SentOk(Step(s, i), p, n, ring, e)
  {
    if !PastHeader(s.x.fsm) {
      HeaderSent(s, i, p, n, ring, e);
    } else if Slip(s.head) == e {
      if s.x.fsm == S5 || s.x.fsm == S1 { LastSent(s, i, p, n, ring); } else { DataSent(s, i, p, n, ring); }
    }
    hide ReaderOk, BeatsOk, Keeps, NextAddr, OnBus, Slip;
  }

  // ----- main results ------------------------------------------------------------------------

  /** All inputs give a ring that keeps the `n` slots. */
  predicate AllKeep(ins: seq<Input>, ring: seq<Qword>, from: nat, n: nat)
    requires |ring| == RING
  {
    forall i :: 0 <= i < |ins| ==> |ins[i].ring| == RING && Keeps(ins[i], ring, from, n)
  }

  predicate Rings(ins: seq<Input>) { forall i :: 0 <= i < |ins| ==> |ins[i].ring| == RING }

  predicate Inv(s: Sys, p: Place, n: nat) { ControlOk(s, p, n) && ReaderOk(s) && CommitOk(s) }

  lemma StepKeeps(s: Sys, i: Input, p: Place, n: nat)
    requires Inv(s, p, n) && |i.ring| == RING
    ensures Inv(Step(s, i), p, n)
  {
    hide ControlOk, ReaderOk, CommitOk, Step;
    ControlKeeps(s, i, p, n);
    ReaderKeeps(s, i, p, n);
    CommitKeeps(s, i, p, n);
  }

  lemma Starts(x: Regs, n: nat)
    requires Decided(x, n)
    ensures Inv(Start(x), x.place, n)
  {
  }

  lemma {:induction false} RunKeeps(x: Regs, n: nat, ins: seq<Input>)
    requires Decided(x, n) && Rings(ins)
    ensures Inv(Run(Start(x), ins), x.place, n) && Run(Start(x), ins).from == x.committed
    decreases |ins|
  {
    if ins == [] {
      Starts(x, n);
    } else {
      RunKeeps(x, n, ins[..|ins| - 1]);
      hide Inv, Decided, Start;
      StepKeeps(Run(Start(x), ins[..|ins| - 1]), ins[|ins| - 1], x.place, n);
      hide Clock;
    }
  }

  lemma {:induction false} RunSends(x: Regs, n: nat, ins: seq<Input>, ring: seq<Qword>, e: nat)
    requires Decided(x, n) && |ring| == RING && AllKeep(ins, ring, x.committed + e, n)
    ensures SentOk(Run(Start(x), ins), x.place, n, ring, e)
    decreases |ins|
  {
    hide Inv, Keeps, Step;
    if ins != [] {
      hide SentOk, Decided, Start;
      var before, i := ins[..|ins| - 1], ins[|ins| - 1];
      RunSends(x, n, before, ring, e);
      RunKeeps(x, n, before);
      KeepsInv(Run(Start(x), before), x.place, n);
      SentKeeps(Run(Start(x), before), i, x.place, n, ring, e);
    }
  }

  lemma KeepsInv(s: Sys, p: Place, n: nat)
    requires Inv(s, p, n)
    ensures ControlOk(s, p, n) && ReaderOk(s)
  {
  }

  /** State s1 decides on the next TLP. */
  function NextTlp(x: Regs, n: nat): Regs { x.(fsm := S2, notReady := false, qwords := n) }

  /** However the endpoint stalls, a TLP that has been sent consists of a header, the address, and `n` successive
      qwords of the ring, from the next one on or, after a slip, from the one behind it; reading goes on behind
      them, and up to two slots further if the last beat was stalled.  Then the next one can follow. */
  lemma Sends(x: Regs, n: nat, ins: seq<Input>, ring: seq<Qword>, e: nat)
    requires Decided(x, n) && |ring| == RING && AllKeep(ins, ring, x.committed + e, n)
    requires Run(Start(x), ins).x.fsm == S1 && Slip(Run(Start(x), ins).head) == e
    ensures var s := Run(Start(x), ins);
            && s.beats == Beats(x.place, n, ring, x.committed + e, n) && s.x.place == Behind(x.place, n)
            && s.x.rd.addr == s.x.committed == At(x.committed + e, n + s.tail % 3)
            && forall m: nat :: 1 <= m < 32 ==> Decided(NextTlp(s.x, m), m)
  {
    hide Run, Keeps, Beats, At;
    RunKeeps(x, n, ins);
    RunSends(x, n, ins, ring, e);
    hide CommitOk, Slip;
  }

  /** The beats of a TLP as RxWrPktToHugepages has it. */
  function BeatsOf(t: W.Tlp): seq<Beat> {
    [Beat(Header(2 * |t.data|, t.tag), true, false), Beat(Address(t.addr), false, false)]
    + seq(|t.data|, i requires 0 <= i < |t.data| => Beat(Data(t.data[i]), false, i == |t.data| - 1))
  }

  /** The registers stand for those of the writer there. */
  predicate As(x: Regs, r: W.WriterRegs) {
    r.rd == x.committed && r.hostAddr == x.place.host && r.counter == x.place.counter && r.tlpNumber == x.place.number
  }

  lemma {:induction false} BeatsAre(p: Place, n: nat, ring: seq<Qword>, from: nat, c: nat)
    requires |ring| == RING && c <= n
    ensures Beats(p, n, ring, from, c)
         == [Beat(Header(2 * n, p.number % 16), true, false), Beat(Address(p.host), false, false)]
            + seq(c, i requires 0 <= i < c => Beat(Data(Slot(ring, from + i)), false, i == n - 1))
    decreases c
  {
    if c > 0 {
      BeatsAre(p, n, ring, from, c - 1);
      hide Slot;
      assert seq(c, i requires 0 <= i < c => Beat(Data(Slot(ring, from + i)), false, i == n - 1))
          == seq(c - 1, i requires 0 <= i < c - 1 => Beat(Data(Slot(ring, from + i)), false, i == n - 1))
             + [Beat(Data(Slot(ring, from + c - 1)), false, c == n)];
    }
  }

  lemma ServedBeats(x: Regs, n: nat, ring: seq<Qword>, r: W.WriterRegs)
    requires As(x, r) && |ring| == RING
    ensures Beats(x.place, n, ring, x.committed, n) == BeatsOf(W.DataTlp(r, ring, n))
  {
    hide Beats;
    BeatsAre(x.place, n, ring, x.committed, n);
    var t := W.DataTlp(r, ring, n);
    assert |t.data| == n;
    assert forall i :: 0 <= i < n ==> t.data[i] == Slot(ring, x.committed + i);
  }

  /** The TLP is the one that the writer's step sends, and leaves its registers, exactly if the header was stalled
      for no clock or an odd number of them, and the last beat for a multiple of three. */
  lemma AsServedIff(x: Regs, n: nat, ins: seq<Input>, ring: seq<Qword>, r: W.WriterRegs)
    requires Decided(x, n) && As(x, r) && |ring| == RING && AllKeep(ins, ring, x.committed, n)
    requires Run(Start(x), ins).x.fsm == S1
    ensures var s := Run(Start(x), ins);
            s.beats == BeatsOf(W.DataTlp(r, ring, n)) && As(s.x, W.AfterTlp(r, n))
            <==> (s.head == 0 || s.head % 2 == 1) && s.tail % 3 == 0
  {
    var s := Run(Start(x), ins);
    hide Run, Keeps, Beats, BeatsOf, W.Slots;
    RunKeeps(x, n, ins);
    Ends(s, x, n);
    if Slip(s.head) == 0 {
      Sends(x, n, ins, ring, 0);
      ServedBeats(x, n, ring, r);
    }
    hide AllKeep, Decided, Inv;
  }

  lemma Ends(s: Sys, x: Regs, n: nat)
    requires Inv(s, x.place, n) && s.x.fsm == S1 && s.from == x.committed
    ensures s.x.place == Behind(x.place, n)
    ensures s.x.committed == At(x.committed, n) <==> Slip(s.head) == 0 && s.tail % 3 == 0
  {
    assert s.x.committed == At(x.committed + Slip(s.head), n + s.tail % 3) by { hide CommitOk, At, Slip; }
    CommitAt(x.committed, n, Slip(s.head), s.tail % 3);
    hide ReaderOk, CommitOk, At;
  }

  /** While it is sent, the committed address shows nothing but where reading began and where it goes on, exactly
      if neither happens at all. */
  lemma NeverAheadIff(x: Regs, n: nat, ins: seq<Input>)
    requires Decided(x, n) && Rings(ins) && Run(Start(x), ins).x.fsm == S1
    ensures var s := Run(Start(x), ins);
            s.exact <==> (s.head == 0 || s.head % 2 == 1) && s.tail == 0
  {
    RunKeeps(x, n, ins);
    hide Run, ReaderOk, ControlOk, Decided;
  }

  // ----- runs that stall so ------------------------------------------------------------------

  predicate SameRing(ins: seq<Input>, ring: seq<Qword>) { forall i :: 0 <= i < |ins| ==> ins[i].ring == ring }

  lemma More(s: Sys, ins: seq<Input>, i: Input)
    ensures Run(s, ins + [i]) == Step(Run(s, ins), i)
  {
    assert (ins + [i])[..|ins|] == ins;
  }

  /** One more clock, with the header, the data or the last beat on its way. */
  lemma OneMore(x: Regs, n: nat, ins: seq<Input>, ring: seq<Qword>, ready: bool) returns (more: seq<Input>)
    requires Decided(x, n) && SameRing(ins, ring) && |ring| == RING
    ensures SameRing(more, ring)
    ensures var s, m := Run(Start(x), ins), Run(Start(x), more);
            m == Step(s, Input(ready, ring)) && s.x.Typed() && s.x.qwords == n < 32 && Inv(s, x.place, n)
  {
    more := ins + [Input(ready, ring)];
    More(Start(x), ins, Input(ready, ring));
    RunKeeps(x, n, ins);
    hide Run, Step, ReaderOk, CommitOk, Decided;
  }

  lemma {:induction false} HeaderStalled(x: Regs, n: nat, ring: seq<Qword>, h: nat) returns (ins: seq<Input>)
    requires Decided(x, n) && |ring| == RING
    ensures var s := Run(Start(x), ins);
            SameRing(ins, ring) && s.x.fsm == S3 && s.head == h && s.tail == 0 && (s.x.notReady <==> h > 0)
    decreases h
  {
    if h == 0 {
      ins := OneMore(x, n, [], ring, true);
    } else {
      var before := HeaderStalled(x, n, ring, h - 1);
      hide Run;
      ins := OneMore(x, n, before, ring, false);
    }
    hide Inv, NextReader;
  }

  lemma {:induction false} DataFlows(x: Regs, n: nat, ring: seq<Qword>, h: nat, c: nat) returns (ins: seq<Input>)
    requires Decided(x, n) && |ring| == RING && 1 <= c <= n
    ensures var s := Run(Start(x), ins);
            SameRing(ins, ring) && s.x.fsm == S4 && s.x.count == c && s.head == h && s.tail == 0
    decreases c
  {
    hide Run, Decided, NextReader, Inv;
    if c == 1 {
      var head := HeaderStalled(x, n, ring, h);
      ins := OneMore(x, n, head, ring, true);
      if h > 0 {
        var waited := OneMore(x, n, ins, ring, true);
        ins := OneMore(x, n, waited, ring, true);
      }
    } else {
      var before := DataFlows(x, n, ring, h, c - 1);
      ins := OneMore(x, n, before, ring, true);
      DecidedSize(x, n);
    }
  }

  lemma DecidedSize(x: Regs, n: nat)
    requires Decided(x, n)
    ensures n < 32
  {
  }

  lemma {:induction false} LastStalled(x: Regs, n: nat, ring: seq<Qword>, h: nat, l: nat) returns (ins: seq<Input>)
    requires Decided(x, n) && |ring| == RING
    ensures var s := Run(Start(x), ins);
            SameRing(ins, ring) && s.x.fsm == S5 && s.head == h && s.tail == l
    decreases l
  {
    hide Run, NextReader, Inv;
    if l == 0 {
      var data := DataFlows(x, n, ring, h, n);
      ins := OneMore(x, n, data, ring, true);
    } else {
      var before := LastStalled(x, n, ring, h, l - 1);
      ins := OneMore(x, n, before, ring, false);
    }
  }

  /** Whatever the size, the endpoint can stall the header and the last beat for any number of clocks. */
  lemma StallsExist(x: Regs, n: nat, ring: seq<Qword>, h: nat, l: nat) returns (ins: seq<Input>)
    requires Decided(x, n) && |ring| == RING
    ensures var s := Run(Start(x), ins);
            SameRing(ins, ring) && s.x.fsm == S1 && s.head == h && s.tail == l
  {
    hide Run, NextReader, Inv, Decided;
    var before := LastStalled(x, n, ring, h, l);
    ins := OneMore(x, n, before, ring, true);
  }

  /** So with the header stalled for two clocks the next qword of the ring is left out and the one behind the TLP's
      is sent instead; the one after that is the next to be read. */
  lemma SkipsQword(x: Regs, n: nat, ring: seq<Qword>) returns (ins: seq<Input>)
    requires Decided(x, n) && |ring| == RING
    ensures var s := Run(Start(x), ins);
            && SameRing(ins, ring) && s.x.fsm == S1 && s.head == 2 && s.tail == 0
            && s.beats == Beats(x.place, n, ring, x.committed + 1, n) && s.x.committed == At(x.committed, n + 1)
  {
    ins := StallsExist(x, n, ring, 2, 0);
    hide Run, Decided, Beats;
    Sends(x, n, ins, ring, 1);
    UpIs(x.committed, n);
  }

  /** And with the last beat stalled for one clock a qword that has not been sent is given up. */
  lemma GivesUpQword(x: Regs, n: nat, ring: seq<Qword>) returns (ins: seq<Input>)
    requires Decided(x, n) && |ring| == RING
    ensures var s := Run(Start(x), ins);
            && SameRing(ins, ring) && s.x.fsm == S1 && s.head == 0 && s.tail == 1
            && s.beats == Beats(x.place, n, ring, x.committed, n) && s.x.committed == At(x.committed, n + 1)
  {
    ins := StallsExist(x, n, ring, 0, 1);
    hide Run, Decided, Beats;
    Sends(x, n, ins, ring, 0);
  }

  // ----- whether it ends ---------------------------------------------------------------------

  /** A data state, or one of the two on the way back to it. */
  predicate InData(x: Regs, n: nat) {
    x.Typed() && (x.fsm == S4 || x.fsm == S6 || x.fsm == S7) && 1 <= x.count <= n == x.qwords < 32
  }

  lemma DataStep(s: Sys, n: nat, i: Input)
    requires InData(s.x, n) && |i.ring| == RING
    ensures var m := Step(s, i).x;
            if s.x.fsm == S4 && i.ready
            then if s.x.count == n then m.fsm == S5 else m.fsm == S4 && m.count == s.x.count + 1 && InData(m, n)
            else InData(m, n) && m.count == s.x.count
                 && m.fsm == if s.x.fsm == S7 then S4 else if s.x.fsm == S6 && i.ready then S7 else S6
  {
    StepTyped(s, i);
    hide NextReader, OnBus;
  }

  /** With an endpoint that is ready for three clocks on end at least one qword goes on the bus. */
  lemma ThreeReadyClocks(s: Sys, n: nat, i: Input, j: Input, k: Input)
    requires InData(s.x, n) && |i.ring| == |j.ring| == |k.ring| == RING && i.ready && j.ready && k.ready
    ensures var t, u := Step(s, i), Step(Step(s, i), j); var v := Step(u, k);
            t.x.fsm == S5 || u.x.fsm == S5 || v.x.fsm == S5 || (InData(v.x, n) && v.x.count > s.x.count)
  {
    hide Step;
    DataStep(s, n, i);
    var t := Step(s, i);
    if t.x.fsm != S5 {
      DataStep(t, n, j);
      if Step(t, j).x.fsm != S5 { DataStep(Step(t, j), n, k); }
    }
  }

  /** An endpoint that is ready in every third clock only. */
  function Thirds(ring: seq<Qword>, m: nat): seq<Input> {
    if m == 0 then [] else Thirds(ring, m - 1) + [Input(false, ring)] + [Input(true, ring)] + [Input(false, ring)]
  }

  /** With such a one, out of step, no further qword goes on the bus, however long it lasts. */
  lemma {:induction false} NeverEnds(s: Sys, n: nat, ring: seq<Qword>, m: nat)
    requires InData(s.x, n) && s.x.fsm == S4 && |ring| == RING
    ensures var e := Run(s, Thirds(ring, m));
            e.x.fsm == S4 && e.x.count == s.x.count && InData(e.x, n)
    decreases m
  {
    hide Step, Run;
    if m == 0 {
      RunNone(s);
    } else {
      NeverEnds(s, n, ring, m - 1);
      var ins, no, yes := Thirds(ring, m - 1), Input(false, ring), Input(true, ring);
      More(s, ins, no);
      More(s, ins + [no], yes);
      More(s, ins + [no] + [yes], no);
      DataStep(Run(s, ins), n, no);
      DataStep(Run(s, ins + [no]), n, yes);
      DataStep(Run(s, ins + [no] + [yes]), n, no);
    }
  }

  lemma RunNone(s: Sys)
    ensures Run(s, []) == s
  {
  }
}
