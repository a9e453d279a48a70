/** The transmit side's completions: each beat of a completion goes into the ring slots its request
    reserved, a dword left over from an odd split is saved until the next completion, and the committed
    pointer follows the requests in order. */
module TxReassembly {
  import opened Ring

  /** Four bytes in host memory order; what they are does not matter here. */
  type Dword = int

  datatype Qword = Qword(low: Dword, high: Dword)

  const TAGS: nat := 4

  /** wr_to_bram_fsm: s0 waits for a completion, s1 takes tag and first dword; then with or without a saved
      dword before and after: s2 none, s3 after, s4 both, s5 before. */
  datatype Fsm = S0 | S1 | S2 | S3 | S4 | S5

  /** The registers kept per tag. */
  datatype Slot = Slot(addr: nat, size: nat, received: nat, savedEn: bool, saved: Dword, ready: bool)

  /** Values computed ahead: a tag's address and received size after the completion at hand, the next
      write address, and the one after it. */
  datatype Look = Look(addr: nat, received: nat, wr: nat, wrP1: nat)

  datatype Regs = Regs(fsm: Fsm, qwords: nat, odd: bool, tag: nat, look: Look, dwAux: Dword) {
    ghost predicate Typed() {
      qwords < 512 && tag < TAGS && look.addr < SPAN && look.received < SPAN && look.wr < SPAN && look.wrP1 < SPAN
    }
  }

  ghost predicate SlotTyped(s: Slot) { s.addr < SPAN && s.size < SPAN && s.received < SPAN }

  ghost predicate SlotsTyped(slots: seq<Slot>) { |slots| == TAGS && forall t :: 0 <= t < TAGS ==> SlotTyped(slots[t]) }

  /** A beat on the receive bus after the completion's first two: two dwords, in wire order. */
  datatype Beat = Beat(valid: bool, first: Dword, second: Dword, last: bool)

  function Bump(a: nat): nat { (a + 1) % SPAN }

  /** A request handed over claims its tag's registers. */
  function Claim(s: Slot, addr: nat, size: nat): Slot {
    s.(addr := addr, size := size, received := 0, savedEn := false)
  }

  /** State s0: the first beat carries the length in dwords. */
  function Header(r: Regs, len: nat): Regs {
    r.(fsm := S1, qwords := len / 2 % 512, odd := len % 2 == 1)
  }

  /** State s1: the second beat carries the tag and the first dword.  The registers take what the bus shows in
      every clock; only a valid one (`valid`) leads on. */
  function First(r: Regs, s: Slot, tag: nat, dw: Dword, valid: bool): Regs {
    r.(fsm := if !valid then r.fsm else if s.savedEn then (if r.odd then S5 else S4) else (if r.odd then S3 else S2),
       tag := tag, dwAux := dw,
       look := Look((s.addr + r.qwords) % SPAN, (s.received + r.qwords) % SPAN, s.addr, Bump(s.addr)))
  }

  /** Where a beat in states s2 to s5 writes, and what. */
  function Target(r: Regs): nat { if r.fsm == S2 || r.fsm == S3 then r.look.wr else r.look.wrP1 }

  function Written(r: Regs, b: Beat): Qword {
    if r.fsm == S2 || r.fsm == S3 then Qword(r.dwAux, b.first) else Qword(b.first, b.second)
  }

  /** States s2 to s5: the tag's registers, written in every clock, right once the last beat has come. */
  function AfterBeat(r: Regs, s: Slot, b: Beat): Slot {
    var n := if r.fsm == S5 then s.(addr := Bump(r.look.addr), received := Bump(r.look.received))
             else s.(addr := r.look.addr, received := r.look.received);
    var m := match r.fsm
             case S3 => n.(savedEn := true, saved := b.second)
             case S4 => n.(savedEn := true, saved := b.first)
             case _ => n.(savedEn := false);
    if b.valid && b.last then m.(ready := true) else m
  }

  function NextRegs(r: Regs, b: Beat): Regs {
    if !b.valid then r
    else
      var n := if r.fsm == S2 || r.fsm == S3 then r.(look := r.look.(wr := Bump(r.look.wr)), dwAux := b.second)
               else r.(look := r.look.(wrP1 := Bump(r.look.wrP1)));
      if b.last then n.(fsm := S0) else n
  }

  /** commit_wr_addr_fsm: `closing` is its state s1. */
  datatype CommitRegs = CommitRegs(closing: bool, committed: nat, target: nat, completed: nat) {
    ghost predicate Typed() { committed < SPAN && target < TAGS && completed < 8 }
  }

  function Committed(c: CommitRegs, s: Slot): CommitRegs {
    if c.closing then c.(closing := false, target := (c.target + 1) % TAGS, completed := (c.completed + 1) % 8)
    else if s.ready then c.(committed := s.addr, closing := s.received == s.size)
    else c
  }

  /** A completion of one dword is over with the beat that state s1 takes, but s1 does not look for its end:
      the machine goes on to s3 or s5 and takes whatever comes next for another beat of it. */
  lemma SingleDwordIsMissed(r: Regs, s: Slot, tag: nat, dw: Dword, next: Beat)
    ensures var n := First(Header(r, 1), s, tag, dw, true);
            && n.fsm == (if s.savedEn then S5 else S3)
            && (!s.savedEn ==> AfterBeat(n, s, next).saved == next.second && AfterBeat(n, s, next).savedEn)
  {
  }

  /** A completion of 1024 dwords has a length field of zero: its qwords are not counted.  Below that the
      machine counts what the completion brings. */
  lemma CountsQwordsIff(r: Regs, len: nat)
    requires len <= 1024
    ensures Header(r, len).qwords == len / 2 <==> len < 1024
  {
  }

  /** The module as the hardware has it. */
  class Reassembler {
    var fsm: Fsm
    var qwords: nat
    var odd: bool
    var tag: nat
    var look: Look
    var dwAux: Dword
    var closing: bool
    var committed: nat
    var target: nat
    var completed: nat
    const slots: array<Slot>
    const ring: array<Qword>

    ghost function State(): Regs
      reads this
    {
      Regs(fsm, qwords, odd, tag, look, dwAux)
    }

    ghost function CommitState(): CommitRegs
      reads this
    {
      CommitRegs(closing, committed, target, completed)
    }

    ghost predicate Valid()
      reads this, slots
    {
      State().Typed() && CommitState().Typed() && SlotsTyped(slots[..]) && ring.Length == RING
    }

    constructor ()
      ensures Valid() && fresh(slots) && fresh(ring)
      ensures State() == Regs(S0, 0, false, 0, Look(0, 0, 0, 0), 0) && CommitState() == CommitRegs(false, 0, 0, 0)
      ensures forall t :: 0 <= t < TAGS ==> !slots[t].ready
    {
      fsm, qwords, odd, tag, look, dwAux := S0, 0, false, 0, Look(0, 0, 0, 0), 0;
      closing, committed, target, completed := false, 0, 0, 0;
      slots := new Slot[TAGS](_ => Slot(0, 0, 0, false, 0, false));
      ring := new Qword[RING](_ => Qword(0, 0));
    }

    /** A request was acknowledged: its tag's registers start anew. */
    method Claimed(t: nat, addr: nat, size: nat)
      requires Valid() && t < TAGS && addr < SPAN && size < SPAN
      modifies slots
      ensures Valid() && slots[..] == old(slots[..])[t := Claim(old(slots[t]), addr, size)]
    {
      slots[t] := slots[t].(addr := addr, size := size, received := 0, savedEn := false);
    }

    method TakeHeader(len: nat)
      requires Valid() && fsm == S0
      modifies this
      ensures Valid() && State() == Header(old(State()), len) && CommitState() == old(CommitState())
    {
      qwords, odd, fsm := len / 2 % 512, len % 2 == 1, S1;
    }

    /** Whatever tag the bus shows, its `ready` is cleared and its next slot written, also without data. */
    method TakeFirst(t: nat, dw: Dword, valid: bool)
      requires Valid() && fsm == S1 && t < TAGS
      modifies this, slots, ring
      ensures Valid() && State() == First(old(State()), old(slots[t]), t, dw, valid)
      ensures CommitState() == old(CommitState())
      ensures slots[..] == old(slots[..])[t := old(slots[t]).(ready := false)]
      ensures ring[..] == old(ring[..])[old(slots[t].addr) % RING := Qword(old(slots[t].saved), dw)]
    {
      var s := slots[t];
      look := Look((s.addr + qwords) % SPAN, (s.received + qwords) % SPAN, s.addr, (s.addr + 1) % SPAN);
      tag, dwAux := t, dw;
      slots[t] := s.(ready := false);
      ring[s.addr % RING] := Qword(s.saved, dw);
      if valid {
        fsm := match (s.savedEn, odd)
               case (false, false) => S2
               case (false, true) => S3
               case (true, false) => S4
               case (true, true) => S5;
      }
    }

    method TakeBeat(b: Beat)
      requires Valid() && (fsm == S2 || fsm == S3 || fsm == S4 || fsm == S5)
      modifies this, slots, ring
      ensures Valid() && State() == NextRegs(old(State()), b) && CommitState() == old(CommitState())
      ensures slots[..] == old(slots[..])[old(tag) := AfterBeat(old(State()), old(slots[tag]), b)]
      ensures ring[..] == old(ring[..])[old(Target(State())) % RING := Written(old(State()), b)]
    {
      match fsm {
        case S2 =>
          slots[tag] := slots[tag].(addr := look.addr, received := look.received, savedEn := false);
          WriteLow(b);
        case S3 =>
          slots[tag] := slots[tag].(addr := look.addr, received := look.received, savedEn := true, saved := b.second);
          WriteLow(b);
        case S4 =>
          slots[tag] := slots[tag].(addr := look.addr, received := look.received, savedEn := true, saved := b.first);
          WriteHigh(b);
        case S5 =>
          slots[tag] := slots[tag].(addr := (look.addr + 1) % SPAN, received := (look.received + 1) % SPAN,
                                    savedEn := false);
          WriteHigh(b);
      }
      if b.valid && b.last {
        slots[tag] := slots[tag].(ready := true);
        fsm := S0;
      }
    }

    /** The dword at hand and the first of the beat make a qword; the second is kept. */
    method WriteLow(b: Beat)
      requires Valid() && (fsm == S2 || fsm == S3)
      modifies `look, `dwAux, ring
      ensures State() == NextRegs(old(State()), b.(last := false)) && CommitState() == old(CommitState()) && Valid()
      ensures ring[..] == old(ring[..])[old(Target(State())) % RING := Written(old(State()), b)]
    {
      ring[look.wr % RING] := Qword(dwAux, b.first);
      if b.valid {
        look := look.(wr := (look.wr + 1) % SPAN);
        dwAux := b.second;
      }
    }

    /** The beat's two dwords make a qword. */
    method WriteHigh(b: Beat)
      requires Valid() && (fsm == S4 || fsm == S5)
      modifies `look, ring
      ensures State() == NextRegs(old(State()), b.(last := false)) && CommitState() == old(CommitState()) && Valid()
      ensures ring[..] == old(ring[..])[old(Target(State())) % RING := Written(old(State()), b)]
    {
      ring[look.wrP1 % RING] := Qword(b.first, b.second);
      if b.valid {
        look := look.(wrP1 := (look.wrP1 + 1) % SPAN);
      }
    }

    method CommitTick()
      requires Valid()
      modifies this, slots
      ensures Valid() && State() == old(State()) && CommitState() == Committed(old(CommitState()), old(slots[target]))
      ensures slots[..] == if old(closing) then old(slots[..])[old(target) := old(slots[target]).(ready := false)]
                           else old(slots[..])
    {
      if closing {
        slots[target] := slots[target].(ready := false);
        target, completed, closing := (target + 1) % TAGS, (completed + 1) % 8, false;
      } else if slots[target].ready {
        committed := slots[target].addr;
        closing := slots[target].received == slots[target].size;
      }
    }
  }
}
