/** Who owns a huge page.  The host unlocks a page; the device takes pages one after the other, fills
    them, writes their header, and clears their status.  Clock by clock, with the page's status bits, the
    machines that hand pages out and take them back, and the writer's states between pages. */
module HugePages {
  datatype PageNo = One | Two

  function Other(p: PageNo): PageNo { if p == One then Two else One }

  /** One bit per page. */
  datatype Bits = Bits(one: bool, two: bool)

  function Get(b: Bits, p: PageNo): bool { if p == One then b.one else b.two }

  function Put(b: Bits, p: PageNo, v: bool): Bits { if p == One then b.(one := v) else b.(two := v) }

  /** The status registers: unlocking sets a bit, and wins over freeing, which clears it. */
  datatype Status = Status(unlock: Bits, status: Bits)

  datatype Command = NoCommand | Unlock(page: PageNo)

  function NextBit(bit: bool, unlock: bool, free: bool): bool { if unlock then true else if free then false else bit }

  function NextStatus(s: Status, free: Bits, c: Command): Status {
    Status(Bits(c == Unlock(One), c == Unlock(Two)),
           Bits(NextBit(s.status.one, s.unlock.one, free.one), NextBit(s.status.two, s.unlock.two, free.two)))
  }

  /** give_huge_page_fsm: the page whose turn it is, whether it has been given, and the page whose address
      the current-address register holds; free_huge_page_fsm: the page freed next, and whether that is
      happening. */
  datatype Giver = Giver(turn: PageNo, given: bool, current: PageNo, freeTurn: PageNo, freeing: bool)

  function Free(g: Giver): Bits { Bits(g.freeing && g.freeTurn == One, g.freeing && g.freeTurn == Two) }

  function NextGiver(g: Giver, status: Bits, returned: bool): Giver {
    var h := if g.freeing then g.(freeing := false, freeTurn := Other(g.freeTurn))
             else if returned then g.(freeing := true) else g;
    if g.given then (if returned then h.(given := false, turn := Other(g.turn)) else h)
    else if Get(status, g.turn) then h.(given := true, current := g.turn)
    else h
  }

  /** send_fsm between pages: s0; s1 to s7 as Filling; s8 to s12. */
  datatype Fsm = Waiting | Filling | Header | Address | Count | Finish | Interrupt

  /** The writer: its state, the page its data address points into, the page its header is written to, and
      the pulse that returns a page. */
  datatype Writer = Writer(fsm: Fsm, data: PageNo, header: PageNo, returning: bool)

  /** Whether the page is to be ended, and the endpoint's and the interrupt's flow control. */
  datatype Input = Input(end: bool, ready: bool, interrupts: bool, intReady: bool, command: Command)

  function NextWriter(w: Writer, g: Giver, i: Input): Writer {
    match w.fsm
    case Waiting => w.(data := g.current, fsm := if g.given then Filling else Waiting)
    case Filling => if i.end then w.(fsm := Header) else w
    case Header => w.(fsm := Address)
    case Address => if i.ready then w.(returning := true, header := g.current, fsm := Count) else w
    case Count => w.(returning := false, fsm := if i.ready then Finish else Count)
    case Finish => if i.ready then w.(fsm := if i.interrupts then Interrupt else Waiting) else w
    case Interrupt => if i.intReady then w.(fsm := Waiting) else w
  }

  class PageControl {
    var unlock: Bits
    var status: Bits
    var turn: PageNo
    var given: bool
    var current: PageNo
    var freeTurn: PageNo
    var freeing: bool
    var fsm: Fsm
    var data: PageNo
    var header: PageNo
    var returning: bool

    ghost function State(): Device
      reads this
    {
      Device(Status(unlock, status), Giver(turn, given, current, freeTurn, freeing),
             Writer(fsm, data, header, returning))
    }

    constructor (data0: PageNo, header0: PageNo)
      ensures State() == Reset(data0, header0)
    {
      unlock, status := Bits(false, false), Bits(false, false);
      turn, given, current, freeTurn, freeing := One, false, One, One, false;
      fsm, data, header, returning := Waiting, data0, header0, false;
    }

    method Tick(i: Input)
      modifies this
      ensures State() == NextDevice(old(State()), i)
    {
      hide NextStatus, NextGiver;
      var st, cur, giv, ret := status, current, given, returning;
      SetStatus(i.command);
      Give(st, ret);
      Advance(i, cur, giv);
    }

    /** The writer's own clock; `cur` and `giv` are what it saw of the giver's registers. */
    method Advance(i: Input, cur: PageNo, giv: bool)
      modifies `fsm, `data, `header, `returning
      ensures Writer(fsm, data, header, returning)
           == NextWriter(old(Writer(fsm, data, header, returning)), Giver(turn, giv, cur, freeTurn, freeing), i)
    {
      match fsm {
        case Waiting =>
          data := cur;
          if giv { fsm := Filling; }
        case Filling => if i.end { fsm := Header; }
        case Header => fsm := Address;
        case Address => if i.ready { returning, header, fsm := true, cur, Count; }
        case Count =>
          returning := false;
          if i.ready { fsm := Finish; }
        case Finish => if i.ready { fsm := if i.interrupts then Interrupt else Waiting; }
        case Interrupt => if i.intReady { fsm := Waiting; }
      }
    }

    method SetStatus(c: Command)
      modifies `unlock, `status
      ensures Status(unlock, status)
           == NextStatus(old(Status(unlock, status)), Free(Giver(turn, given, current, freeTurn, freeing)), c)
    {
      if unlock.one { status := status.(one := true); }
      else if freeing && freeTurn == One { status := status.(one := false); }
      if unlock.two { status := status.(two := true); }
      else if freeing && freeTurn == Two { status := status.(two := false); }
      unlock := Bits(c == Unlock(One), c == Unlock(Two));
    }

    method Give(status: Bits, returned: bool)
      modifies `turn, `given, `current, `freeTurn, `freeing
      ensures Giver(turn, given, current, freeTurn, freeing)
           == NextGiver(old(Giver(turn, given, current, freeTurn, freeing)), status, returned)
    {
      if freeing {
        freeing, freeTurn := false, Other(freeTurn);
      } else if returned {
        freeing := true;
      }
      if given {
        if returned { given, turn := false, Other(turn); }
      } else if Get(status, turn) {
        given, current := true, turn;
      }
    }
  }

  datatype Device = Device(s: Status, g: Giver, w: Writer)

  function Reset(data0: PageNo, header0: PageNo): Device {
    Device(Status(Bits(false, false), Bits(false, false)), Giver(One, false, One, One, false),
           Writer(Waiting, data0, header0, false))
  }

  function NextDevice(d: Device, i: Input): Device {
    Device(NextStatus(d.s, Free(d.g), i.command), NextGiver(d.g, d.s.status, d.w.returning), NextWriter(d.w, d.g, i))
  }

  // ----- runs --------------------------------------------------------------------------------

  /** The device, the pages the host holds, and the pages unlocked and returned so far. */
  datatype System = System(d: Device, host: Bits, unlocked: seq<PageNo>, returned: seq<PageNo>)

  function Init(data0: PageNo, header0: PageNo): System {
    System(Reset(data0, header0), Bits(true, true), [], [])
  }

  /** The host unlocks only pages it holds. */
  predicate Enabled(x: System, i: Input) { i.command.Unlock? ==> Get(x.host, i.command.page) }

  /** A page is back with the host when its header has been written. */
  function Returns(d: Device, i: Input): bool { d.w.fsm == Finish && i.ready }

  function Step(x: System, i: Input): System {
    if !Enabled(x, i) then x
    else
      var h := if i.command.Unlock? then Put(x.host, i.command.page, false) else x.host;
      System(NextDevice(x.d, i), if Returns(x.d, i) then Put(h, x.d.w.header, true) else h,
             if i.command.Unlock? then x.unlocked + [i.command.page] else x.unlocked,
             if Returns(x.d, i) then x.returned + [x.d.w.header] else x.returned)
  }

  function Run(x: System, ins: seq<Input>): System
    decreases |ins|
  {
    if ins == [] then x else Step(Run(x, ins[..|ins| - 1]), ins[|ins| - 1])
  }

  // ----- the invariant -----------------------------------------------------------------------

  function Nth(n: nat): PageNo { if n % 2 == 0 then One else Two }

  /** The writer has a page: it may send data to it, and then its header. */
  predicate Using(w: Writer) { w.fsm == Filling || w.fsm == Header || w.fsm == Address || w.returning }

  /** The header of a page already handed back is still on its way to the host. */
  predicate Ending(w: Writer) { !w.returning && (w.fsm == Count || w.fsm == Finish) }

  /** A page the device has not begun with: the host holds it, or has unlocked it. */
  predicate Idle(x: System, p: PageNo) {
    if Get(x.host, p) then !Get(x.d.s.unlock, p) && !Get(x.d.s.status, p)
    else Get(x.d.s.unlock, p) != Get(x.d.s.status, p)
  }

  /** A page the device has taken. */
  predicate Taken(x: System, p: PageNo) { !Get(x.host, p) && !Get(x.d.s.unlock, p) && Get(x.d.s.status, p) }

  predicate Inv(x: System) {
    var g, w := x.d.g, x.d.w;
    && (w.returning ==> w.fsm == Count)
    && (g.freeing ==> Ending(w))
    && g.freeTurn == (if g.freeing then Other(g.turn) else g.turn)
    && (Using(w) ==> g.given && (if w.returning then w.header else w.data) == g.turn)
    && (g.given ==> g.current == g.turn)
    && g.turn == Nth(|x.returned| + if Ending(w) then 1 else 0)
    && (if g.given then Taken(x, g.turn) else Idle(x, g.turn))
    && (if Ending(w) then w.header == Other(g.turn) && !Get(x.host, w.header) && !Get(x.d.s.unlock, w.header)
             && Get(x.d.s.status, w.header) == g.freeing
        else Idle(x, Other(g.turn)))
  }

  lemma StepKeeps(x: System, i: Input)
    requires Inv(x)
    ensures Inv(Step(x, i))
  {
    if Enabled(x, i) {
      match x.d.w.fsm {
        case Waiting => FreshKeeps(x, i);
        case Interrupt => FreshKeeps(x, i);
        case Count => EndingKeeps(x, i);
        case Finish => EndingKeeps(x, i);
        case _ => UsingKeeps(x, i);
      }
    }
  }

  lemma FreshKeeps(x: System, i: Input)
    requires Inv(x) && Enabled(x, i) && (x.d.w.fsm == Waiting || x.d.w.fsm == Interrupt)
    ensures Inv(Step(x, i))
  {
  }

  lemma UsingKeeps(x: System, i: Input)
    requires Inv(x) && Enabled(x, i) && (x.d.w.fsm == Filling || x.d.w.fsm == Header || x.d.w.fsm == Address)
    ensures Inv(Step(x, i))
  {
  }

  lemma EndingKeeps(x: System, i: Input)
    requires Inv(x) && Enabled(x, i) && (x.d.w.fsm == Count || x.d.w.fsm == Finish)
    ensures Inv(Step(x, i))
  {
  }

  lemma {:induction false} RunKeeps(data0: PageNo, header0: PageNo, ins: seq<Input>)
    ensures Inv(Run(Init(data0, header0), ins))
    decreases |ins|
  {
    hide Step, Inv;
    if ins == [] {
      InitInv(data0, header0);
    } else {
      RunKeeps(data0, header0, ins[..|ins| - 1]);
      StepKeeps(Run(Init(data0, header0), ins[..|ins| - 1]), ins[|ins| - 1]);
    }
  }

  lemma InitInv(data0: PageNo, header0: PageNo)
    ensures Inv(Init(data0, header0)) && Run(Init(data0, header0), []) == Init(data0, header0)
  {
  }

  // ----- main results ------------------------------------------------------------------------

  /** While the device sends data or a header, the page it goes to is not the host's: it has been unlocked
      since it was last returned. */
  lemma NeverWritesToHost(data0: PageNo, header0: PageNo, ins: seq<Input>)
    ensures var x := Run(Init(data0, header0), ins); var w := x.d.w;
            && (w.fsm == Filling ==> !Get(x.host, w.data))
            && (w.fsm == Header || w.fsm == Address ==> w.data == x.d.g.current && !Get(x.host, x.d.g.current))
            && (w.fsm == Count || w.fsm == Finish ==> !Get(x.host, w.header))
  {
    RunKeeps(data0, header0, ins);
    hide Run, Idle;
  }

  function Occurrences(s: seq<PageNo>, p: PageNo): nat {
    if s == [] then 0 else Occurrences(s[..|s| - 1], p) + if s[|s| - 1] == p then 1 else 0
  }

  lemma OccurrencesAppend(s: seq<PageNo>, q: PageNo, p: PageNo)
    ensures Occurrences(s + [q], p) == Occurrences(s, p) + if q == p then 1 else 0
  {
    assert (s + [q])[..|s|] == s;
  }

  predicate BalancedAt(x: System, p: PageNo) {
    Occurrences(x.unlocked, p) == Occurrences(x.returned, p) + (if Get(x.host, p) then 0 else 1)
  }

  /** Each page has been unlocked as often as returned, and once more while the host does not have it. */
  predicate Balanced(x: System) { BalancedAt(x, One) && BalancedAt(x, Two) }

  predicate Alternating(s: seq<PageNo>) { forall k :: 0 <= k < |s| ==> s[k] == Nth(k) }

  /** In every run the pages come back strictly alternately, page one first, each at most once per unlock. */
  lemma {:induction false} ReturnsAlternate(data0: PageNo, header0: PageNo, ins: seq<Input>)
    ensures var x := Run(Init(data0, header0), ins);
            Alternating(x.returned) && Balanced(x)
    decreases |ins|
  {
    hide Step, Inv, Balanced, Alternating;
    if ins == [] {
      NothingYet(data0, header0);
    } else {
      ReturnsAlternate(data0, header0, ins[..|ins| - 1]);
      RunKeeps(data0, header0, ins[..|ins| - 1]);
      StepAlternates(Run(Init(data0, header0), ins[..|ins| - 1]), ins[|ins| - 1]);
    }
  }

  lemma NothingYet(data0: PageNo, header0: PageNo)
    ensures var x := Run(Init(data0, header0), []);
            Alternating(x.returned) && Balanced(x)
  {
  }

  /** What comes back is the page whose turn it is, and the host does not hold it. */
  lemma ReturnedPage(x: System, i: Input)
    requires Inv(x) && Returns(x.d, i)
    ensures x.d.w.header == Nth(|x.returned|) && !Get(x.host, x.d.w.header)
  {
    hide NextDevice;
    NthNext(|x.returned|);
  }

  lemma StepAlternates(x: System, i: Input)
    requires Inv(x) && Alternating(x.returned) && Balanced(x)
    ensures Alternating(Step(x, i).returned) && Balanced(Step(x, i))
  {
    if Returns(x.d, i) { ReturnedPage(x, i); }
    hide Inv, NextDevice, Nth;
    StepBalanced(x, i, One);
    StepBalanced(x, i, Two);
    hide BalancedAt;
  }

  lemma StepBalanced(x: System, i: Input, p: PageNo)
    requires BalancedAt(x, p) && (Returns(x.d, i) ==> !Get(x.host, x.d.w.header))
    ensures BalancedAt(Step(x, i), p)
  {
    hide Occurrences, NextDevice, Returns;
    if i.command.Unlock? { OccurrencesAppend(x.unlocked, i.command.page, p); }
    OccurrencesAppend(x.returned, x.d.w.header, p);
  }

  lemma NthNext(n: nat)
    ensures Nth(n + 1) == Other(Nth(n))
  {
  }

  // ----- pages are taken ---------------------------------------------------------------------

  predicate AllEnabled(x: System, ins: seq<Input>)
    decreases |ins|
  {
    ins == [] || (AllEnabled(x, ins[..|ins| - 1]) && Enabled(Run(x, ins[..|ins| - 1]), ins[|ins| - 1]))
  }

  /** The clocks until the writer has the page: the unlocking shows in the status, the page is given, and taken. */
  function UntilTaken(d: Device): (k: nat)
    ensures 1 <= k <= 3
  {
    if d.g.given then 1 else if Get(d.s.status, d.g.turn) then 2 else 3
  }

  /** The writer waits, and the page next in turn has been unlocked. */
  predicate PageDue(x: System) { x.d.w.fsm == Waiting && !Get(x.host, Nth(|x.returned|)) }

  lemma DueOn(x: System, i: Input)
    requires Inv(x) && PageDue(x) && Enabled(x, i)
    ensures var n := Step(x, i);
            && n.returned == x.returned
            && if UntilTaken(x.d) == 1 then n.d.w.fsm == Filling && n.d.w.data == Nth(|x.returned|)
               else PageDue(n) && UntilTaken(n.d) == UntilTaken(x.d) - 1
  {
    assert x.d.g.turn == Nth(|x.returned|) && !x.d.w.returning && !x.d.g.freeing && !Returns(x.d, i);
    hide Nth;
    assert x.d.g.given ==> x.d.g.current == x.d.g.turn;
    assert !x.d.g.given ==> Get(x.d.s.unlock, x.d.g.turn) != Get(x.d.s.status, x.d.g.turn);
    hide Inv;
  }

  /** From any state that keeps the invariant in which the writer waits and the page next in turn has been
      unlocked, whatever else happens: after one to three clocks the writer is filling that page. */
  lemma {:induction false} UnlockedIsTaken(x: System, ins: seq<Input>)
    requires Inv(x) && PageDue(x) && AllEnabled(x, ins) && |ins| <= UntilTaken(x.d)
    ensures var n := Run(x, ins);
            && n.returned == x.returned && Inv(n)
            && if |ins| == UntilTaken(x.d) then n.d.w.fsm == Filling && n.d.w.data == Nth(|x.returned|)
               else PageDue(n) && UntilTaken(n.d) == UntilTaken(x.d) - |ins|
    decreases |ins|
  {
    hide Inv, PageDue, Step, Enabled, UntilTaken, Nth;
    if ins != [] {
      var before, i := ins[..|ins| - 1], ins[|ins| - 1];
      UnlockedIsTaken(x, before);
      DueOn(Run(x, before), i);
      StepKeeps(Run(x, before), i);
    }
  }

  /** An endpoint that takes every beat and every interrupt, and a page that is ended at the first occasion. */
  predicate Eager(i: Input) { i.end && i.ready && i.intReady }

  predicate HasPage(w: Writer) { w.fsm != Waiting && w.fsm != Interrupt }

  /** The clocks until the page in use is back with the host. */
  function UntilBack(w: Writer): nat {
    match w.fsm
    case Filling => 5
    case Header => 4
    case Address => 3
    case Count => 2
    case Finish => 1
    case _ => 0
  }

  lemma BackOn(x: System, i: Input)
    requires Inv(x) && HasPage(x.d.w) && Enabled(x, i) && Eager(i)
    ensures var n := Step(x, i);
            if UntilBack(x.d.w) == 1
            then n.returned == x.returned + [Nth(|x.returned|)]
                 && n.d.w.fsm == if i.interrupts then Interrupt else Waiting
            else n.returned == x.returned && HasPage(n.d.w) && UntilBack(n.d.w) == UntilBack(x.d.w) - 1
  {
    if x.d.w.fsm == Finish { ReturnedPage(x, i); }
    hide Inv, NextStatus, NextGiver, Nth;
  }

  /** A page in use is back with the host after five clocks at most, and after an interrupt the next clock that finds
      it taken lets the writer wait for the next page. */
  lemma {:induction false} ComesBack(x: System, ins: seq<Input>)
    requires Inv(x) && HasPage(x.d.w) && AllEnabled(x, ins) && (forall k :: 0 <= k < |ins| ==> Eager(ins[k]))
    requires |ins| <= UntilBack(x.d.w)
    ensures var n := Run(x, ins);
            && Inv(n)
            && if |ins| == UntilBack(x.d.w) then n.returned == x.returned + [Nth(|x.returned|)] && !HasPage(n.d.w)
               else n.returned == x.returned && HasPage(n.d.w) && UntilBack(n.d.w) == UntilBack(x.d.w) - |ins|
    decreases |ins|
  {
    hide Inv, Step, Enabled, Nth, Eager;
    if ins != [] {
      var before, i := ins[..|ins| - 1], ins[|ins| - 1];
      ComesBack(x, before);
      BackOn(Run(x, before), i);
      StepKeeps(Run(x, before), i);
    }
  }

  lemma InterruptEnds(x: System, i: Input)
    requires Inv(x) && x.d.w.fsm == Interrupt && Enabled(x, i)
    ensures Step(x, i).d.w.fsm == (if i.intReady then Waiting else Interrupt) && Step(x, i).returned == x.returned
  {
    hide Inv, NextStatus, NextGiver;
  }

  /** Everything is with the host, and the machines are at rest. */
  predicate AtRest(x: System) {
    && Inv(x) && x.d.w.fsm == Waiting && !x.d.w.returning && !x.d.g.given && !x.d.g.freeing
    && x.host == Bits(true, true)
  }

  const QUIET: Input := Input(false, true, false, false, NoCommand)

  /** A page's way: unlocked, given, and taken; ended at once, and returned. */
  function Taking(p: PageNo): seq<Input> { [QUIET.(command := Unlock(p)), QUIET, QUIET, QUIET] }

  const ENDING: seq<Input> := [QUIET.(end := true), QUIET, QUIET, QUIET, QUIET]

  lemma {:induction false} RunConcat(x: System, a: seq<Input>, b: seq<Input>)
    ensures Run(x, a + b) == Run(Run(x, a), b)
    decreases |b|
  {
    hide Step;
    if b == [] {
      assert a + b == a;
    } else {
      RunConcat(x, a, b[..|b| - 1]);
      assert (a + b)[..|a + b| - 1] == a + b[..|b| - 1];
    }
  }

  /** To the clock in which the page is taken. */
  lemma FirstHalf(x: System, p: PageNo)
    requires AtRest(x) && p == Nth(|x.returned|)
    ensures var y := Step(Step(Step(Step(x, QUIET.(command := Unlock(p))), QUIET), QUIET), QUIET);
            && Inv(y) && y.d.w == Writer(Filling, p, y.d.w.header, false) && y.d.g.given && !y.d.g.freeing
            && y.host == Put(Bits(true, true), p, false) && y.returned == x.returned
  {
    var a := Step(x, QUIET.(command := Unlock(p)));
    var b, c := Step(a, QUIET), Step(Step(a, QUIET), QUIET);
    StepKeeps(x, QUIET.(command := Unlock(p)));
    StepKeeps(a, QUIET);
    StepKeeps(b, QUIET);
    StepKeeps(c, QUIET);
    hide Nth;
    assert PageDue(a) && UntilTaken(a.d) == 3;
    hide Inv, Step, Enabled;
    assert Enabled(a, QUIET) && Enabled(b, QUIET) && Enabled(c, QUIET);
    DueOn(a, QUIET);
    DueOn(b, QUIET);
    DueOn(c, QUIET);
  }

  /** And from there to its return. */
  lemma SecondHalf(y: System, p: PageNo)
    requires Inv(y) && y.d.w == Writer(Filling, p, y.d.w.header, false) && y.d.g.given && !y.d.g.freeing
    requires y.host == Put(Bits(true, true), p, false) && p == Nth(|y.returned|)
    ensures var z := Step(Step(Step(Step(Step(y, QUIET.(end := true)), QUIET), QUIET), QUIET), QUIET);
            AtRest(z) && z.returned == y.returned + [p]
  {
    var a := Step(y, QUIET.(end := true));
    var b := Step(a, QUIET);
    var c := Step(b, QUIET);
    var d := Step(c, QUIET);
    StepKeeps(y, QUIET.(end := true));
    StepKeeps(a, QUIET);
    StepKeeps(b, QUIET);
    StepKeeps(c, QUIET);
    StepKeeps(d, QUIET);
    assert y.d.g.current == p by { hide Nth; }
    hide Inv, Nth;
    assert c.d.w == Writer(Count, p, p, true) && c.host == y.host;
    assert d.d.w == Writer(Finish, p, p, false) && d.d.g.freeing && !d.d.g.given && d.host == y.host;
  }

  lemma RunOne(x: System, i: Input)
    ensures Run(x, [i]) == Step(x, i)
  {
    hide Step;
    assert [i][..0] == [] && Run(x, []) == x;
  }

  lemma RunThree(x: System, i: Input, j: Input, k: Input)
    ensures Run(x, [i, j, k]) == Step(Step(Step(x, i), j), k)
  {
    hide Step;
    RunOne(x, i);
    assert [i, j][..1] == [i] && [i, j, k][..2] == [i, j];
  }

  lemma RunFour(x: System, i: Input, j: Input, k: Input, l: Input)
    ensures Run(x, [i, j, k, l]) == Step(Step(Step(Step(x, i), j), k), l)
  {
    hide Step;
    RunThree(x, i, j, k);
    assert [i, j, k, l][..3] == [i, j, k];
  }

  lemma RunFive(x: System, i: Input, j: Input, k: Input, l: Input, m: Input)
    ensures Run(x, [i, j, k, l, m]) == Step(Step(Step(Step(Step(x, i), j), k), l), m)
  {
    hide Step;
    RunFour(x, i, j, k, l);
    assert [i, j, k, l, m][..4] == [i, j, k, l];
  }

  lemma RoundTrip(x: System)
    requires AtRest(x)
    ensures var p := Nth(|x.returned|); var z := Run(Run(x, Taking(p)), ENDING);
            AtRest(z) && z.returned == x.returned + [p]
  {
    hide Step, Run, Inv, AtRest, Nth;
    var p := Nth(|x.returned|);
    FirstHalf(x, p);
    RunFour(x, QUIET.(command := Unlock(p)), QUIET, QUIET, QUIET);
    var y := Run(x, Taking(p));
    SecondHalf(y, p);
    RunFive(y, QUIET.(end := true), QUIET, QUIET, QUIET, QUIET);
  }

  lemma RestsAtFirst(data0: PageNo, header0: PageNo)
    ensures Run(Init(data0, header0), []) == Init(data0, header0)
    ensures AtRest(Init(data0, header0)) && Init(data0, header0).returned == []
  {
    InitInv(data0, header0);
  }

  /** Pages go round for ever: there are runs with any number of pages returned, which come back alternately. */
  lemma {:induction false} PagesGoRound(data0: PageNo, header0: PageNo, n: nat) returns (ins: seq<Input>)
    ensures var x := Run(Init(data0, header0), ins);
            AtRest(x) && |x.returned| == n
    decreases n
  {
    hide Run, AtRest, Step, Taking, ENDING, Nth, Init;
    if n == 0 {
      ins := [];
      RestsAtFirst(data0, header0);
    } else {
      var before := PagesGoRound(data0, header0, n - 1);
      var x := Run(Init(data0, header0), before);
      RoundTrip(x);
      RunConcat(Init(data0, header0), before, Taking(Nth(n - 1)));
      RunConcat(Init(data0, header0), before + Taking(Nth(n - 1)), ENDING);
      ins := before + Taking(Nth(n - 1)) + ENDING;
    }
  }

  /** One, two, and one again. */
  lemma ThreePages(data0: PageNo, header0: PageNo) returns (ins: seq<Input>)
    ensures Run(Init(data0, header0), ins).returned == [One, Two, One]
  {
    ins := PagesGoRound(data0, header0, 3);
    hide Run;
    ReturnsAlternate(data0, header0, ins);
  }
}
