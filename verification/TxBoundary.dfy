/** Which buffers can lead to a read request that crosses a 4 KB boundary, which section 2.2.7 of the PCI Express
    Base Specification forbids: exactly those that lie across one themselves. */
module TxBoundary {
  import opened Ring
  import opened TxRequest
  import opened TxRequestOverrun

  const FOUR_KB: nat := 0x1000

  /** The bytes of `size` qwords at `addr` do not all lie in one 4 KB block. */
  predicate Across(addr: nat, size: nat)
    requires size > 0
  {
    addr / FOUR_KB != (addr + 8 * size - 1) / FOUR_KB
  }

  /** Some request for a buffer of `n` qwords at `addr` crosses a boundary. */
  ghost predicate Crosses(q: Requester, addr: nat, n: nat) {
    exists k: nat :: CrossesAt(q, addr, n, k)
  }

  ghost predicate CrossesAt(q: Requester, addr: nat, n: nat, k: nat) {
    && k < |q.reqs| && 1 <= q.reqs[k].nth <= |q.buffers|
    && q.buffers[q.reqs[k].nth - 1].addr == addr && q.buffers[q.reqs[k].nth - 1].qwords == n
    && q.reqs[k].size > 0 && Across(q.reqs[k].tlp.addr, q.reqs[k].size)
  }

  lemma Boundary(a: nat, b: nat)
    requires a <= b
    ensures a / FOUR_KB != b / FOUR_KB <==> FOUR_KB * (a / FOUR_KB + 1) <= b
  {
  }

  /** What lies within a stretch that no boundary cuts is not cut either. */
  lemma Within(addr: nat, n: nat, a: nat, size: nat)
    requires n > 0 && size > 0 && addr <= a && a + 8 * size <= addr + 8 * n && !Across(addr, n)
    ensures !Across(a, size)
  {
    Boundary(addr, addr + 8 * n - 1);
    Boundary(a, a + 8 * size - 1);
    Boundary(addr, a);
  }

  /** A stretch is cut exactly if the first boundary behind its start lies before its end. */
  lemma AcrossIff(addr: nat, size: nat)
    requires size > 0
    ensures Across(addr, size) <==> FOUR_KB * (addr / FOUR_KB + 1) < addr + 8 * size
  {
    Boundary(addr, addr + 8 * size - 1);
  }

  lemma NoneCrosses(q: Requester, addr: nat, n: nat)
    requires Inv(q) && n > 0 && !Across(addr, n)
    ensures !Crosses(q, addr, n)
  {
    forall k: nat | CrossesAt(q, addr, n, k) ensures false {
      assert RequestOk(q.reqs, q.buffers, k);
      hide Inv;
      Within(addr, n, q.reqs[k].tlp.addr, q.reqs[k].size);
    }
  }

  // ----- driving a request across ------------------------------------------------------------

  /** The last buffer is the one at `addr`; `rem` of its `n` qwords are still to ask for. */
  ghost predicate Aimed(q: Requester, addr: nat, n: nat, rem: nat, gap: nat) {
    && Driven(q, n, rem, gap) && q.r.readFrom + 8 * rem == addr + 8 * n < U64
    && q.buffers != [] && q.buffers[|q.buffers| - 1].addr == addr && q.buffers[|q.buffers| - 1].qwords == n
  }

  ghost predicate NoPosts(acts: seq<Action>) { forall a :: a in acts ==> !a.Post? }

  lemma AimedAsk(q: Requester, addr: nat, n: nat, rem: nat, gap: nat) returns (acts: seq<Action>)
    requires Aimed(q, addr, n, rem, gap) && gap <= RING && 0 < Sizing(gap, gap, rem) <= rem
    ensures var size := Sizing(gap, gap, rem);
            && Aimed(Run(q, acts), addr, n, rem - size, gap + size)
            && (Across(addr + 8 * (n - rem), size) ==> Crosses(Run(q, acts), addr, n))
    ensures NoPosts(acts)
  {
    var size, ask := Sizing(gap, gap, rem), Action.Ask(q.read, q.read, q.done);
    AskAsked(q, n, rem, gap);
    SizeAtMostRing(gap, rem);
    AskAnswered(q, n, rem, gap, size);
    RunOne(q, ask);
    RunOne(Step(q, ask), Complete);
    RunConcat(q, [ask], [Complete]);
    acts := [ask] + [Complete];
    hide Sizing, Run, Driven;
    AimedAnswered(q, addr, n, rem, gap, size);
  }

  lemma AimedAnswered(q: Requester, addr: nat, n: nat, rem: nat, gap: nat, size: nat)
    requires Aimed(q, addr, n, rem, gap) && 0 < size <= rem
    ensures var m := Step(DoAsk(q, q.read, size), Complete);
            && m.r.readFrom + 8 * (rem - size) == addr + 8 * n && m.buffers == q.buffers
            && (Across(addr + 8 * (n - rem), size) ==> Crosses(m, addr, n))
  {
    var m := Step(DoAsk(q, q.read, size), Complete);
    hide LengthField, Driven, Across;
    assert q.r.Typed() && q.done == |q.reqs| && q.r.readFrom == addr + 8 * (n - rem) by {
      AimedFacts(q, addr, n, rem, gap);
    }
    assert m == DoAsk(q, q.read, size).(done := q.done + 1);
    assert m.reqs[|q.reqs|].tlp.addr == addr + 8 * (n - rem) && m.reqs[|q.reqs|].size == size;
    if Across(addr + 8 * (n - rem), size) { assert CrossesAt(m, addr, n, |q.reqs|); }
  }

  lemma AimedFacts(q: Requester, addr: nat, n: nat, rem: nat, gap: nat)
    requires Aimed(q, addr, n, rem, gap)
    ensures q.r.Typed() && q.done == |q.reqs| && rem <= n && q.r.readFrom == addr + 8 * (n - rem)
  {
  }

  lemma AimedRead(q: Requester, addr: nat, n: nat, rem: nat, gap: nat, k: nat) returns (acts: seq<Action>)
    requires Aimed(q, addr, n, rem, gap) && k <= gap
    ensures Aimed(Run(q, acts), addr, n, rem, gap - k)
    ensures NoPosts(acts)
  {
    acts := [Action.Read(q.read + k)];
    RunOne(q, acts[0]);
  }

  lemma AimedPost(q: Requester, m: nat, gap: nat, addr: nat, n: nat) returns (acts: seq<Action>)
    requires Driven(q, m, 0, gap) && 1 <= n < U32 && addr + 8 * n < U64
    ensures Aimed(Run(q, acts), addr, n, n, gap) && acts == [Action.Post(addr, n)]
  {
    RemainingIs(q.r);
    acts := [Action.Post(addr, n)];
    RunOne(q, acts[0]);
  }

  /** With 480 qwords reserved the machine asks for 16. */
  lemma AsksSixteen(rem: nat)
    requires rem >= 32
    ensures Sizing(480, 480, rem) == 16
  {
  }

  /** With an empty ring it asks for a ring's worth, for half of one, or for all. */
  lemma AsksDrained(rem: nat)
    ensures Sizing(0, 0, rem) == if rem > RING then RING else if rem == RING then 256 else rem
  {
  }

  /** From 480 reserved qwords: `j` requests for 16 each, and the ring drained. */
  lemma {:induction false} Approach(q: Requester, addr: nat, n: nat, rem: nat, j: nat) returns (acts: seq<Action>)
    requires Aimed(q, addr, n, rem, 480) && rem >= 16 * j && (j > 0 ==> rem >= 16 * j + 16)
    ensures Aimed(Run(q, acts), addr, n, rem - 16 * j, 0)
    ensures NoPosts(acts)
    decreases j
  {
    hide Aimed, Sizing, Run;
    if j == 0 {
      acts := AimedRead(q, addr, n, rem, 480, 480);
    } else {
      AsksSixteen(rem);
      var a := AimedAsk(q, addr, n, rem, 480);
      var b := AimedRead(Run(q, a), addr, n, rem - 16, 496, 16);
      var c := Approach(Run(Run(q, a), b), addr, n, rem - 16, j - 1);
      RunConcat(q, a, b);
      RunConcat(q, a + b, c);
      acts := a + b + c;
    }
  }

  /** How many requests for 16 qwords bring the next one across: none if the first request from the empty ring
      reaches the first boundary, one, or two if after one there would be just a ring's worth left. */
  function Detour(addr: nat, n: nat): (j: nat)
    ensures j <= 2
  {
    var first := FOUR_KB * (addr / FOUR_KB + 1);
    if n < RING then 0
    else if n == RING then (if first < addr + 2048 then 0 else 1)
    else if first < addr + FOUR_KB then 0
    else if n == RING + 16 then 2 else 1
  }

  lemma DetourCrosses(addr: nat, n: nat)
    requires n > 0 && Across(addr, n)
    ensures var j := Detour(addr, n);
            && n > 16 * j && (j > 0 ==> n >= 16 * j + 16)
            && var size := Sizing(0, 0, n - 16 * j);
               0 < size <= n - 16 * j && Across(addr + 128 * j, size)
  {
    var j := Detour(addr, n);
    AcrossIff(addr, n);
    AsksDrained(n - 16 * j);
    AcrossIff(addr + 128 * j, Sizing(0, 0, n - 16 * j));
    hide Sizing, Across;
    BlockOf(addr, j);
  }

  /** A start on a boundary and a few requests further lie in the same block; so does one well before it. */
  lemma BlockOf(addr: nat, j: nat)
    requires j <= 2
    ensures var first := FOUR_KB * (addr / FOUR_KB + 1);
            first >= addr + 2048 ==> FOUR_KB * ((addr + 128 * j) / FOUR_KB + 1) == first
    ensures addr < FOUR_KB * (addr / FOUR_KB + 1) <= addr + FOUR_KB
  {
    if FOUR_KB * (addr / FOUR_KB + 1) >= addr + 2048 { Boundary(addr, addr + 128 * j); }
  }

  /** All posts are of 480 qwords at zero or of `n` at `addr`. */
  ghost predicate OnlyPosts(acts: seq<Action>, addr: nat, n: nat) {
    forall a :: a in acts && a.Post? ==> a == Action.Post(0, 480) || a == Action.Post(addr, n)
  }

  /** A run from reset that leaves 480 qwords reserved and posts the buffer. */
  lemma Prepare(addr: nat, n: nat) returns (acts: seq<Action>)
    requires 1 <= n < U32 && addr + 8 * n < U64
    ensures Aimed(Run(Init(), acts), addr, n, n, 480) && OnlyPosts(acts, addr, n)
  {
    var q := Init();
    assert Driven(q, 0, 0, 0);
    hide Driven, Run, Sizing;
    var a := AimedPost(q, 0, 0, 0, 480);
    AsksDrained(480);
    var b := AimedAsk(Run(q, a), 0, 480, 480, 0);
    assert Driven(Run(Run(q, a), b), 480, 0, 480);
    var c := AimedPost(Run(Run(q, a), b), 480, 480, addr, n);
    RunConcat(q, a, b);
    RunConcat(q, a + b, c);
    acts := a + b + c;
  }

  lemma CrossingFrom(q: Requester, addr: nat, n: nat, j: nat, size: nat) returns (acts: seq<Action>)
    requires Aimed(q, addr, n, n, 480) && n > 16 * j && (j > 0 ==> n >= 16 * j + 16)
    requires size == Sizing(0, 0, n - 16 * j) && 0 < size <= n - 16 * j && Across(addr + 128 * j, size)
    ensures NoPosts(acts) && Crosses(Run(q, acts), addr, n)
  {
    hide Aimed, Run, Sizing, Across, Crosses;
    var a := Approach(q, addr, n, n, j);
    var b := AimedAsk(Run(q, a), addr, n, n - 16 * j, 0);
    RunConcat(q, a, b);
    acts := a + b;
  }

  lemma CrossingExists(addr: nat, n: nat) returns (acts: seq<Action>)
    requires 1 <= n < U32 && addr + 8 * n < U64 && Across(addr, n)
    ensures OnlyPosts(acts, addr, n) && Crosses(Run(Init(), acts), addr, n)
  {
    var q, j := Init(), Detour(addr, n);
    DetourCrosses(addr, n);
    var a := Prepare(addr, n);
    hide Aimed, Run, Sizing, Across, Crosses, Detour, OnlyPosts, NoPosts, Init;
    var b := CrossingFrom(Run(q, a), addr, n, j, Sizing(0, 0, n - 16 * j));
    RunConcat(q, a, b);
    acts := a + b;
    NoMorePosts(a, b, addr, n);
  }

  lemma NoMorePosts(a: seq<Action>, b: seq<Action>, addr: nat, n: nat)
    requires OnlyPosts(a, addr, n) && NoPosts(b)
    ensures OnlyPosts(a + b, addr, n)
  {
  }

  /** Whatever else of safe size is posted, no request for a buffer of safe size ever crosses a 4 KB boundary
      exactly if the buffer itself lies across none. */
  lemma NeverCrossesIff(addr: nat, n: nat)
    requires 1 <= n < U32 && addr + 8 * n < U64 && SafeSize(n)
    ensures (forall acts :: SafePosts(acts) ==> !Crosses(Run(Init(), acts), addr, n)) <==> !Across(addr, n)
  {
    hide Across, Crosses, Run, Inv;
    if Across(addr, n) {
      var acts := CrossingExists(addr, n);
      assert SafePosts(acts);
    } else {
      forall acts | SafePosts(acts) ensures !Crosses(Run(Init(), acts), addr, n) {
        RunKeeps(acts);
        NoneCrosses(Run(Init(), acts), addr, n);
      }
    }
  }

  /** Page-aligned buffers are no help: here is a run of them, of safe sizes, with a request that crosses. */
  lemma PageAlignedCrosses() returns (acts: seq<Action>)
    ensures SafePosts(acts) && (forall a :: a in acts && a.Post? ==> a.addr % FOUR_KB == 0)
    ensures Crosses(Run(Init(), acts), FOUR_KB, 1030)
  {
    assert Across(FOUR_KB, 1030);
    hide Crosses, Run, Across;
    acts := CrossingExists(FOUR_KB, 1030);
  }
}
