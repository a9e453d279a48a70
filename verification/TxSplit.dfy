/** How a read request may be answered: in pieces that end at multiples of 64 bytes (section 2.3.1.1 of the PCI
    Express Base Specification, with a read completion boundary of 64).  Which posted addresses keep pieces of
    a single dword, which the reassembly does not understand, from coming up. */
module TxSplit {
  import Q = TxRequest

  const BOUNDARY: nat := 64

  /** Completions of these many dwords answer the request for the bytes from `addr` to `end`. */
  predicate Splits(addr: nat, end: nat, lens: seq<nat>)
    decreases |lens|
  {
    if lens == [] then addr == end
    else
      var next := addr + 4 * lens[0];
      lens[0] > 0 && next <= end && (next == end || next % BOUNDARY == 0) && Splits(next, end, lens[1..])
  }

  /** A request for `size` qwords at `addr` may be answered with a completion of one dword. */
  ghost predicate MayComeSingly(addr: nat, size: nat) {
    exists lens :: Splits(addr, addr + 8 * size, lens) && 1 in lens
  }

  lemma Residue(x: nat, q: nat, r: nat)
    requires x == BOUNDARY * q + r && r < BOUNDARY
    ensures x % BOUNDARY == r
  {
    assert x / BOUNDARY == q;
  }

  /** One dword before a boundary and one past it. */
  lemma NextToBoundary(x: nat)
    ensures x % BOUNDARY == 60 <==> (x + 4) % BOUNDARY == 0
    ensures x % BOUNDARY == 0 <==> (x + 4) % BOUNDARY == 4
  {
    var q, r := x / BOUNDARY, x % BOUNDARY;
    if r < 60 { Residue(x + 4, q, r + 4); } else { Residue(x + 4, q + 1, r - 60); }
  }

  lemma EightsApart(x: nat)
    requires x % 8 == 0
    ensures x % BOUNDARY != 60 && x % BOUNDARY != 4
  {
    var e, q := x / 8, x / BOUNDARY;
    assert x == 8 * e && x % BOUNDARY == 8 * (e - 8 * q);
  }

  /** Only the first piece, up to the first boundary, and the last, from the last one, can be that short. */
  lemma {:induction false} SinglePiece(addr: nat, end: nat, lens: seq<nat>, atStart: bool)
    requires Splits(addr, end, lens) && 1 in lens && (atStart || addr % BOUNDARY == 0)
    ensures (atStart && addr % BOUNDARY == 60) || end % BOUNDARY == 4 || (atStart && addr + 4 == end)
    decreases |lens|
  {
    NextToBoundary(addr);
    if lens[0] != 1 {
      assert 1 in lens[1..];
      SinglePiece(addr + 4 * lens[0], end, lens[1..], false);
    }
  }

  lemma TwoPieces(addr: nat, a: nat, b: nat)
    requires a > 0 && b > 0 && (addr + 4 * a) % BOUNDARY == 0
    ensures Splits(addr, addr + 4 * a + 4 * b, [a, b])
  {
    assert [a, b][1..] == [b] && [b][1..] == [];
    assert Splits(addr + 4 * a, addr + 4 * a + 4 * b, [b]);
  }

  /** A request may bring a completion of one dword exactly if it starts one dword before a boundary or ends one
      dword past one. */
  lemma ComesSinglyIff(addr: nat, size: nat)
    requires size > 0
    ensures MayComeSingly(addr, size) <==> addr % BOUNDARY == 60 || (addr + 8 * size) % BOUNDARY == 4
  {
    var end := addr + 8 * size;
    NextToBoundary(addr);
    NextToBoundary(end - 4);
    if addr % BOUNDARY == 60 {
      TwoPieces(addr, 1, 2 * size - 1);
      assert 1 in [1, 2 * size - 1];
    } else if end % BOUNDARY == 4 {
      TwoPieces(addr, 2 * size - 1, 1);
      assert 1 in [2 * size - 1, 1];
    }
    hide Splits;
    if lens :| Splits(addr, end, lens) && 1 in lens {
      SinglePiece(addr, end, lens, true);
    }
  }

  /** No request at a dword-aligned address brings one, whatever its size, exactly if the address is a multiple
      of eight. */
  lemma NeverSinglyIff(addr: nat)
    requires addr % 4 == 0
    ensures (forall size :: size > 0 ==> !MayComeSingly(addr, size)) <==> addr % 8 == 0
  {
    hide MayComeSingly;
    if addr % 8 == 0 {
      forall size | size > 0 ensures !MayComeSingly(addr, size) { AlignedNeverSingly(addr, size); }
    } else {
      var size := OddSingly(addr);
    }
  }

  lemma AlignedNeverSingly(addr: nat, size: nat)
    requires addr % 8 == 0 && size > 0
    ensures !MayComeSingly(addr, size)
  {
    ComesSinglyIff(addr, size);
    hide MayComeSingly;
    EightsApart(addr);
    assert addr + 8 * size == 8 * (addr / 8 + size);
    EightsApart(addr + 8 * size);
  }

  lemma OddSingly(addr: nat) returns (size: nat)
    requires addr % 4 == 0 && addr % 8 != 0
    ensures size > 0 && MayComeSingly(addr, size)
  {
    var e := addr / 8;
    assert addr == 4 * (addr / 4) && addr == 8 * e + 4;
    size := 8 - e % 8;
    Residue(addr + 8 * size, e / 8 + 1, 4);
    ComesSinglyIff(addr, size);
    hide MayComeSingly;
  }

  lemma EightAtBoundary(x: nat)
    requires x % BOUNDARY == 0
    ensures x % 8 == 0
  {
    assert x / 8 == 8 * (x / BOUNDARY);
  }

  lemma EvenLength(addr: nat, len: nat)
    requires addr % 8 == 0 && (addr + 4 * len) % 8 == 0
    ensures len % 2 == 0
  {
    assert len == 2 * ((addr + 4 * len) / 8 - addr / 8);
  }

  /** At such an address all completions bring whole qwords. */
  lemma {:induction false} AlignedAreEven(addr: nat, end: nat, lens: seq<nat>)
    requires addr % 8 == end % 8 == 0 && Splits(addr, end, lens)
    ensures forall n :: n in lens ==> n % 2 == 0 && n >= 2
    decreases |lens|
  {
    if lens != [] {
      if addr + 4 * lens[0] != end { EightAtBoundary(addr + 4 * lens[0]); }
      EvenLength(addr, lens[0]);
      AlignedAreEven(addr + 4 * lens[0], end, lens[1..]);
      hide Splits;
      assert forall n :: n in lens ==> n == lens[0] || n in lens[1..];
    }
  }

  /** All posted buffers start at a multiple of eight. */
  ghost predicate AlignedPosts(acts: seq<Q.Action>) { forall a :: a in acts && a.Post? ==> a.addr % 8 == 0 }

  ghost predicate AllAligned(buffers: seq<Q.Buffer>) { forall b :: b in buffers ==> b.addr % 8 == 0 }

  lemma {:induction false} BuffersAligned(acts: seq<Q.Action>)
    requires AlignedPosts(acts)
    ensures AllAligned(Q.Run(Q.Init(), acts).buffers)
    decreases |acts|
  {
    hide Q.Enabled, Q.AskSize;
    if acts != [] {
      BuffersAligned(acts[..|acts| - 1]);
    }
  }

  /** In every run in which all buffers are so aligned, and of safe sizes, every completion of every request
      brings whole qwords, however it is split. */
  lemma WholeQwordsOnly(acts: seq<Q.Action>, i: nat, lens: seq<nat>)
    requires Q.SafePosts(acts) && AlignedPosts(acts) && i < |Q.Run(Q.Init(), acts).reqs|
    requires var q := Q.Run(Q.Init(), acts).reqs[i];
             Splits(q.tlp.addr, q.tlp.addr + 8 * q.size, lens)
    ensures forall n :: n in lens ==> n % 2 == 0 && n >= 2
  {
    var x := Q.Run(Q.Init(), acts);
    Q.RunKeeps(acts);
    BuffersAligned(acts);
    RequestAligned(x, i);
    hide Q.Inv, Q.Run, AllAligned;
    AlignedAreEven(x.reqs[i].tlp.addr, x.reqs[i].tlp.addr + 8 * x.reqs[i].size, lens);
  }

  lemma RequestAligned(x: Q.Requester, i: nat)
    requires Q.Inv(x) && AllAligned(x.buffers) && i < |x.reqs|
    ensures x.reqs[i].tlp.addr % 8 == 0 && (x.reqs[i].tlp.addr + 8 * x.reqs[i].size) % 8 == 0
  {
    hide Q.Space, Q.Counts, Q.Current;
    assert Q.RequestOk(x.reqs, x.buffers, i);
    assert x.buffers[x.reqs[i].nth - 1] in x.buffers;
  }
}
