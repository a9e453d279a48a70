/** The driver's transmit side: buffers go into the descriptor ring, move to the garbage list when the
    device has completed them, and are freed up to the address the device last reported. */
module DriverTx {
  import opened DescRing

  const TX_COMPLETION_OKAY: nat := 0xcacabeef

  /** What tx_lock protects, and the completion words, which the device sets. */
  datatype Tx = Tx(descs: seq<Desc>, completion: seq<nat>, prod: nat, cons: nat, pending: seq<Desc>, freed: seq<nat>)

  ghost predicate Ok(t: Tx) { Circular(t.descs, t.prod, t.cons) && |t.completion| == |t.descs| }

  function InRing(t: Tx): seq<Desc>
    requires t.prod < |t.descs| && t.cons < |t.descs|
  {
    Contents(t.descs, t.prod, t.cons)
  }

  function Skbs(ds: seq<Desc>): seq<nat> { seq(|ds|, i requires 0 <= i < |ds| => ds[i].skb) }

  /** check_tx_completion's loop condition. */
  predicate HeadCompleted(t: Tx)
    requires t.cons < |t.descs| == |t.completion|
  {
    !Empty(t.descs, t.prod, t.cons) && t.completion[t.cons] == TX_COMPLETION_OKAY
  }

  /** One round of it: the oldest descriptor moves to the garbage list. */
  function Retire(t: Tx): Tx
    requires t.cons < |t.descs| == |t.completion|
  {
    t.(pending := t.pending + [t.descs[t.cons]], descs := t.descs[t.cons := t.descs[t.cons].(kern := 0)],
       completion := t.completion[t.cons := 0], cons := Inc(|t.descs|, t.cons))
  }

  lemma RetireMoves(t: Tx)
    requires Ok(t) && HeadCompleted(t)
    ensures var n := Retire(t);
            && Ok(n) && n.freed == t.freed && InRing(t) != []
            && n.pending == t.pending + [InRing(t)[0]] && InRing(n) == InRing(t)[1..]
  {
    FullAndEmptyIff(t.descs, t.prod, t.cons);
    PopTakesOldest(t.descs, t.prod, t.cons);
    var after := Retire(t);
    assert InRing(t) == [t.descs[t.cons]] + InRing(after);
    hide Circular, Contents;
  }

  function CountOf(t: Tx): nat
    requires t.prod < |t.descs| && t.cons < |t.descs|
  {
    Count(t.descs, t.prod, t.cons)
  }

  /** check_tx_completion */
  ghost function Check(t: Tx): (n: Tx)
    requires Ok(t)
    ensures Ok(n)
    decreases CountOf(t)
  {
    if HeadCompleted(t) then (RetireMoves(t); Check(Retire(t))) else t
  }

  /** The device has marked the `k` oldest slots as completed. */
  ghost predicate AllCompleted(t: Tx, k: nat)
    requires t.cons < |t.descs| == |t.completion| && k <= |t.descs|
  {
    forall i :: 0 <= i < k ==> t.completion[Around(|t.descs|, t.cons, i)] == TX_COMPLETION_OKAY
  }

  lemma CompletedAt(t: Tx, k: nat, i: nat)
    requires t.cons < |t.descs| == |t.completion| && k <= |t.descs| && AllCompleted(t, k) && i < k
    ensures t.completion[Around(|t.descs|, t.cons, i)] == TX_COMPLETION_OKAY
  {
  }

  lemma CompletedNext(t: Tx, j: nat)
    requires t.cons < |t.descs| == |t.completion| && j < |t.descs| && t.completion[t.cons] == TX_COMPLETION_OKAY
    requires AllCompleted(Retire(t), j)
    ensures AllCompleted(t, j + 1)
  {
    var n, r := |t.descs|, Retire(t);
    forall i | 0 <= i < j + 1 ensures t.completion[Around(n, t.cons, i)] == TX_COMPLETION_OKAY {
      if i > 0 {
        assert Around(n, t.cons, i) == Around(n, r.cons, i - 1) != t.cons;
        CompletedAt(r, j, i - 1);
      } else {
        assert Around(n, t.cons, i) == t.cons;
      }
    }
  }

  /** It moves the completed descriptors at the head of the ring, all of them, in order, and nothing else. */
  lemma {:induction false} CheckMoves(t: Tx) returns (k: nat)
    requires Ok(t)
    ensures Ok(Check(t)) && !HeadCompleted(Check(t))
    ensures k <= |InRing(t)| && Check(t).freed == t.freed
    ensures Check(t).pending == t.pending + InRing(t)[..k] && InRing(Check(t)) == InRing(t)[k..]
    ensures AllCompleted(t, k)
    decreases CountOf(t)
  {
    if HeadCompleted(t) {
      RetireMoves(t);
      FullAndEmptyIff(t.descs, t.prod, t.cons);
      var j := CheckMoves(Retire(t));
      k := j + 1;
      MoveOne(t.pending, InRing(t), j);
      hide Check, Circular, Contents, Count;
      CompletedNext(t, j);
    } else {
      k := 0;
    }
  }

  lemma MoveOne(p: seq<Desc>, r: seq<Desc>, j: nat)
    requires r != [] && j <= |r| - 1
    ensures (p + [r[0]]) + r[1..][..j] == p + r[..j + 1] && r[1..][j..] == r[j + 1..]
  {
  }

  /** How many pending descriptors clean_tx_pending_gc frees: those up to the first with the address, or,
      if there is none, all. */
  function ToFree(pending: seq<Desc>, addr: nat): (k: nat)
    ensures k <= |pending|
    ensures forall i :: 0 <= i < k - 1 ==> pending[i].dma != addr
    ensures (k > 0 && pending[k - 1].dma == addr) || k == |pending|
  {
    if pending == [] then 0 else if pending[0].dma == addr then 1 else 1 + ToFree(pending[1..], addr)
  }

  lemma FreesFirst(pending: seq<Desc>, addr: nat)
    requires pending != []
    ensures ToFree(pending, addr) == if pending[0].dma == addr then 1 else 1 + ToFree(pending[1..], addr)
  {
  }

  lemma FreeOne(all: seq<Desc>, i: nat, freed: seq<nat>)
    requires i < |all|
    ensures all[i..][1..] == all[i + 1..] && all[i..][0] == all[i]
    ensures freed + Skbs(all[..i]) + [all[i].skb] == freed + Skbs(all[..i + 1])
  {
    assert all[..i + 1] == all[..i] + [all[i]];
    assert Skbs(all[..i + 1]) == Skbs(all[..i]) + [all[i].skb];
  }

  lemma NoneFreed(all: seq<Desc>, freed: seq<nat>)
    ensures freed + Skbs(all[..0]) == freed && all[0..] == all
  {
  }

  function Clean(t: Tx, addr: nat): Tx {
    var k := ToFree(t.pending, addr);
    t.(freed := t.freed + Skbs(t.pending[..k]), pending := t.pending[k..])
  }

  /** lbuf_xmit */
  function Store(t: Tx, d: Desc): Tx
    requires t.prod < |t.descs|
  {
    t.(descs := t.descs[t.prod := d], prod := Inc(|t.descs|, t.prod))
  }

  /** Whether the ring has a free slot once the completed buffers are out of it. */
  ghost predicate Room(t: Tx)
    requires Ok(t)
  {
    !Full(Check(t).descs, Check(t).prod, Check(t).cons)
  }

  /** Every buffer taken over so far is freed, pending, or in the ring, in the order it came. */
  ghost predicate Conserved(t: Tx, accepted: seq<nat>) {
    Ok(t) && t.freed + Skbs(t.pending) + Skbs(InRing(t)) == accepted
  }

  lemma SkbsConcat(a: seq<Desc>, b: seq<Desc>)
    ensures Skbs(a + b) == Skbs(a) + Skbs(b)
  {
  }

  lemma CheckConserves(t: Tx, accepted: seq<nat>)
    requires Conserved(t, accepted)
    ensures Conserved(Check(t), accepted)
  {
    var k := CheckMoves(t);
    SkbsConcat(t.pending, InRing(t)[..k]);
    SkbsConcat(InRing(t)[..k], InRing(t)[k..]);
    assert InRing(t)[..k] + InRing(t)[k..] == InRing(t);
    hide Check, Ok, InRing, Skbs;
    Regroup(t.freed, Skbs(t.pending), Skbs(InRing(t)[..k]), Skbs(InRing(t)[k..]));
  }

  lemma Regroup<T>(a: seq<T>, b: seq<T>, c: seq<T>, d: seq<T>)
    ensures (a + (b + c)) + d == (a + b) + (c + d)
    ensures ((a + b) + c) + d == (a + (b + c)) + d
  {
  }

  lemma CleanConserves(t: Tx, addr: nat, accepted: seq<nat>)
    requires Conserved(t, accepted)
    ensures Conserved(Clean(t, addr), accepted)
  {
    var k := ToFree(t.pending, addr);
    assert t.pending[..k] + t.pending[k..] == t.pending;
    SkbsConcat(t.pending[..k], t.pending[k..]);
    hide Skbs, ToFree, Circular, Contents;
    Regroup(t.freed, Skbs(t.pending[..k]), Skbs(t.pending[k..]), Skbs(InRing(t)));
  }

  lemma StoreConserves(t: Tx, d: Desc, accepted: seq<nat>)
    requires Conserved(t, accepted) && !Full(t.descs, t.prod, t.cons) && d.kern != 0
    ensures Conserved(Store(t, d), accepted + [d.skb])
  {
    FullAndEmptyIff(t.descs, t.prod, t.cons);
    PushAppends(t.descs, t.prod, t.cons, d);
    SkbsConcat(InRing(t), [d]);
    assert Skbs([d]) == [d.skb];
    hide Circular, Contents, Skbs;
    Regroup(t.freed, Skbs(t.pending), Skbs(InRing(t)), [d.skb]);
  }

  // ----- the address the device reports ------------------------------------------------------

  /** All values the device's word has had: the first, then the writes of one gap after the other. */
  function Written(first: nat, device: seq<seq<nat>>): (w: seq<nat>)
    ensures w != []
  {
    if device == [] then [first] else Written(first, device[..|device| - 1]) + device[|device| - 1]
  }

  function Latest(first: nat, device: seq<seq<nat>>): nat {
    Written(first, device)[|Written(first, device)| - 1]
  }

  /** Zero in the word stands for nothing written. */
  ghost predicate NeverZero(w: seq<nat>) { forall i :: 0 < i < |w| ==> w[i] != 0 }

  ghost predicate Distinct(w: seq<nat>) { forall i, j :: 0 <= i < j < |w| ==> w[i] != w[j] }

  lemma {:induction false} WrittenPrefix(first: nat, device: seq<seq<nat>>, k: nat)
    requires k <= |device|
    ensures Written(first, device[..k]) <= Written(first, device)
    ensures forall i :: k <= i < |device| ==> |Written(first, device[..k])| + |device[i]| <= |Written(first, device)|
    decreases |device|
  {
    if k == |device| {
      assert device[..k] == device;
    } else {
      var shorter := device[..|device| - 1];
      WrittenPrefix(first, shorter, k);
      assert shorter[..k] == device[..k];
      forall i | k <= i < |device| ensures |Written(first, device[..k])| + |device[i]| <= |Written(first, device)| {
        if i < |device| - 1 { assert shorter[i] == device[i]; }
      }
    }
  }

  /** If no address is written twice, the same one at two moments means that nothing was written in between. */
  lemma NoneSince(first: nat, device: seq<seq<nat>>, seen: nat, taken: nat)
    requires Distinct(Written(first, device)) && seen <= taken <= |device|
    requires Latest(first, device[..seen]) == Latest(first, device[..taken])
    ensures forall k :: seen <= k < taken ==> device[k] == []
  {
    var upTo := device[..taken];
    assert upTo[..seen] == device[..seen];
    WrittenPrefix(first, device, taken);
    WrittenPrefix(first, upTo, seen);
    var a, b := Written(first, upTo[..seen]), Written(first, upTo);
    assert a[|a| - 1] == b[|a| - 1];
    assert |a| == |b|;
    forall k | seen <= k < taken ensures device[k] == [] {
      assert upTo[k] == device[k];
    }
  }

  class TxDriver {
    const descs: array<Desc>
    const completion: array<nat>
    var prod: nat
    var cons: nat
    var pending: seq<Desc>
    var freed: seq<nat>
    var gcAddr: nat
    ghost var accepted: seq<nat>

    ghost function State(): Tx
      reads this, descs, completion
    {
      Tx(descs[..], completion[..], prod, cons, pending, freed)
    }

    ghost predicate Valid()
      reads this, descs, completion
    {
      descs != (completion as object) && Conserved(State(), accepted)
    }

    constructor (n: nat)
      requires n > 0
      ensures Valid() && fresh(descs) && fresh(completion) && descs.Length == n
      ensures InRing(State()) == pending == [] && freed == accepted == [] && gcAddr == 0
    {
      descs := new Desc[n](_ => Desc(0, 0, 0));
      completion := new nat[n](_ => 0);
      prod, cons, pending, freed, gcAddr, accepted := 0, 0, [], [], 0, [];
    }

    method CheckTxCompletion()
      requires Valid()
      modifies this, descs, completion
      ensures Valid() && State() == Check(old(State())) && gcAddr == old(gcAddr) && accepted == old(accepted)
    {
      CheckConserves(State(), accepted);
      while !(prod == cons && descs[cons].kern == 0) && completion[cons] == TX_COMPLETION_OKAY
        invariant Ok(State()) && Check(State()) == Check(old(State()))
        invariant gcAddr == old(gcAddr) && accepted == old(accepted)
        decreases CountOf(State())
      {
        RetireMoves(State());
        pending := pending + [descs[cons]];
        descs[cons] := descs[cons].(kern := 0);
        completion[cons] := 0;
        cons := if cons == descs.Length - 1 then 0 else cons + 1;
      }
    }

    method CleanTxPendingGc(addr: nat) returns (empty: bool)
      requires Valid()
      modifies `pending, `freed
      ensures Valid() && State() == Clean(old(State()), addr) && empty == (pending == [])
    {
      hide Conserved, Skbs, ToFree;
      CleanConserves(State(), addr, accepted);
      NoneFreed(pending, freed);
      ghost var all, k := pending, ToFree(pending, addr);
      ghost var i := 0;
      var found := false;
      while pending != [] && !found
        invariant i <= |all| && pending == all[i..] && freed == old(freed) + Skbs(all[..i])
        invariant if found then i == k else i + ToFree(pending, addr) == k
        decreases |pending|, if found then 0 else 1
      {
        var d := pending[0];
        FreeOne(all, i, old(freed));
        FreesFirst(pending, addr);
        pending := pending[1..];
        freed := freed + [d.skb];
        found := d.dma == addr;
        i := i + 1;
      }
      empty := pending == [];
    }

    /** nf10_lbuf_start_xmit: true for NETDEV_TX_OK. */
    method StartXmit(kern: nat, dma: nat, skb: nat) returns (ok: bool)
      requires Valid() && kern != 0
      modifies this, descs, completion
      ensures Valid() && gcAddr == old(gcAddr)
      ensures ok == Room(old(State()))
      ensures State() == if ok then Store(Check(old(State())), Desc(kern, dma, skb)) else Check(old(State()))
      ensures accepted == if ok then old(accepted) + [skb] else old(accepted)
    {
      CheckTxCompletion();
      ok := !(prod == cons && descs[cons].kern != 0);
      if ok {
        StoreConserves(State(), Desc(kern, dma, skb), accepted);
        descs[prod] := Desc(kern, dma, skb);
        prod := if prod == descs.Length - 1 then 0 else prod + 1;
        accepted := accepted + [skb];
      }
    }

    /** nf10_lbuf_clean_tx_irq; `device[k]` are the addresses the device writes in the `k`th gap between two
        of its accesses.  It returns having found nothing, or once a round went by the last address the device
        had written when it read the word (`seen` gaps), which is also the last before the exchange (`taken`
        gaps); if the device repeats no address, none has come in between. */
    method CleanTxIrq(device: seq<seq<nat>>) returns (complete: bool, last: nat, seen: nat, taken: nat)
      requires Valid() && NeverZero(Written(gcAddr, device))
      modifies this, descs, completion
      ensures Valid() && accepted == old(accepted)
      ensures gcAddr == 0 && seen <= taken <= |device|
      ensures last == Latest(old(gcAddr), device[..seen]) == Latest(old(gcAddr), device[..taken])
      ensures Distinct(Written(old(gcAddr), device)) ==> forall k :: seen <= k < taken ==> device[k] == []
      ensures old(gcAddr) == 0 ==> complete && State() == old(State()) && taken == 0
    {
      seen, taken, last := 0, 0, gcAddr;
      if gcAddr == 0 { return true, 0, 0, 0; }
      ghost var first := gcAddr;
      while true
        invariant Valid() && accepted == old(accepted) && taken <= |device| && first == old(gcAddr)
        invariant gcAddr == Latest(first, device[..taken]) && gcAddr != 0
        decreases |device| - taken
      {
        taken := Gap(device, taken, first);
        CheckTxCompletion();
        taken := Gap(device, taken, first);
        last, seen := gcAddr, taken;
        complete := CleanTxPendingGc(last);
        taken := Gap(device, taken, first);
        if last == gcAddr {
          taken := Gap(device, taken, first);
          if gcAddr == last {
            if Distinct(Written(first, device)) { NoneSince(first, device, seen, taken); }
            gcAddr := 0;
            return;
          }
        }
      }
    }

    /** The device's writes in one gap. */
    method Gap(device: seq<seq<nat>>, taken: nat, ghost first: nat) returns (next: nat)
      requires taken <= |device| && gcAddr == Latest(first, device[..taken]) && gcAddr != 0
      requires NeverZero(Written(first, device))
      modifies `gcAddr
      ensures next == (if taken < |device| then taken + 1 else taken)
      ensures gcAddr == Latest(first, device[..next]) && gcAddr != 0
    {
      next := taken;
      if taken < |device| {
        if device[taken] != [] { gcAddr := device[taken][|device[taken]| - 1]; }
        next := taken + 1;
        WrittenPrefix(first, device, next);
        assert device[..next][..taken] == device[..taken];
      }
    }
  }
}
