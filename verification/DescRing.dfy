/** The driver's descriptor rings: two indices, and a NULL address that tells empty from full. */
module DescRing {
  /** A descriptor; `kern` is zero for NULL. */
  datatype Desc = Desc(kern: nat, dma: nat, skb: nat)

  /** Slot number `i` counted from `from` around a ring of `n`. */
  function Around(n: nat, from: nat, i: nat): nat {
    if from + i < n then from + i else from + i - n
  }

  function Inc(n: nat, i: nat): nat { if i + 1 == n then 0 else i + 1 }

  /** How many descriptors the indices and the NULL address stand for. */
  function Count(descs: seq<Desc>, prod: nat, cons: nat): nat
    requires prod < |descs| && cons < |descs|
  {
    if prod == cons then (if descs[cons].kern == 0 then 0 else |descs|)
    else if prod > cons then prod - cons
    else |descs| + prod - cons
  }

  /** The occupied slots are exactly those from `cons` around to `prod`. */
  ghost predicate Circular(descs: seq<Desc>, prod: nat, cons: nat) {
    && prod < |descs| && cons < |descs|
    && forall i :: 0 <= i < |descs| ==>
         (descs[Around(|descs|, cons, i)].kern != 0 <==> i < Count(descs, prod, cons))
  }

  function Contents(descs: seq<Desc>, prod: nat, cons: nat): seq<Desc>
    requires prod < |descs| && cons < |descs|
  {
    seq(Count(descs, prod, cons), i requires 0 <= i < Count(descs, prod, cons) => descs[Around(|descs|, cons, i)])
  }

  lemma ProdIsNext(descs: seq<Desc>, prod: nat, cons: nat)
    requires prod < |descs| && cons < |descs| && Count(descs, prod, cons) < |descs|
    ensures Around(|descs|, cons, Count(descs, prod, cons)) == prod
  {
  }

  /** Storing at the producer index appends, for every ring size. */
  lemma PushAppends(descs: seq<Desc>, prod: nat, cons: nat, d: Desc)
    requires Circular(descs, prod, cons) && Count(descs, prod, cons) < |descs| && d.kern != 0
    ensures var n := |descs|;
            && Circular(descs[prod := d], Inc(n, prod), cons)
            && Contents(descs[prod := d], Inc(n, prod), cons) == Contents(descs, prod, cons) + [d]
  {
    var n, after, next, k := |descs|, descs[prod := d], Inc(|descs|, prod), Count(descs, prod, cons);
    ProdIsNext(descs, prod, cons);
    PushCount(descs, prod, cons, d);
    forall i | 0 <= i < n ensures after[Around(n, cons, i)].kern != 0 <==> i < k + 1 {
      if i == k { assert Around(n, cons, i) == prod; } else { assert Around(n, cons, i) != prod; }
    }
    hide Count;
    assert Circular(after, next, cons);
    hide Circular;
    forall i | 0 <= i < k ensures after[Around(n, cons, i)] == descs[Around(n, cons, i)] {
      assert Around(n, cons, i) != prod;
    }
  }

  lemma PushCount(descs: seq<Desc>, prod: nat, cons: nat, d: Desc)
    requires Circular(descs, prod, cons) && Count(descs, prod, cons) < |descs| && d.kern != 0
    ensures Count(descs[prod := d], Inc(|descs|, prod), cons) == Count(descs, prod, cons) + 1
  {
    assert Around(|descs|, cons, 0) == cons;
  }

  /** Clearing at the consumer index takes the oldest, for every ring size. */
  lemma PopTakesOldest(descs: seq<Desc>, prod: nat, cons: nat)
    requires Circular(descs, prod, cons) && Count(descs, prod, cons) > 0
    ensures var n := |descs|; var after := descs[cons := descs[cons].(kern := 0)];
            && Circular(after, prod, Inc(n, cons))
            && Contents(descs, prod, cons) == [descs[cons]] + Contents(after, prod, Inc(n, cons))
  {
    var n, after, next := |descs|, descs[cons := descs[cons].(kern := 0)], Inc(|descs|, cons);
    var k := Count(descs, prod, cons);
    PopCount(descs, prod, cons);
    forall i | 0 <= i < n ensures after[Around(n, next, i)].kern != 0 <==> i < k - 1 {
      if i == n - 1 {
        assert Around(n, next, i) == cons;
      } else {
        assert Around(n, next, i) == Around(n, cons, i + 1) != cons;
      }
    }
    hide Count;
    assert Circular(after, prod, next);
    hide Circular;
    forall i | 0 <= i < k - 1 ensures after[Around(n, next, i)] == descs[Around(n, cons, i + 1)] {
      assert Around(n, next, i) == Around(n, cons, i + 1) != cons;
    }
    assert descs[Around(n, cons, 0)] == descs[cons];
  }

  lemma PopCount(descs: seq<Desc>, prod: nat, cons: nat)
    requires Circular(descs, prod, cons) && Count(descs, prod, cons) > 0
    ensures Count(descs[cons := descs[cons].(kern := 0)], prod, Inc(|descs|, cons)) == Count(descs, prod, cons) - 1
    ensures Count(descs, prod, cons) <= |descs|
  {
    var n, next := |descs|, Inc(|descs|, cons);
    if next == prod && n > 1 {
      assert Around(n, cons, 1) == next;
    }
  }

  predicate Full(descs: seq<Desc>, prod: nat, cons: nat)
    requires cons < |descs|
  {
    prod == cons && descs[cons].kern != 0
  }

  predicate Empty(descs: seq<Desc>, prod: nat, cons: nat)
    requires cons < |descs|
  {
    prod == cons && descs[cons].kern == 0
  }

  /** The driver's two tests are never confused: they hold exactly for no and for all slots occupied. */
  lemma FullAndEmptyIff(descs: seq<Desc>, prod: nat, cons: nat)
    requires Circular(descs, prod, cons)
    ensures Full(descs, prod, cons) <==> |Contents(descs, prod, cons)| == |descs|
    ensures Empty(descs, prod, cons) <==> |Contents(descs, prod, cons)| == 0
  {
  }
}
