/** When a read request goes out and for how much, told by what has been posted, asked for, read and answered;
    and that four requests can be under way at a time. */
module TxRequestSizing {
  import opened Ring
  import opened TxRequest
  import opened TxRequestOverrun

  /** What is left to ask for of the buffer posted last. */
  function Left(q: Requester): int {
    if q.buffers == [] then 0 else q.buffers[|q.buffers| - 1].start + q.buffers[|q.buffers| - 1].qwords - q.next
  }

  lemma LeftIs(q: Requester)
    requires Inv(q)
    ensures Left(q) == Remaining(q.r)
  {
    RemainingIs(q.r);
    hide Lists, Counts, Space;
  }

  /** All that is left goes below a ring together with what is not yet read, as seen a clock earlier. */
  predicate RestFits(q: Requester, older: nat) { Left(q) <= 512 && q.next - older + Left(q) < 512 }

  /** Something is left, and fewer than four requests are without their answer, as last registered. */
  predicate Wanted(q: Requester, completed: nat) { Left(q) > 0 && |q.reqs| - completed < 4 }

  lemma SizingIs(diff: nat, aux: nat, remaining: nat)
    requires diff <= aux <= RING && 1 <= remaining && !(aux == RING && remaining == RING)
    ensures var size := Sizing(diff, aux, remaining);
            if remaining > 512 && diff == 0 then size == 512
            else if remaining <= 512 && aux + remaining < 512 then size == remaining
            else Largest(aux, size)
  {
    if remaining <= RING { Bit9Is(aux + remaining); }
    ChunkIsLargest(aux);
    hide Chunk, Bit9, Largest;
  }

  lemma AskIs(q: Requester, older: nat, seen: nat, completed: nat)
    requires Inv(q) && Enabled(q, Action.Ask(older, seen, completed))
    ensures AskSize(q, older, seen, completed)
         == if Wanted(q, completed) then Sizing(q.next - seen, q.next - older, Left(q)) else 0
    ensures q.next - seen <= q.next - older <= RING && !(q.next - older == RING && Left(q) == RING)
  {
    AskDistances(q, older, seen, completed);
    LeftIs(q);
    hide Lists, Current, Counts, Sizing, Sub;
  }

  /** The size: a whole ring of a longer buffer into the empty ring; all that is left if it stays below a ring;
      else the largest power of two from 256 to 16 that does, if any. */
  lemma AskSizeIs(q: Requester, older: nat, seen: nat, completed: nat)
    requires Inv(q) && Enabled(q, Action.Ask(older, seen, completed))
    ensures var size := AskSize(q, older, seen, completed);
            if !Wanted(q, completed) then size == 0
            else if Left(q) > 512 && q.next == seen then size == 512
            else if RestFits(q, older) then size == Left(q)
            else Largest(q.next - older, size)
  {
    AskIs(q, older, seen, completed);
    if Wanted(q, completed) { SizingIs(q.next - seen, q.next - older, Left(q)); }
    hide Inv, AskSize, Sizing, Largest;
  }

  /** A request goes out exactly if something is left, fewer than four are under way, and all that is left or
      16 qwords stay below a ring, or more than a ring is left and the ring is empty. */
  lemma AsksIff(q: Requester, older: nat, seen: nat, completed: nat)
    requires Inv(q) && Enabled(q, Action.Ask(older, seen, completed))
    ensures |Step(q, Action.Ask(older, seen, completed)).reqs| == |q.reqs| + 1
       <==> Wanted(q, completed)
            && (RestFits(q, older) || q.next - older + 16 < 512 || (Left(q) > 512 && q.next == seen))
  {
    AskSizeIs(q, older, seen, completed);
    AskIs(q, older, seen, completed);
    AskAdds(q, older, seen, completed);
    hide Inv, AskSize, Sizing, Step;
  }

  lemma AskAdds(q: Requester, older: nat, seen: nat, completed: nat)
    requires Enabled(q, Action.Ask(older, seen, completed))
    ensures |Step(q, Action.Ask(older, seen, completed)).reqs|
         == |q.reqs| + if AskSize(q, older, seen, completed) > 0 then 1 else 0
  {
    hide AskSize, LengthField, Issued;
  }

  // ----- four at a time ----------------------------------------------------------------------

  /** `k` small buffers have been posted and asked for, and nothing has been answered. */
  ghost predicate Piled(q: Requester, k: nat) {
    Inv(q) && |q.reqs| == k && q.done == q.read == q.seen == 0 && q.next <= 127 * k && Left(q) == 0
  }

  lemma Posts(q: Requester, n: nat)
    requires q.r.Typed() && Remaining(q.r) == 0 && 1 <= n <= 127
    ensures var p := Step(q, Action.Post(0, n));
            && Left(p) == n && p.reqs == q.reqs && p.next == q.next && p.done == q.done && p.read == q.read
            && p.seen == q.seen && p.r.Typed() && p.buffers != []
  {
    assert Step(q, Action.Post(0, n)) == DoPost(q, 0, n);
  }

  lemma Pile(q: Requester, n: nat, k: nat) returns (acts: seq<Action>)
    requires Piled(q, k) && k < 4 && 1 <= n <= 127
    ensures Piled(Run(q, acts), k + 1) && SafePosts(acts)
  {
    hide Step, AskSize, Run, Largest, Left, Lists, Counts, Space, Current;
    var post, ask := Action.Post(0, n), Action.Ask(0, 0, 0);
    LeftIs(q);
    Posts(q, n);
    var p := Step(q, post);
    StepKeeps(q, post);
    assert Enabled(p, ask);
    hide Inv;
    AskSizeIs(p, 0, 0, 0);
    AskTakes(p, n);
    StepKeeps(p, ask);
    RunOne(q, post);
    RunOne(p, ask);
    RunConcat(q, [post], [ask]);
    acts := [post] + [ask];
  }

  lemma AskTakes(p: Requester, n: nat)
    requires p.r.Typed() && Enabled(p, Action.Ask(0, 0, 0)) && AskSize(p, 0, 0, 0) == n > 0
    ensures var m := Step(p, Action.Ask(0, 0, 0));
            && |m.reqs| == |p.reqs| + 1 && m.done == p.done && m.read == p.read && m.seen == 0
            && m.next == p.next + n && Left(m) == (if p.buffers == [] then 0 else Left(p) - n)
  {
    hide AskSize, LengthField, Issued;
  }

  /** Four buffers, all asked for before anything has been answered. */
  lemma FourOutstanding(n: nat) returns (acts: seq<Action>)
    requires 1 <= n <= 127
    ensures SafePosts(acts) && |Run(Init(), acts).reqs| == Run(Init(), acts).done + 4
  {
    var q := Init();
    assert Piled(q, 0);
    hide Piled, Run;
    var a := Pile(q, n, 0);
    var b := Pile(Run(q, a), n, 1);
    var c := Pile(Run(Run(q, a), b), n, 2);
    var d := Pile(Run(Run(Run(q, a), b), c), n, 3);
    RunConcat(q, a, b);
    RunConcat(q, a + b, c);
    RunConcat(q, a + b + c, d);
    acts := a + b + c + d;
    PiledFour(Run(q, acts));
  }

  lemma PiledFour(q: Requester)
    requires Piled(q, 4)
    ensures |q.reqs| == q.done + 4
  {
  }
}
