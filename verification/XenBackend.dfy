/** The copier as the back end runs it: loops over the received buffers and the shared ring, filling the
    arrays of copy operations and of what the responses need, while the front end goes on as it likes. */
module XenBackend {
  import opened Ring
  import opened XenCopier

  // ----- rounds ------------------------------------------------------------------------------

  /** One more step of a run. */
  lemma OneMore(first: seq<Slot>, acts: seq<Action>, a: Action)
    requires ResetOk(first)
    ensures Run(Init(first), acts + [a]) == Step(Run(Init(first), acts), a)
    ensures Inv(Run(Init(first), acts + [a]))
  {
    assert (acts + [a])[..|acts|] == acts;
    RunKeeps(first, acts + [a]);
    hide Inv, Step;
  }

  /** What a round makes of the copier's part of the system, and what it leaves alone. */
  lemma WorkStep(x: System, ok: bool)
    requires Inv(x)
    ensures Typed(x.v)
    ensures var n := Step(x, Work(ok));
            && n.v == (if x.v.answering then AnswerStep(x.v, ok) else CopyStep(x.v))
            && n.requests == x.requests && n.heard == x.heard
            && |n.responses| == |x.responses| + (if x.v.answering && x.v.copyCons < |x.v.meta| then 1 else 0)
            && n.results == x.results + if x.v.answering && x.v.copyCons < |x.v.meta| then [ok] else []
  {
    TypedIn(x);
    hide Counts, Shared, Answered, Collected, Buffers;
  }

  lemma TypedIn(x: System)
    requires Inv(x)
    ensures Typed(x.v) && x.v.copyCons <= |x.v.meta| == |x.v.ops| <= SLOTS
  {
    hide Counts, Shared, Answered, Buffers, CollectedFrom;
  }

  /** A request to take means room in the arrays for it. */
  lemma RoomForOne(x: System)
    requires Inv(x) && !x.v.answering && SlotAvailable(x.v)
    ensures |x.v.meta| < SLOTS
  {
    NextRequest(x);
    hide Shared, Answered, Buffers, CollectedAt;
  }

  lemma AllAnswered(x: System)
    requires Inv(x) && x.v.meta == []
    ensures |x.responses| == x.taken == |x.copies|
  {
    hide Shared, Answered, Buffers, CollectedAt;
  }

  lemma ResultsGrow(x: System, a: Action)
    ensures x.results <= Step(x, a).results
  {
    hide Typed, AnswerStep, CopyStep;
  }

  /** Results are only added, one with each response. */
  lemma {:induction false} ResultsKept(first: seq<Slot>, acts: seq<Action>, more: seq<Action>)
    requires acts <= more
    ensures Run(Init(first), acts).results <= Run(Init(first), more).results
    decreases |more|
  {
    hide Step;
    if acts != more {
      ResultsKept(first, acts, more[..|more| - 1]);
      ResultsGrow(Run(Init(first), more[..|more| - 1]), more[|more| - 1]);
    }
  }

  lemma ResultPerResponse(x: System)
    requires Inv(x)
    ensures |x.results| == |x.responses|
  {
    hide Counts, Shared, Collected, Buffers, AnsweredAt;
  }

  /** Where no response has been added, no result has. */
  lemma SameResults(first: seq<Slot>, acts: seq<Action>, more: seq<Action>)
    requires acts <= more && Inv(Run(Init(first), acts)) && Inv(Run(Init(first), more))
    requires |Run(Init(first), acts).responses| == |Run(Init(first), more).responses|
    ensures Run(Init(first), acts).results == Run(Init(first), more).results
  {
    hide Run, Inv;
    ResultsKept(first, acts, more);
    ResultPerResponse(Run(Init(first), acts));
    ResultPerResponse(Run(Init(first), more));
  }

  lemma NothingLeft(v: Vif)
    requires Typed(v) && v.queue == []
    ensures CopyStep(v) == v.(answering := true)
  {
  }

  lemma NoSlotLeft(v: Vif, b: Buffer, rest: seq<Buffer>)
    requires Typed(v) && v.queue == [b] + rest && b.offset < b.size && !SlotAvailable(v)
    ensures CopyStep(v) == v.(answering := true)
  {
  }

  lemma FirstDone(v: Vif, b: Buffer, rest: seq<Buffer>)
    requires Typed(v) && v.queue == [b] + rest && b.offset >= b.size
    ensures CopyStep(v) == v.(queue := rest, done := v.done + [b])
  {
    assert v.queue[1..] == rest;
  }

  lemma ChunkPositive(b: Buffer)
    requires b.offset < b.size
    ensures 1 <= Chunk(b) && b.offset + Chunk(b) <= b.size
  {
  }

  /** A round that finds no buffer, or no request for the one at hand. */
  ghost predicate Turns(x: System) {
    && Typed(x.v) && !x.v.answering
    && (x.v.queue == [] || (x.v.queue[0].offset < x.v.queue[0].size && !SlotAvailable(x.v)))
  }

  /** Step number `n` of the run is that round. */
  ghost predicate TurnsAt(first: seq<Slot>, acts: seq<Action>, n: nat)
    requires n < |acts|
  {
    acts[n].Work? && Turns(Run(Init(first), acts[..n]))
  }

  /** There is one from step number `from` on. */
  ghost predicate Turned(first: seq<Slot>, acts: seq<Action>, from: nat) {
    exists n :: from <= n < |acts| && TurnsAt(first, acts, n)
  }

  lemma TurnsNow(first: seq<Slot>, acts: seq<Action>)
    requires Turns(Run(Init(first), acts))
    ensures Turned(first, acts + [Work(false)], |acts|)
  {
    var more := acts + [Work(false)];
    assert more[..|acts|] == acts && TurnsAt(first, more, |acts|);
  }

  lemma TurnedStays(first: seq<Slot>, acts: seq<Action>, more: seq<Action>, from: nat, earlier: nat)
    requires Turned(first, acts, from) && acts <= more && earlier <= from
    ensures Turned(first, more, earlier)
  {
    var n :| from <= n < |acts| && TurnsAt(first, acts, n);
    assert more[..n] == acts[..n] && TurnsAt(first, more, n);
  }

  /** The steps of the others. */
  function Theirs(now: seq<Action>): seq<Action> {
    if now == [] then []
    else Theirs(now[..|now| - 1]) + if now[|now| - 1].Work? then [] else [now[|now| - 1]]
  }

  class Xenvif {
    const slots: array<Slot>
    const meta: array<Meta>
    const ops: array<Copy>
    var reqProd: nat
    var reqEvent: nat
    var reqCons: nat
    var rspProd: nat
    var lastSlots: nat
    var queue: seq<Buffer>
    var done: seq<Buffer>

    /** The front end's counts: requests pushed, responses heard, and responses there to hear. */
    var pushed: nat
    var heard: nat
    var answered: nat

    /** Everything that has happened, as a run of the system. */
    ghost var first: seq<Slot>
    ghost var acts: seq<Action>

    ghost function Sys(): System
      reads this
    {
      Run(Init(first), acts)
    }

    /** The state in the middle of a call that holds `buffers` before those in the queue. */
    ghost function State(copyProd: nat, buffers: seq<Buffer>, answering: bool, copyCons: nat): Vif
      requires copyProd <= meta.Length && copyProd <= ops.Length
      reads this, slots, meta, ops
    {
      Vif(slots[..], reqProd, reqCons, rspProd, buffers + queue, done, meta[..copyProd], ops[..copyProd],
          answering, copyCons)
    }

    /** The state there is the copier's in the run so far. */
    ghost predicate During(copyProd: nat, buffers: seq<Buffer>, answering: bool, copyCons: nat)
      reads this, slots, meta, ops
    {
      && slots.Length == SLOTS && meta.Length == SLOTS && ops.Length == SLOTS && copyProd <= SLOTS
      && ResetOk(first) && Inv(Sys()) && Sys().v == State(copyProd, buffers, answering, copyCons)
      && pushed == |Sys().requests| && heard == Sys().heard && answered == |Sys().responses|
    }

    ghost predicate Valid()
      reads this, slots, meta, ops
    {
      During(0, [], false, 0)
    }

    constructor (id0: Slot)
      ensures Valid() && fresh(slots) && fresh(meta) && fresh(ops) && acts == []
    {
      slots := new Slot[SLOTS](_ => id0);
      meta := new Meta[SLOTS](_ => Meta(0, 0));
      ops := new Copy[SLOTS](_ => Copy(0, 0, 0));
      reqProd, reqEvent, reqCons, rspProd, lastSlots := 0, 0, 0, 0, 0;
      queue, done := [], [];
      pushed, heard, answered, acts := 0, 0, 0, [];
      new;
      first := slots[..];
      RunKeeps(first, []);
      assert Run(Init(first), []) == Init(first);
    }

    /** What the front end and the receiving side do while the back end is in between two accesses: requests
        as far as the ring has room, responses read, and buffers queued. */
    method Others(now: seq<Action>, ghost copyProd: nat, ghost buffers: seq<Buffer>, ghost answering: bool,
                  ghost copyCons: nat)
      requires During(copyProd, buffers, answering, copyCons)
      modifies `reqProd, `queue, `pushed, `heard, `acts, slots
      ensures During(copyProd, buffers, answering, copyCons) && acts == old(acts) + Theirs(now) && old(queue) <= queue
    {
      for i := 0 to |now|
        invariant During(copyProd, buffers, answering, copyCons) && old(queue) <= queue
        invariant acts == old(acts) + Theirs(now[..i])
      {
        One(now[i], copyProd, buffers, answering, copyCons);
        assert now[..i + 1][..i] == now[..i];
      }
      assert now[..|now|] == now;
    }

    method One(a: Action, ghost copyProd: nat, ghost buffers: seq<Buffer>, ghost answering: bool,
               ghost copyCons: nat)
      requires During(copyProd, buffers, answering, copyCons)
      modifies `reqProd, `queue, `pushed, `heard, `acts, slots
      ensures During(copyProd, buffers, answering, copyCons) && old(queue) <= queue
      ensures acts == old(acts) + if a.Work? then [] else [a]
    {
      hide Inv, Run, CopyStep, AnswerStep;
      ghost var x := Sys();
      TypedIn(x);
      if a.Work? { return; }
      OneMore(first, acts, a);
      match a {
        case Push(id, gref) =>
          if pushed < heard + SLOTS {
            slots[reqProd % SLOTS] := Req(id, gref);
            reqProd := Add(reqProd, 1, U32);
            pushed := pushed + 1;
          }
        case Hear =>
          if heard < answered { heard := heard + 1; }
        case Post(b) =>
          if b.offset == 0 && b.kern % PAGE_SIZE == 0 {
            queue := queue + [b];
            assert buffers + queue == buffers + old(queue) + [b];
          }
      }
      acts := acts + [a];
    }

    /** The `g`th gap, if the others do anything in it. */
    method Gap(env: seq<seq<Action>>, g: nat, ghost copyProd: nat, ghost buffers: seq<Buffer>,
               ghost answering: bool, ghost copyCons: nat) returns (h: nat)
      requires During(copyProd, buffers, answering, copyCons) && g <= |env|
      modifies `reqProd, `queue, `pushed, `heard, `acts, slots
      ensures During(copyProd, buffers, answering, copyCons) && old(acts) <= acts && old(queue) <= queue
      ensures h == (if g < |env| then g + 1 else g)
      ensures acts == old(acts) + if g < |env| then Theirs(env[g]) else []
      ensures g == |env| ==> queue == old(queue) && reqProd == old(reqProd)
    {
      h := g;
      if g < |env| {
        Others(env[g], copyProd, buffers, answering, copyCons);
        h := g + 1;
      }
    }

    /** xenvif_rx_ring_slots_available: no is said only with the event asked for at the next request that may
        come, and after having looked again since. */
    method SlotsAvailable(needed: nat, env: seq<seq<Action>>, g: nat, ghost copyProd: nat, ghost buffers: seq<Buffer>)
      returns (available: bool, h: nat)
      requires During(copyProd, buffers, false, 0) && g <= |env|
      modifies `reqProd, `reqEvent, `queue, `pushed, `heard, `acts, slots
      ensures During(copyProd, buffers, false, 0) && old(acts) <= acts && old(queue) <= queue && g <= h <= |env|
      ensures Typed(Sys().v) && available == (Sub(reqProd, reqCons, U32) >= needed)
      ensures !available ==> reqEvent == Add(reqProd, 1, U32)
      ensures h == g ==> queue == old(queue)
    {
      hide Inv, Run;
      h := g;
      while true
        invariant During(copyProd, buffers, false, 0) && old(acts) <= acts && old(queue) <= queue && g <= h <= |env|
        invariant h == g ==> queue == old(queue)
        decreases |env| - h
      {
        TypedIn(Sys());
        var prod := reqProd;
        if Sub(prod, reqCons, U32) >= needed { return true, h; }
        reqEvent := Add(prod, 1, U32);
        h := Gap(env, h, copyProd, buffers, false, 0);
        if reqProd == prod {
          TypedIn(Sys());
          return false, h;
        }
      }
    }

    /** One page of the buffer at hand. */
    method CopyPage(desc: Buffer, copyProd: nat) returns (bytes: nat)
      requires During(copyProd, [desc], false, 0) && desc.offset < desc.size
      requires Typed(Sys().v) && Sub(reqProd, reqCons, U32) >= 1
      modifies `reqCons, `acts, meta, ops
      ensures bytes == Chunk(desc) && acts == old(acts) + [Work(false)]
      ensures During(copyProd + 1, [desc.(offset := desc.offset + bytes)], false, 0)
    {
      hide Inv, Run, AnswerStep;
      ghost var x := Sys();
      RoomForOne(x);
      WorkStep(x, false);
      OneMore(first, acts, Work(false));
      assert x.v.queue[0] == desc && x.v.queue[1..] == queue;
      var remaining := desc.size - desc.offset;
      var req := slots[reqCons % SLOTS];
      reqCons := Add(reqCons, 1, U32);
      bytes := if remaining < PAGE_SIZE then remaining else PAGE_SIZE;
      meta[copyProd] := Meta(if req.Unused? then 0 else req.id, bytes);
      ops[copyProd] := Copy(desc.kern + desc.offset, bytes, if req.Req? then req.gref else 0);
      assert meta[..copyProd + 1] == x.v.meta + [meta[copyProd]];
      assert ops[..copyProd + 1] == x.v.ops + [ops[copyProd]];
      acts := acts + [Work(false)];
    }

    /** The copying loops of xenvif_rx_action. */
    method CopyBuffers(env: seq<seq<Action>>, g: nat) returns (copyProd: nat, h: nat)
      requires Valid() && g <= |env|
      modifies this, meta, ops, slots
      ensures answered == old(answered)
      ensures During(copyProd, [], true, 0) && old(acts) <= acts && g <= h <= |env| && first == old(first)
      ensures Turned(first, acts, |old(acts)|)
    {
      hide CopyStep, Inv, Run, Turned;
      copyProd, h := 0, g;
      var stop := false;
      while queue != [] && !stop
        invariant During(copyProd, [], stop, 0) && old(acts) <= acts && g <= h <= |env| && first == old(first)
        invariant stop ==> Turned(first, acts, |old(acts)|)
        invariant answered == old(answered)
        decreases |env| - h, |queue|, if stop then 0 else 1
      {
        ghost var from := |acts|;
        copyProd, stop, h := CopyBuffer(copyProd, env, h);
        if stop { TurnedStays(first, acts, acts, from, |old(acts)|); }
      }
      if !stop {
        WorkStep(Sys(), false);
        OneMore(first, acts, Work(false));
        NothingLeft(Sys().v);
        TurnsNow(first, acts);
        TurnedStays(first, acts + [Work(false)], acts + [Work(false)], |acts|, |old(acts)|);
        acts := acts + [Work(false)];
      }
    }

    /** One buffer, or as much of it as there are requests. */
    method CopyBuffer(copyProd0: nat, env: seq<seq<Action>>, g: nat) returns (copyProd: nat, stop: bool, h: nat)
      requires During(copyProd0, [], false, 0) && queue != [] && g <= |env|
      modifies this, meta, ops, slots
      ensures answered == old(answered)
      ensures During(copyProd, [], stop, 0) && old(acts) <= acts && g <= h <= |env| && first == old(first)
      ensures h > g || |queue| < |old(queue)| || (stop && |queue| == |old(queue)|)
      ensures stop ==> Turned(first, acts, |old(acts)|)
    {
      hide CopyStep, Inv, Run, Chunk, Sub, During, Turned;
      copyProd, stop, h := copyProd0, false, g;
      var desc := queue[0];
      Take(desc, copyProd);
      while desc.offset < desc.size
        invariant During(copyProd, [desc], false, 0) && old(acts) <= acts && g <= h <= |env| && first == old(first)
        invariant h > g || |queue| + 1 == |old(queue)|
        invariant answered == old(answered)
        decreases desc.size - desc.offset
      {
        var bytes;
        ghost var from := |acts|;
        bytes, h := CopySome(desc, copyProd, env, h);
        if bytes == 0 {
          stop := true;
          TurnedStays(first, acts, acts, from, |old(acts)|);
          return;
        }
        desc := desc.(offset := desc.offset + bytes);
        copyProd := copyProd + 1;
      }
      Finish(desc, copyProd);
    }

    /** lbuf_dequeue */
    method Take(desc: Buffer, copyProd: nat)
      requires During(copyProd, [], false, 0) && queue != [] && desc == queue[0]
      modifies `queue
      ensures During(copyProd, [desc], false, 0) && |queue| + 1 == |old(queue)|
    {
      hide Inv, Run;
      queue := queue[1..];
      assert [desc] + queue == [] + old(queue);
    }

    /** The next page if there is a request for it, or the end of the copying: no bytes. */
    method CopySome(desc: Buffer, copyProd: nat, env: seq<seq<Action>>, g: nat) returns (bytes: nat, h: nat)
      requires During(copyProd, [desc], false, 0) && desc.offset < desc.size && g <= |env|
      modifies this, meta, ops, slots
      ensures answered == old(answered)
      ensures old(acts) <= acts && g <= h <= |env| && first == old(first)
      ensures if bytes == 0 then During(copyProd, [], true, 0) && Turned(first, acts, |old(acts)|)
              else desc.offset + bytes <= desc.size
                   && During(copyProd + 1, [desc.(offset := desc.offset + bytes)], false, 0)
      ensures h == g ==> |queue| == |old(queue)| + if bytes == 0 then 1 else 0
    {
      hide Inv, Run, CopyStep, Chunk, Sub, During, Turned;
      var available;
      h := Gap(env, g, copyProd, [desc], false, 0);
      available, h := SlotsAvailable(1, env, h, copyProd, [desc]);
      if available {
        bytes := CopyPage(desc, copyProd);
        ChunkPositive(desc);
      } else {
        ghost var from := |acts|;
        Stop(desc, copyProd);
        TurnedStays(first, acts, acts, from, |old(acts)|);
        bytes := 0;
      }
    }

    /** No request left: the buffer goes back to the front of the queue, and the answers follow. */
    method Stop(desc: Buffer, copyProd: nat)
      requires During(copyProd, [desc], false, 0) && desc.offset < desc.size
      requires Typed(Sys().v) && Sub(reqProd, reqCons, U32) < 1
      modifies `queue, `lastSlots, `acts
      ensures During(copyProd, [], true, 0) && acts == old(acts) + [Work(false)] && |queue| == |old(queue)| + 1
      ensures Turned(first, acts, |old(acts)|)
    {
      hide Inv, Run, CopyStep, AnswerStep, Turned;
      WorkStep(Sys(), false);
      OneMore(first, acts, Work(false));
      NoSlotLeft(Sys().v, desc, queue);
      TurnsNow(first, acts);
      queue := [desc] + queue;
      lastSlots := 1;
      acts := acts + [Work(false)];
      assert [] + queue == queue;
    }

    /** The buffer is done. */
    method Finish(desc: Buffer, copyProd: nat)
      requires During(copyProd, [desc], false, 0) && desc.offset >= desc.size
      modifies `done, `acts
      ensures During(copyProd, [], false, 0) && acts == old(acts) + [Work(false)]
    {
      hide Inv, Run, CopyStep, AnswerStep;
      WorkStep(Sys(), false);
      OneMore(first, acts, Work(false));
      FirstDone(Sys().v, desc, queue);
      done := done + [desc];
      acts := acts + [Work(false)];
      assert [] + queue == queue;
    }

    /** make_rx_response for the next operation. */
    method MakeRxResponse(copyCons: nat, copyProd: nat, ok: bool)
      requires During(copyProd, [], true, copyCons) && copyCons < copyProd
      modifies slots, `rspProd, `answered, `acts
      ensures During(copyProd, [], true, copyCons + 1) && acts == old(acts) + [Work(ok)]
      ensures Sys().results == old(Sys().results) + [ok]
    {
      hide Inv, Run, CopyStep;
      TypedIn(Sys());
      WorkStep(Sys(), ok);
      OneMore(first, acts, Work(ok));
      var m := meta[copyCons];
      slots[rspProd % SLOTS] := Rsp(m.id, if ok then m.size else RSP_ERROR);
      rspProd := Add(rspProd, 1, U32);
      answered := answered + 1;
      acts := acts + [Work(ok)];
    }

    /** The buffers done are released, and the call is over. */
    method Release(copyProd: nat)
      requires During(copyProd, [], true, copyProd)
      modifies `done, `acts
      ensures Valid() && acts == old(acts) + [Work(false)] && Sys().results == old(Sys().results)
    {
      hide Inv, Run, CopyStep;
      WorkStep(Sys(), false);
      OneMore(first, acts, Work(false));
      done := [];
      acts := acts + [Work(false)];
      assert meta[..0] == [] && ops[..0] == [];
    }

    /** xenvif_rx_action: the copying loops, the answering loop, and the release of the buffers that are done;
        `oks` are the results of the copies.  Whatever the others do in the meantime (`env`), the whole is a run
        of the system; the copying went on until no buffer or no request was left, at the end every request taken
        has been answered, and the results answered in the call are those of its copies, in order. */
    method RxAction(oks: seq<bool>, env: seq<seq<Action>>)
      requires Valid() && |oks| >= SLOTS
      modifies this, slots, meta, ops
      ensures Valid() && old(acts) <= acts && first == old(first)
      ensures Turned(first, acts, |old(acts)|) && |Sys().responses| == Sys().taken == |Sys().copies|
      ensures var n := |Sys().copies| - |old(Sys().copies)|;
              0 <= n <= |oks| && Sys().results == old(Sys().results) + oks[..n]
    {
      hide Inv, Run, Turned;
      AllAnswered(Sys());
      ResultPerResponse(Sys());
      var copyProd, h := CopyBuffers(env, 0);
      SameResults(first, old(acts), acts);
      assert oks[..0] == [];
      ghost var turned := acts;
      var copyCons := 0;
      while copyCons < copyProd
        invariant copyCons <= copyProd && During(copyProd, [], true, copyCons) && h <= |env|
        invariant old(acts) <= acts && turned <= acts && first == old(first)
        invariant Sys().results == old(Sys().results) + oks[..copyCons]
      {
        ghost var before := acts;
        h := Gap(env, h, copyProd, [], true, copyCons);
        SameResults(first, before, acts);
        MakeRxResponse(copyCons, copyProd, oks[copyCons]);
        copyCons := copyCons + 1;
      }
      Release(copyProd);
      TurnedStays(first, turned, acts, |old(acts)|, |old(acts)|);
      AllAnswered(Sys());
      ResultPerResponse(Sys());
    }
  }
}
