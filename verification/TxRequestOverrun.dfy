/** Which posted sizes are safe, exactly: a buffer of 1024 qwords or more whose size is a multiple of 16
    can be driven to the point where the 10-bit sum of reserved and remaining space wraps. */
module TxRequestOverrun {
  import opened Ring
  import opened TxRequest

  /** Space reserved and not read fits the ring. */
  predicate Fits(q: Requester) { q.next <= q.read + RING }

  /** Every posted buffer has `n` qwords or fewer than 1024. */
  ghost predicate PostsSmallOr(acts: seq<Action>, n: nat) {
    forall a :: a in acts && a.Post? ==> a.qwords == n || a.qwords < 1024
  }

  /** A run of small buffers and buffers of `n` qwords that ends with more reserved than the ring holds. */
  ghost predicate Overruns(acts: seq<Action>, n: nat) { PostsSmallOr(acts, n) && !Fits(Run(Init(), acts)) }

  /** All requests answered, `rem` of `n` qwords still to ask for, `gap` qwords not yet read. */
  ghost predicate Driven(q: Requester, n: nat, rem: nat, gap: nat) {
    && q.r.Typed() && q.r.nextWr == q.next % SPAN && q.r.sent == |q.reqs| % 8
    && q.done == |q.reqs| && q.next == End(q.reqs, |q.reqs|)
    && q.seen <= q.read && q.next == q.read + gap
    && q.r.pageQwords == n && q.r.counter + rem == n
  }

  lemma {:induction false} RunConcat(q: Requester, a: seq<Action>, b: seq<Action>)
    ensures Run(q, a + b) == Run(Run(q, a), b)
    decreases |b|
  {
    if b == [] {
      assert a + b == a;
    } else {
      RunConcat(q, a, b[..|b| - 1]);
      assert (a + b)[..|a + b| - 1] == a + b[..|b| - 1];
    }
  }

  lemma RunOne(q: Requester, a: Action)
    ensures Run(q, [a]) == Step(q, a)
  {
    assert [a][..0] == [];
    assert Run(q, []) == q;
  }

  lemma DriveDistance(q: Requester, n: nat, rem: nat, gap: nat)
    requires Driven(q, n, rem, gap) && gap <= RING
    ensures Sub(q.r.nextWr, q.read % SPAN, SPAN) == gap && Sub(q.r.sent, q.done % 8, 8) == 0
    ensures Remaining(q.r) == rem
  {
    SubIsDistance(q.next, q.read, SPAN);
    SubIsDistance(|q.reqs|, q.done, 8);
    RemainingIs(q.r);
  }

  /** One request asked for with the read pointer up to date, and answered. */
  lemma Ask(q: Requester, n: nat, rem: nat, gap: nat) returns (acts: seq<Action>)
    requires Driven(q, n, rem, gap) && gap <= RING && 0 < Sizing(gap, gap, rem) <= rem
    ensures Driven(Run(q, acts), n, rem - Sizing(gap, gap, rem), gap + Sizing(gap, gap, rem))
    ensures forall a :: a in acts ==> !a.Post?
  {
    var size := Sizing(gap, gap, rem);
    var ask := Action.Ask(q.read, q.read, q.done);
    AskAsked(q, n, rem, gap);
    SizeAtMostRing(gap, rem);
    AskAnswered(q, n, rem, gap, size);
    RunOne(q, ask);
    RunOne(Step(q, ask), Complete);
    hide Driven, Step, Sizing, Run;
    RunConcat(q, [ask], [Complete]);
    acts := [ask] + [Complete];
  }

  lemma AskAsked(q: Requester, n: nat, rem: nat, gap: nat)
    requires Driven(q, n, rem, gap) && gap <= RING && 0 < Sizing(gap, gap, rem) <= rem
    ensures Step(q, Action.Ask(q.read, q.read, q.done)) == DoAsk(q, q.read, Sizing(gap, gap, rem))
  {
    DriveDistance(q, n, rem, gap);
    hide Sizing, Sub, LengthField;
    assert AskSize(q, q.read, q.read, q.done) == Sizing(gap, gap, rem);
  }

  lemma AskAnswered(q: Requester, n: nat, rem: nat, gap: nat, size: nat)
    requires Driven(q, n, rem, gap) && 0 < size <= rem && size <= RING
    ensures Driven(Step(DoAsk(q, q.read, size), Complete), n, rem - size, gap + size)
  {
    hide LengthField;
    NextCounts(q.next, size, |q.reqs|);
  }

  lemma SizeAtMostRing(gap: nat, rem: nat)
    ensures Sizing(gap, gap, rem) <= RING
  {
  }

  lemma Read(q: Requester, n: nat, rem: nat, gap: nat, k: nat) returns (acts: seq<Action>)
    requires Driven(q, n, rem, gap) && k <= gap
    ensures Driven(Run(q, acts), n, rem, gap - k)
    ensures forall a :: a in acts ==> !a.Post?
  {
    acts := [Action.Read(q.read + k)];
    RunOne(q, acts[0]);
  }

  lemma Post(q: Requester, n: nat, gap: nat, size: nat) returns (acts: seq<Action>)
    requires Driven(q, n, 0, gap) && 1 <= size < U32
    ensures Driven(Run(q, acts), size, size, gap)
    ensures forall a :: a in acts && a.Post? ==> a.qwords == size
  {
    RemainingIs(q.r);
    acts := [Action.Post(0, size)];
    RunOne(q, acts[0]);
  }

  lemma SixteenFits(rem: nat)
    requires rem > RING
    ensures Sizing(480, 480, rem) == 16
  {
  }

  lemma NothingDone(q: Requester)
    ensures Run(q, []) == q
  {
  }

  /** Sixteen qwords at a time, the ring being kept almost full, down to the last 1024. */
  lemma {:induction false} Nibble(q: Requester, n: nat, rem: nat) returns (acts: seq<Action>)
    requires Driven(q, n, rem, 480) && rem >= 1024 && rem % 16 == 0
    ensures Driven(Run(q, acts), n, 1024, 480)
    ensures forall a :: a in acts ==> !a.Post?
    decreases rem
  {
    hide Driven, Sizing, Run;
    if rem == 1024 {
      acts := [];
      NothingDone(q);
    } else {
      SixteenFits(rem);
      var a := Ask(q, n, rem, 480);
      var b := Read(Run(q, a), n, rem - 16, 496, 16);
      var c := Nibble(Run(Run(q, a), b), n, rem - 16);
      RunConcat(q, a, b);
      RunConcat(q, a + b, c);
      acts := a + b + c;
    }
  }

  /** The last 1024 qwords: drain, fill the ring in one chunk, and ask for 512 more. */
  lemma Overfill(q: Requester, n: nat) returns (acts: seq<Action>)
    requires Driven(q, n, 1024, 480)
    ensures Driven(Run(q, acts), n, 0, 1024)
    ensures forall a :: a in acts ==> !a.Post?
  {
    hide Driven, Run;
    var a := Read(q, n, 1024, 480, 480);
    assert Sizing(0, 0, 1024) == 512 && Sizing(512, 512, 512) == 512;
    var b := Ask(Run(q, a), n, 1024, 0);
    var c := Ask(Run(Run(q, a), b), n, 512, 512);
    RunConcat(q, a, b);
    RunConcat(q, a + b, c);
    acts := a + b + c;
  }

  lemma OverrunExists(n: nat) returns (acts: seq<Action>)
    requires n < U32 && !SafeSize(n)
    ensures Overruns(acts, n)
  {
    var q := Init();
    assert Driven(q, 0, 0, 0);
    hide Driven, Run;
    assert Sizing(0, 0, 480) == 480;
    var a := Post(q, 0, 0, 480);
    var b := Ask(Run(q, a), 480, 480, 0);
    var c := Post(Run(Run(q, a), b), 480, 480, n);
    var d := Nibble(Run(Run(Run(q, a), b), c), n, n);
    var e := Overfill(Run(Run(Run(Run(q, a), b), c), d), n);
    RunConcat(q, a, b);
    RunConcat(q, a + b, c);
    RunConcat(q, a + b + c, d);
    RunConcat(q, a + b + c + d, e);
    acts := a + b + c + d + e;
    DrivenOver(Run(q, acts), n);
  }

  lemma DrivenOver(q: Requester, n: nat)
    requires Driven(q, n, 0, 1024)
    ensures !Fits(q)
  {
  }

  /** Buffers of `n` qwords, among others below 1024, never overrun the ring exactly when `n` is below
      1024 or no multiple of 16. */
  lemma SafeSizeIff(n: nat)
    requires n < U32
    ensures SafeSize(n) <==> forall acts :: PostsSmallOr(acts, n) ==> Fits(Run(Init(), acts))
  {
    if SafeSize(n) {
      forall acts | PostsSmallOr(acts, n) ensures Fits(Run(Init(), acts)) {
        RunKeeps(acts);
        hide Lists, Current, Counts;
      }
    } else {
      var acts := OverrunExists(n);
      assert PostsSmallOr(acts, n) && !Fits(Run(Init(), acts));
    }
  }
}
