/** What the two-slot receive guarantees over all its runs. */
module KimiRuns {
  import opened Sequences
  import opened Buckets
  import opened PackingLaws
  import opened KimiPipeline
  import KimiSchedule

  lemma ReachableInv(c: Config, s: State)
    requires c.Valid() && Reachable(c, s)
    ensures Inv(c, s)
  {
    hide Reach, Inv;
    var steps: nat :| Reach(c, s, steps);
    RunKeeps(c, s, steps);
  }

  lemma ExpectedPrefix(c: Config, g: nat, next: nat)
    requires g <= c.Rounds() && (g > 0 ==> next <= |c.buckets[g - 1].meta|)
    ensures Expected(c, g, next) <= AllYields(c.buckets)
    ensures g == c.Rounds() > 0 && next == |c.buckets[g - 1].meta| ==> Expected(c, g, next) == AllYields(c.buckets)
  {
    if g > 0 {
      var b := c.buckets[g - 1];
      AllYieldsSplit(c.buckets, g - 1);
      assert g == c.Rounds() ==> AllYields(c.buckets[g..]) == [];
      assert |Yields(b)| == |b.meta|;
    }
  }

  /** Under every schedule each rank hands out the tensors of all buckets in broadcast order: never
      anything but a beginning of that list, and all of it, once, when it is finished. */
  lemma EachBucketOnce(c: Config, s: State, p: nat)
    requires c.Valid() && Reachable(c, s) && p < c.ranks
    ensures |s.ranks| == c.ranks && s.ranks[p].outs <= AllYields(c.buckets)
    ensures s.ranks[p].stage.Finished? ==> s.ranks[p].outs == AllYields(c.buckets)
  {
    ReachableInv(c, s);
    assert RankInv(c, p, s.ranks[p]);
    ExpectedPrefix(c, s.ranks[p].g, s.ranks[p].next);
  }

  /** While a broadcast is under way the rank hands out from the other slot, which holds all of the
      previous bucket; what a tensor of it reads is what the previous source cast. */
  predicate SlotsApart(c: Config, k: Rank)
    requires c.Valid()
  {
    && Shape(c, k)
    && (k.g > 0 && !k.stage.Finished? ==>
          && (k.g - 1) % 2 != k.g % 2
          && c.buckets[k.g - 1].data <= k.mem[(k.g - 1) % 2]
          && SameReads(c.buckets[k.g - 1], k.mem[(k.g - 1) % 2]))
  }

  predicate SameReads(b: Bucket, slot: seq<byte>) {
    forall m <- b.meta :: Read(slot, m) == Read(b.data, m)
  }

  /** The bytes on the wire of broadcast g are the beginning of bucket g, whoever receives them. */
  predicate CastsInOrder(c: Config, s: State) {
    |s.wire| == |c.buckets| && forall g :: 0 <= g < |c.buckets| ==> s.wire[g] <= c.buckets[g].data
  }

  lemma TwoSlots(c: Config, s: State, p: nat)
    requires c.Valid() && Reachable(c, s) && p < c.ranks
    ensures |s.ranks| == c.ranks && SlotsApart(c, s.ranks[p]) && CastsInOrder(c, s)
  {
    ReachableInv(c, s);
    var k := s.ranks[p];
    assert RankInv(c, p, k);
    forall g | 0 <= g < |c.buckets| ensures s.wire[g] <= c.buckets[g].data { assert WireInv(c, s, g); }
    if k.g > 0 && !k.stage.Finished? {
      var b := c.buckets[k.g - 1];
      assert c.ValidBucket(k.g - 1);
      forall m <- b.meta ensures Read(k.mem[(k.g - 1) % 2], m) == Read(b.data, m) {
        ReadPrefix(b.data, k.mem[(k.g - 1) % 2], m);
      }
    }
  }

  // ---------- progress ----------

  ghost predicate Moves(c: Config, s: State, p: nat)
    requires c.Valid()
  {
    exists a :: p < |s.ranks| && |s.wire| == c.Rounds() && Shape(c, s.ranks[p]) && Enabled(c, s.ranks[p], s.wire, a)
  }

  function NextAction(c: Config, k: Rank): Action
    requires c.Valid() && Shape(c, k)
  {
    match k.stage
    case Loading(got) => if got < |c.buckets[k.g].data| then Load(1) else StartCast
    case Casting(sent) => if sent < |c.buckets[k.g].data| then Cast(1) else Complete
    case Getting(got) => if got < |c.buckets[k.g].data| then Get(1) else Complete
    case Arrived => if k.g > 0 && k.next < |c.buckets[k.g - 1].meta| then Yield else Await
    case Tail => if k.next < |c.buckets[k.g - 1].meta| then Yield else End
    case Finished => End
  }

  /** A rank that cannot move has finished, or it waits for bytes its source has yet to cast. */
  lemma StuckRank(c: Config, p: nat, k: Rank, wire: seq<seq<byte>>)
    requires c.Valid() && RankInv(c, p, k) && |wire| == c.Rounds()
    ensures Enabled(c, k, wire, NextAction(c, k)) || k.stage.Finished?
            || (k.stage.Getting? && |wire[k.g]| <= k.stage.got < |c.buckets[k.g].data|)
  {
    hide SlotsHold, Expected;
  }

  /** Whenever some rank is in round g or before, some rank can move: the one it waits for is in an
      earlier round. */
  lemma {:induction false} SomeoneMoves(c: Config, s: State, p: nat, g: nat)
    requires c.Valid() && Inv(c, s) && p < c.ranks && s.ranks[p].g <= g && !s.ranks[p].stage.Finished?
    ensures exists q :: 0 <= q < c.ranks && Moves(c, s, q)
    decreases g
  {
    var k := s.ranks[p];
    assert RankInv(c, p, k);
    if !Moves(c, s, p) {
      StuckRank(c, p, k, s.wire);
      assert WireInv(c, s, k.g);
      var q := c.sources[k.g];
      assert RankInv(c, q, s.ranks[q]);
      SourceEarlier(c, s, k.g, k.stage.got);
      if s.ranks[q].g == k.g {
        SourceMoves(c, s, q);
      } else {
        SomeoneMoves(c, s, q, s.ranks[q].g);
      }
    }
  }

  lemma SourceEarlier(c: Config, s: State, g: nat, got: nat)
    requires c.Valid() && Inv(c, s) && g < c.Rounds() && |s.wire[g]| <= got < |c.buckets[g].data|
    ensures var k := s.ranks[c.sources[g]]; k.g < g || (k.g == g && (k.stage.Loading? || k.stage.Casting?))
  {
    hide SlotsHold, Expected;
    assert WireInv(c, s, g) && RankInv(c, c.sources[g], s.ranks[c.sources[g]]);
  }

  lemma SourceMoves(c: Config, s: State, q: nat)
    requires c.Valid() && Inv(c, s) && q < c.ranks && (s.ranks[q].stage.Loading? || s.ranks[q].stage.Casting?)
    ensures Moves(c, s, q)
  {
    assert RankInv(c, q, s.ranks[q]);
    StuckRank(c, q, s.ranks[q], s.wire);
  }

  predicate AllFinished(c: Config, s: State) {
    |s.ranks| == c.ranks && forall p :: 0 <= p < c.ranks ==> s.ranks[p].stage.Finished?
  }

  /** Short of completion some rank can always move, even if one rank is the source of several
      broadcasts in a row and is itself behind. */
  lemma NoDeadlock(c: Config, s: State)
    requires c.Valid() && Reachable(c, s) && !AllFinished(c, s)
    ensures exists p, a, t :: Step(c, s, p, a, t)
  {
    hide ApplyRank, ApplyWire, Enabled, Shape, RankInv, WireInv, Reachable;
    ReachableInv(c, s);
    var p :| 0 <= p < c.ranks && !s.ranks[p].stage.Finished?;
    SomeoneMoves(c, s, p, s.ranks[p].g);
    var q :| 0 <= q < c.ranks && Moves(c, s, q);
    var a :| Enabled(c, s.ranks[q], s.wire, a);
    var t := State(s.ranks[q := ApplyRank(c, q, s.ranks[q], s.wire, a)], ApplyWire(c, s.ranks[q], s.wire, a));
    assert Step(c, s, q, a, t);
  }

  // ---------- every run ends ----------

  function Cost(b: Bucket): nat { 2 * |b.data| + |b.meta| + 3 }

  function Costs(bs: seq<Bucket>): nat { if bs == [] then 0 else Costs(bs[..|bs|-1]) + Cost(bs[|bs|-1]) }

  /** The steps a rank has taken so far, at least. */
  function Worked(c: Config, p: nat, k: Rank): nat
    requires c.Valid() && RankInv(c, p, k)
  {
    if k.g == 0 then Within(c, k)
    else Costs(c.buckets[..k.g]) - |c.buckets[k.g - 1].meta| + k.next + Within(c, k)
  }

  function Within(c: Config, k: Rank): nat
    requires c.Valid() && Shape(c, k)
  {
    match k.stage
    case Loading(got) => got
    case Casting(sent) => |c.buckets[k.g].data| + 1 + sent
    case Getting(got) => got
    case Arrived => 2 * |c.buckets[k.g].data| + 2
    case Tail => 0
    case Finished => 1
  }

  lemma CostsNext(bs: seq<Bucket>, i: nat)
    requires i < |bs|
    ensures Costs(bs[..i + 1]) == Costs(bs[..i]) + Cost(bs[i])
  {
    assert bs[..i + 1][..i] == bs[..i];
  }

  lemma {:induction false} CostsMonotone(bs: seq<Bucket>, i: nat)
    requires i <= |bs|
    ensures Costs(bs[..i]) <= Costs(bs)
    decreases |bs| - i
  {
    if i < |bs| {
      CostsNext(bs, i);
      CostsMonotone(bs, i + 1);
    } else {
      assert bs[..i] == bs;
    }
  }

  lemma WorkedStep(c: Config, p: nat, k: Rank, wire: seq<seq<byte>>, a: Action)
    requires c.Valid() && RankInv(c, p, k) && |wire| == c.Rounds() && Enabled(c, k, wire, a)
    requires RankInv(c, p, ApplyRank(c, p, k, wire, a))
    ensures Worked(c, p, ApplyRank(c, p, k, wire, a)) >= Worked(c, p, k) + 1
  {
    hide Costs, Expected, SlotsHold, Write, Overlay, Read, Config.Valid, Config.ValidBucket;
    if k.g < c.Rounds() { CostsNext(c.buckets, k.g); }
  }

  lemma WorkedBound(c: Config, p: nat, k: Rank)
    requires c.Valid() && RankInv(c, p, k)
    ensures Worked(c, p, k) <= Costs(c.buckets) + 1
  {
    CostsMonotone(c.buckets, k.g);
    if k.g < c.Rounds() {
      CostsNext(c.buckets, k.g);
      CostsMonotone(c.buckets, k.g + 1);
      assert c.buckets[..0] == [];
    }
    hide Costs, Expected, SlotsHold;
  }

  function WorkedAt(c: Config, s: State, i: nat): nat
    requires c.Valid() && Inv(c, s) && i < c.ranks
  {
    Worked(c, i, s.ranks[i])
  }

  function TotalWorked(c: Config, s: State, n: nat): nat
    requires c.Valid() && Inv(c, s) && n <= c.ranks
  {
    if n == 0 then 0 else TotalWorked(c, s, n - 1) + WorkedAt(c, s, n - 1)
  }

  lemma WorkedAtStep(c: Config, s: State, p: nat, a: Action, t: State, i: nat)
    requires c.Valid() && Inv(c, s) && Inv(c, t) && Step(c, s, p, a, t) && i < c.ranks
    ensures WorkedAt(c, t, i) >= WorkedAt(c, s, i) + if p == i then 1 else 0
  {
    hide Worked, WireInv, RankInv, Enabled, ApplyRank, ApplyWire, Shape;
    assert RankInv(c, i, s.ranks[i]) && RankInv(c, i, t.ranks[i]);
    if p == i { WorkedStep(c, p, s.ranks[p], s.wire, a); }
  }

  lemma {:induction false} TotalStep(c: Config, s: State, p: nat, a: Action, t: State, n: nat)
    requires c.Valid() && Inv(c, s) && Inv(c, t) && Step(c, s, p, a, t) && n <= c.ranks
    ensures TotalWorked(c, t, n) >= TotalWorked(c, s, n) + if p < n then 1 else 0
  {
    hide WorkedAt, Inv, Step;
    if n > 0 {
      TotalStep(c, s, p, a, t, n - 1);
      WorkedAtStep(c, s, p, a, t, n - 1);
    }
  }

  lemma {:induction false} TotalBound(c: Config, s: State, n: nat)
    requires c.Valid() && Inv(c, s) && n <= c.ranks
    ensures TotalWorked(c, s, n) <= n * (Costs(c.buckets) + 1)
  {
    hide Costs, Worked, RankInv, WireInv;
    if n > 0 {
      TotalBound(c, s, n - 1);
      assert RankInv(c, n - 1, s.ranks[n - 1]);
      WorkedBound(c, n - 1, s.ranks[n - 1]);
      assert n * (Costs(c.buckets) + 1) == (n - 1) * (Costs(c.buckets) + 1) + (Costs(c.buckets) + 1);
    }
  }

  lemma {:induction false} StepsBelowWork(c: Config, s: State, steps: nat)
    requires c.Valid() && Reach(c, s, steps)
    ensures Inv(c, s) && steps <= TotalWorked(c, s, c.ranks)
    decreases steps
  {
    hide Inv, Step, Init;
    RunKeeps(c, s, steps);
    if steps > 0 {
      var r, p, a :| Reach(c, r, steps - 1) && Step(c, r, p, a, s);
      StepsBelowWork(c, r, steps - 1);
      TotalStep(c, r, p, a, s, c.ranks);
      ActorInRange(c, r, p, a, s);
    }
  }

  lemma ActorInRange(c: Config, s: State, p: nat, a: Action, t: State)
    requires c.Valid() && Inv(c, s) && Step(c, s, p, a, t)
    ensures p < c.ranks
  {
  }

  /** With NoDeadlock: under every schedule all ranks finish. */
  lemma RunsAreFinite(c: Config, s: State, steps: nat)
    requires c.Valid() && Reach(c, s, steps)
    ensures steps <= c.ranks * (Costs(c.buckets) + 1)
  {
    StepsBelowWork(c, s, steps);
    TotalBound(c, s, c.ranks);
  }

  // ---------- the broadcasts of a list of fetches ----------

  function BucketsOf(fs: seq<KimiSchedule.Fetch>): (bs: seq<Bucket>)
    ensures |bs| == |fs| && forall i :: 0 <= i < |fs| ==> bs[i] == fs[i].bucket
  {
    seq(|fs|, i requires 0 <= i < |fs| => fs[i].bucket)
  }

  predicate Deliverable(fs: seq<KimiSchedule.Fetch>, ranks: nat, size: nat) {
    && |fs| >= 1
    && forall f <- fs :: f.receiver < ranks && |f.bucket.data| <= size
                      && forall m <- f.bucket.meta :: m.offset + m.Size() <= |f.bucket.data|
  }

  /** The broadcasts are a function of the list alone: KimiSchedule.ReceiveOrder computes the same
      plan on every rank. */
  function Broadcasts(fs: seq<KimiSchedule.Fetch>, ranks: nat, size: nat): (c: Config)
    requires Deliverable(fs, ranks, size)
    ensures c.Valid()
  {
    var plan := KimiSchedule.Plan(fs);
    PlanMembers(fs);
    Config(ranks, size, seq(|plan|, i requires 0 <= i < |plan| => plan[i].receiver), BucketsOf(plan))
  }

  lemma PlanMembers(fs: seq<KimiSchedule.Fetch>)
    ensures |KimiSchedule.Plan(fs)| == |fs| && forall i :: 0 <= i < |fs| ==> KimiSchedule.Plan(fs)[i] in fs
  {
    var plan := KimiSchedule.Plan(fs);
    KimiSchedule.PlanPermutes(fs);
    hide *;
    assert |plan| == |multiset(plan)| == |fs|;
    forall i | 0 <= i < |plan| ensures plan[i] in fs { assert plan[i] in multiset(plan); }
  }

  function Without(fs: seq<KimiSchedule.Fetch>, k: nat): seq<KimiSchedule.Fetch>
    requires k < |fs|
  {
    fs[..k] + fs[k + 1..]
  }

  lemma YieldsWithout(fs: seq<KimiSchedule.Fetch>, k: nat)
    requires k < |fs|
    ensures multiset(AllYields(BucketsOf(fs))) == multiset(AllYields(BucketsOf(Without(fs, k)))) + multiset(Yields(fs[k].bucket))
  {
    var bs := BucketsOf(fs);
    YieldsAppend(fs[..k], fs[k + 1..]);
    AllYieldsSplit(bs, k);
    assert bs[..k] == BucketsOf(fs[..k]) && bs[k + 1..] == BucketsOf(fs[k + 1..]);
  }

  lemma CountWithout(fs: seq<KimiSchedule.Fetch>, k: nat)
    requires k < |fs|
    ensures multiset(fs) == multiset(Without(fs, k)) + multiset{fs[k]}
  {
    assert fs == fs[..k] + [fs[k]] + fs[k + 1..];
  }

  lemma {:induction false} YieldsPermute(fs: seq<KimiSchedule.Fetch>, gs: seq<KimiSchedule.Fetch>)
    requires multiset(fs) == multiset(gs)
    ensures multiset(AllYields(BucketsOf(fs))) == multiset(AllYields(BucketsOf(gs)))
    decreases |fs|
  {
    assert |fs| == |multiset(fs)| == |multiset(gs)| == |gs|;
    if fs == [] {
      assert fs == gs;
    } else {
      assert fs[0] in multiset(gs);
      var k :| 0 <= k < |gs| && gs[k] == fs[0];
      CountWithout(fs, 0);
      CountWithout(gs, k);
      hide AllYields, Yields, Without, BucketsOf;
      assert multiset(Without(fs, 0)) == multiset(fs) - multiset{fs[0]} == multiset(Without(gs, k));
      WithoutSmaller(fs, 0);
      YieldsPermute(Without(fs, 0), Without(gs, k));
      YieldsWithout(fs, 0);
      YieldsWithout(gs, k);
    }
  }

  lemma WithoutSmaller(fs: seq<KimiSchedule.Fetch>, k: nat)
    requires k < |fs|
    ensures |Without(fs, k)| < |fs|
  {
  }

  lemma YieldsAppend(fs: seq<KimiSchedule.Fetch>, gs: seq<KimiSchedule.Fetch>)
    ensures AllYields(BucketsOf(fs + gs)) == AllYields(BucketsOf(fs)) + AllYields(BucketsOf(gs))
  {
    AllYieldsConcat(BucketsOf(fs), BucketsOf(gs));
    assert BucketsOf(fs + gs) == BucketsOf(fs) + BucketsOf(gs);
  }

  lemma {:induction false} AllYieldsConcat(xs: seq<Bucket>, ys: seq<Bucket>)
    ensures AllYields(xs + ys) == AllYields(xs) + AllYields(ys)
    decreases |ys|
  {
    if ys == [] {
      assert xs + ys == xs;
    } else {
      assert AllYields(ys) == Yields(ys[0]) + AllYields(ys[1..]);
      AllYieldsConcat(xs + [ys[0]], ys[1..]);
      hide *;
      AllYieldsAppend(xs, ys[0]);
      HeadTail(ys);
      Assoc(xs, [ys[0]], ys[1..]);
      Assoc(AllYields(xs), Yields(ys[0]), AllYields(ys[1..]));
    }
  }

  /** Every rank that finishes has handed out every tensor of every bucket of the list, as often as
      it is in the list. */
  lemma EndToEnd(fs: seq<KimiSchedule.Fetch>, ranks: nat, size: nat, s: State, p: nat)
    requires Deliverable(fs, ranks, size)
    requires Reachable(Broadcasts(fs, ranks, size), s) && p < ranks
    ensures |s.ranks| == ranks
    ensures s.ranks[p].stage.Finished? ==> multiset(s.ranks[p].outs) == multiset(AllYields(BucketsOf(fs)))
  {
    EachBucketOnce(Broadcasts(fs, ranks, size), s, p);
    KimiSchedule.PlanPermutes(fs);
    YieldsPermute(KimiSchedule.Plan(fs), fs);
  }
}
