/** What the relay's invariant means for its users: the data every rank relays and hands out over a
    whole run, and how far apart the ranks can get. */
module MooncakeRuns {
  import opened Buckets
  import opened PackingLaws
  import opened MooncakeRelay
  import opened MooncakeSafety

  // ---------- relaying ----------

  /** No rank begins a buffer again before its successor has acknowledged what was in it. */
  predicate NoEarlyRefill(c: Config, s: State) {
    |s.ranks| == c.n && forall r :: 0 <= r < c.n - 1 ==> s.ranks[r].Started() <= s.ranks[r+1].idx + 2
  }

  lemma InvRefill(c: Config, s: State)
    requires c.Valid() && SoundPayload(c) && Inv(c, s)
    ensures NoEarlyRefill(c, s)
  {
    forall r | 0 <= r < c.n - 1 ensures s.ranks[r].Started() <= s.ranks[r+1].idx + 2 { Around(c, s, r); }
  }

  /** In every interleaving the k-th bucket a rank announces is the sender's k-th bucket, and no
      buffer is refilled before the successor has read and acknowledged it. */
  lemma RelaySafety(c: Config, s: State)
    requires c.Valid() && SoundPayload(c) && Reachable(c, s)
    ensures NoEarlyRefill(c, s)
    ensures forall r :: 0 <= r < c.n ==> |s.ranks[r].relayed| == s.ranks[r].Sent()
    ensures forall r, k :: 0 <= r < c.n && 0 <= k < |s.ranks[r].relayed| ==>
              k < c.Count() && s.ranks[r].relayed[k] == c.buckets[k].data
  {
    ReachableInv(c, s);
    InvRefill(c, s);
    forall r | 0 <= r < c.n ensures Relayed(c, s.ranks[r]) { Around(c, s, r); }
  }

  // ---------- skew ----------

  lemma {:induction false} SkewStep(c: Config, s: State, r: nat)
    requires c.Valid() && NoEarlyRefill(c, s) && 0 < r < c.n
    ensures s.ranks[0].Started() <= s.ranks[r].idx + 2 * r
  {
    if r > 1 { SkewStep(c, s, r - 1); }
  }

  /** When the sender has announced bucket k, the last of n ranks has finished bucket k - 2(n-1). */
  lemma BoundedSkew(c: Config, s: State, k: nat)
    requires c.Valid() && SoundPayload(c) && Reachable(c, s)
    requires k >= 2 * (c.n - 1) && |s.ranks| == c.n && k < |s.ranks[0].relayed|
    ensures s.ranks[c.n-1].idx > k - 2 * (c.n - 1)
  {
    RelaySafety(c, s);
    SkewStep(c, s, c.n - 1);
  }

  // ---------- what is handed out ----------

  /** The buffer a rank hands tensors out of: intact, unless the successor has already acknowledged
      the very same bucket, in which case exactly the magic word lies over its beginning. */
  lemma YieldBuffer(c: Config, s: State, r: nat)
    requires c.Valid() && SoundPayload(c) && Inv(c, s) && r < c.n && s.ranks[r].phase.Yielding?
    ensures var k := s.ranks[r];
            k.idx < c.Count() && |k.mem| == 2 && c.ValidBucket(k.idx) && k.phase.info == c.InfoOf(k.idx)
    ensures var k, d := s.ranks[r], c.buckets[s.ranks[r].idx].data;
            (if Acked(c, s, r) > k.idx then Stamp(d) else d) <= k.mem[k.Slot()]
    ensures r == c.n - 1 ==> Acked(c, s, r) == s.ranks[r].idx
  {
    Around(c, s, r);
    var k := s.ranks[r];
    if Acked(c, s, r) > k.idx {
      assert HasStamp(c, k.mem, k.idx);
    } else {
      assert HasBucket(c, k.mem, k.idx);
    }
  }

  function StampBucket(b: Bucket): Bucket { b.(data := Stamp(b.data)) }

  /** The next tensor of a bucket a rank hands out, in terms of what was sent. */
  lemma YieldedTensor(c: Config, s: State, r: nat)
    requires c.Valid() && SoundPayload(c) && Inv(c, s) && Shape(c, s) && Enabled(c, s, Yield(r))
    ensures var k := s.ranks[r]; var b := c.buckets[k.idx];
            |Yields(b)| == |b.meta| == |k.phase.info.meta|
            && Read(k.mem[k.Slot()], b.meta[k.phase.next]) ==
               (if Acked(c, s, r) > k.idx then Yields(StampBucket(b)) else Yields(b))[k.phase.next]
  {
    hide Inv;
    YieldBuffer(c, s, r);
    var k := s.ranks[r];
    var b := c.buckets[k.idx];
    var m := b.meta[k.phase.next];
    assert m in b.meta;
    ReadPrefix(if Acked(c, s, r) > k.idx then Stamp(b.data) else b.data, k.mem[k.Slot()], m);
  }

  /** The tensors of all finished buckets and of the first `next` entries of the current one. */
  function Expected(bs: seq<Bucket>, idx: nat, next: nat): seq<Weight>
    requires idx <= |bs| && (next > 0 ==> idx < |bs| && next <= |bs[idx].meta|)
  {
    AllYields(bs[..idx]) + if next == 0 then [] else Yields(bs[idx])[..next]
  }

  function StampAll(bs: seq<Bucket>): (r: seq<Bucket>)
    ensures |r| == |bs| && forall i :: 0 <= i < |bs| ==> r[i] == StampBucket(bs[i])
  {
    if bs == [] then [] else [StampBucket(bs[0])] + StampAll(bs[1..])
  }

  function Next(k: Rank): nat { if k.phase.Yielding? then k.phase.next else 0 }

  /** A log is exact, or in places what it would be after the magic word was written. */
  predicate ExactOrStamped(log: seq<Weight>, exact: seq<Weight>, stamped: seq<Weight>, stampsAllowed: bool) {
    && |log| == |exact| == |stamped|
    && forall i :: 0 <= i < |log| ==> log[i] == exact[i] || (stampsAllowed && log[i] == stamped[i])
  }

  predicate OutsInv(c: Config, r: nat, k: Rank)
    requires c.Valid() && RankShape(c, r, k)
  {
    if r == 0 then k.outs == []
    else ExactOrStamped(k.outs, Expected(c.buckets, k.idx, Next(k)), Expected(StampAll(c.buckets), k.idx, Next(k)), r < c.n - 1)
  }

  lemma ExpectedNext(bs: seq<Bucket>, idx: nat, next: nat)
    requires idx < |bs| && next <= |bs[idx].meta|
    ensures next < |bs[idx].meta| ==> Expected(bs, idx, next + 1) == Expected(bs, idx, next) + [Yields(bs[idx])[next]]
    ensures Expected(bs, idx + 1, 0) == Expected(bs, idx, |bs[idx].meta|)
  {
    var y := Yields(bs[idx]);
    if next < |bs[idx].meta| {
      assert y[..next + 1] == y[..next] + [y[next]];
    }
    AllYieldsAppend(bs[..idx], bs[idx]);
    assert bs[..idx + 1] == bs[..idx] + [bs[idx]];
    assert y[..|bs[idx].meta|] == y;
  }

  lemma OutsYield(c: Config, r: nat, k: Rank, w: Weight)
    requires c.Valid() && RankShape(c, r, k) && OutsInv(c, r, k) && k.phase.Yielding? && k.phase.next < |k.phase.info.meta|
    requires var b := c.buckets[k.idx];
             w == Yields(b)[k.phase.next] || (r < c.n - 1 && w == Yields(StampBucket(b))[k.phase.next])
    ensures var k' := k.(phase := Yielding(k.phase.info, k.phase.next + 1), outs := k.outs + [w]);
            RankShape(c, r, k') && OutsInv(c, r, k')
  {
    hide Yields, AllYields;
    ExpectedNext(c.buckets, k.idx, k.phase.next);
    ExpectedNext(StampAll(c.buckets), k.idx, k.phase.next);
  }

  lemma OutsAck(c: Config, r: nat, k: Rank)
    requires c.Valid() && RankShape(c, r, k) && OutsInv(c, r, k) && k.phase.Yielding? && k.phase.next == |k.phase.info.meta|
    requires RankShape(c, r, AckRank(k))
    ensures OutsInv(c, r, AckRank(k))
  {
    ExpectedNext(c.buckets, k.idx, k.phase.next);
    ExpectedNext(StampAll(c.buckets), k.idx, k.phase.next);
  }

  predicate OutsAll(c: Config, s: State)
    requires c.Valid() && Shape(c, s)
  {
    forall r :: 0 <= r < c.n ==> OutsInv(c, r, s.ranks[r])
  }

  lemma OutsSame(c: Config, r: nat, k: Rank, k': Rank)
    requires c.Valid() && RankShape(c, r, k) && RankShape(c, r, k') && OutsInv(c, r, k)
    requires k'.outs == k.outs && (r == 0 || (k'.idx == k.idx && Next(k') == Next(k)))
    ensures OutsInv(c, r, k')
  {
  }

  /** How an action shows at rank r. */
  lemma ActionAt(c: Config, s: State, a: Action, r: nat)
    requires c.Valid() && Shape(c, s) && Enabled(c, s, a) && r < c.n
    ensures var k, k' := s.ranks[r], Apply(c, s, a).ranks[r];
            && (a == Yield(r) ==> r > 0 && k.phase.Yielding? && k' == YieldRank(k))
            && (a == Ack(r) ==> r > 0 && k.phase.Yielding? && k.phase.next == |k.phase.info.meta| && k' == AckRank(k))
            && (a != Yield(r) && a != Ack(r) ==> k'.outs == k.outs && (r == 0 || (k'.idx == k.idx && Next(k') == Next(k))))
  {
    hide RankShape, Read, LooksAcked, Overlay;
    match a
    case Take(q) =>
    case Pass(q) =>
    case Copy(q, n) =>
    case Forward(q) =>
    case Yield(q) =>
    case Ack(q) =>
    case Done =>
  }

  lemma OutsYieldStep(c: Config, s: State, r: nat)
    requires c.Valid() && SoundPayload(c) && Inv(c, s) && Shape(c, s) && Enabled(c, s, Yield(r))
    requires RankShape(c, r, s.ranks[r]) && OutsInv(c, r, s.ranks[r]) && RankShape(c, r, YieldRank(s.ranks[r]))
    ensures OutsInv(c, r, YieldRank(s.ranks[r]))
  {
    var k := s.ranks[r];
    YieldedTensor(c, s, r);
    YieldBuffer(c, s, r);
    hide Inv, OutsInv, Shape, RankShape;
    OutsYield(c, r, k, Read(k.mem[k.Slot()], k.phase.info.meta[k.phase.next]));
  }

  lemma OutsStep(c: Config, s: State, a: Action, r: nat)
    requires c.Valid() && SoundPayload(c) && Inv(c, s) && Shape(c, s) && Enabled(c, s, a) && r < c.n
    requires RankShape(c, r, s.ranks[r]) && OutsInv(c, r, s.ranks[r])
    requires |Apply(c, s, a).ranks| == c.n && RankShape(c, r, Apply(c, s, a).ranks[r])
    ensures OutsInv(c, r, Apply(c, s, a).ranks[r])
  {
    ActionAt(c, s, a, r);
    hide Inv, OutsInv, Shape, RankShape, Apply;
    if a == Yield(r) {
      OutsYieldStep(c, s, r);
    } else if a == Ack(r) {
      OutsAck(c, r, s.ranks[r]);
    } else {
      OutsSame(c, r, s.ranks[r], Apply(c, s, a).ranks[r]);
    }
  }

  lemma {:induction false} OutsRun(c: Config, s: State, steps: nat)
    requires c.Valid() && SoundPayload(c) && Reach(c, s, steps)
    ensures Shape(c, s) && OutsAll(c, s)
    decreases steps
  {
    hide Inv, RankShape, Enabled, Apply, SoundPayload, OutsInv;
    if steps == 0 {
      OutsInit(c, s);
    } else {
      var p, a :| Reach(c, p, steps - 1) && Shape(c, p) && Enabled(c, p, a) && s == Apply(c, p, a);
      RunKeeps(c, p, steps - 1);
      RunKeeps(c, s, steps);
      InvShape(c, s);
      OutsRun(c, p, steps - 1);
      forall r | 0 <= r < c.n ensures OutsInv(c, r, s.ranks[r]) { OutsStep(c, p, a, r); }
    }
  }

  lemma OutsInit(c: Config, s: State)
    requires c.Valid() && Init(c, s)
    ensures Shape(c, s) && OutsAll(c, s)
  {
    forall r | 0 <= r < c.n ensures OutsInv(c, r, s.ranks[r]) {
      assert c.buckets[..0] == [] && StampAll(c.buckets)[..0] == [];
    }
  }

  /** Every run, every rank: the last rank has handed out exactly the tensors sent so far, in order;
      an inner rank the same, except that a tensor may show the magic word where it covers the first
      four bytes of its bucket, and then nothing else differs. */
  lemma HandedOut(c: Config, s: State, r: nat)
    requires c.Valid() && SoundPayload(c) && Reachable(c, s) && 0 < r < c.n
    ensures Shape(c, s)
    ensures var k := s.ranks[r]; var exact := Expected(c.buckets, k.idx, Next(k));
            && ExactOrStamped(k.outs, exact, Expected(StampAll(c.buckets), k.idx, Next(k)), r < c.n - 1)
            && (r == c.n - 1 ==> k.outs == exact)
  {
    var steps :| Reach(c, s, steps);
    OutsRun(c, s, steps);
    assert OutsInv(c, r, s.ranks[r]);
  }

  /** A completed relay: every rank relayed all buckets, and the last rank handed out all tensors. */
  lemma CompletedRelay(c: Config, s: State)
    requires c.Valid() && SoundPayload(c) && Reachable(c, s) && Complete(s)
    ensures |s.ranks| == c.n && s.ranks[c.n-1].outs == AllYields(c.buckets)
    ensures forall r :: 0 <= r < c.n ==>
              |s.ranks[r].relayed| == c.Count() && forall k :: 0 <= k < c.Count() ==> s.ranks[r].relayed[k] == c.buckets[k].data
  {
    hide *;
    SomeBucket(c);
    HandedOut(c, s, c.n - 1);
    RelaySafety(c, s);
    RanksFinished(c, s);
    ExpectedAll(c.buckets);
  }

  // ---------- end to end ----------

  /** The relay set up by a sender that packed `ws`. */
  function Transfer(ws: seq<Weight>, n: nat, size: nat): (c: Config)
    requires n >= 2 && size >= 4 && Fits(ws, size) && AllValid(ws)
    ensures c.Valid()
  {
    PackedBucketsOk(ws, size);
    Config(n, size, Pack(ws, size).sent)
  }

  lemma RanksFinished(c: Config, s: State)
    requires c.Valid() && Shape(c, s) && Complete(s)
    ensures c.n >= 2 && c.Count() == |c.buckets| && |s.ranks| == c.n
    ensures forall r :: 0 <= r < c.n ==> s.ranks[r].idx == s.ranks[r].Sent() == c.Count() && Next(s.ranks[r]) == 0
  {
    forall r | 0 <= r < c.n ensures s.ranks[r].phase.Finished? && s.ranks[r].idx == c.Count() {
      assert s.ranks[r] in s.ranks && RankShape(c, r, s.ranks[r]);
    }
  }

  lemma ExpectedAll(bs: seq<Bucket>)
    ensures Expected(bs, |bs|, 0) == AllYields(bs)
  {
    assert bs[..|bs|] == bs;
  }

  lemma TransferIs(ws: seq<Weight>, n: nat, size: nat)
    requires n >= 2 && size >= 4 && Fits(ws, size) && AllValid(ws)
    ensures var c := Transfer(ws, n, size); c.n == n && c.size == size && c.buckets == Pack(ws, size).sent
  {
  }

  /** From tensors to tensors: if every tensor fits a bucket, equal names never share one, and the
      payload is sound, then whenever the relay has completed, the last rank has received exactly
      the tensors that were sent, in order. */
  lemma EndToEnd(ws: seq<Weight>, n: nat, size: nat, s: State)
    requires n >= 2 && size >= 4 && Fits(ws, size) && AllValid(ws)
    requires forall g <- Groups(ws, size) :: DistinctNames(g)
    requires var c := Transfer(ws, n, size); SoundPayload(c) && Reachable(c, s) && Complete(s)
    ensures |s.ranks| == n && s.ranks[n-1].outs == ws
  {
    hide *;
    CompletedRelay(Transfer(ws, n, size), s);
    PackRoundTrip(ws, size);
    TransferIs(ws, n, size);
  }
}
