/** When the relay's guarantees hold at all: both the handshake and the tensors handed out by inner
    ranks are right in every run exactly under a condition on the packed buckets, and where the
    condition fails a run that goes wrong is constructed. */
module MooncakeExact {
  import opened Buckets
  import opened PackingLaws
  import opened MooncakeRelay
  import opened MooncakeSafety
  import opened MooncakeRuns

  // ---------- building runs ----------

  lemma Advance(c: Config, s: State, a: Action)
    requires c.Valid() && Reachable(c, s) && Shape(c, s) && Enabled(c, s, a)
    ensures Reachable(c, Apply(c, s, a))
  {
    var steps: nat :| Reach(c, s, steps);
    assert Reach(c, Apply(c, s, a), steps + 1);
  }

  lemma ShapeOne(c: Config, s: State, t: State, r: nat)
    requires c.Valid() && Shape(c, s) && r < c.n && |t.ranks| == |t.chan| == c.n
    requires forall q :: 0 <= q < c.n && q != r ==> t.ranks[q] == s.ranks[q]
    requires RankShape(c, r, t.ranks[r])
    ensures Shape(c, t)
  {
    hide RankShape;
    forall q | 0 <= q < c.n ensures RankShape(c, q, t.ranks[q]) { assert q != r ==> RankShape(c, q, s.ranks[q]); }
  }

  /** The gate of rank r is open: nothing to wait for, or the word it waits for is there. */
  predicate GateOpen(c: Config, r: nat, k: Rank) {
    |k.mem| == 2 && (k.idx >= 2 && r < c.n - 1 ==> LooksAcked(k.mem[k.Slot()]))
  }

  /** The buffer of rank r filled with the whole bucket out of `src`. */
  function Filled(k: Rank, info: Info, src: seq<byte>): Rank
    requires |k.mem| == 2 && info.len <= |k.mem[k.Slot()]| && info.len <= |src|
  {
    k.(phase := Copying(info, info.len), mem := k.mem[k.Slot() := Overlay(k.mem[k.Slot()], 0, src[..info.len])])
  }

  function SourceOf(c: Config, s: State, r: nat): seq<byte>
    requires c.Valid() && Shape(c, s) && r < c.n && (s.ranks[r].phase.Gate? || s.ranks[r].phase.Copying?)
  {
    if r == 0 then c.buckets[s.ranks[0].idx].data else s.ranks[r-1].mem[s.ranks[r].phase.info.slot]
  }

  lemma SourceLong(c: Config, s: State, r: nat)
    requires c.Valid() && Shape(c, s) && r < c.n && (s.ranks[r].phase.Gate? || s.ranks[r].phase.Copying?)
    ensures |s.ranks| == |s.chan| == c.n && RankShape(c, r, s.ranks[r]) && |s.ranks[r].mem| == 2
    ensures s.ranks[r].phase.info.len <= |SourceOf(c, s, r)| && s.ranks[r].phase.info.len <= |s.ranks[r].mem[s.ranks[r].Slot()]|
  {
    assert RankShape(c, r, s.ranks[r]);
    assert r > 0 ==> RankShape(c, r-1, s.ranks[r-1]);
  }

  lemma PassGate(c: Config, s: State, r: nat) returns (t: State)
    requires c.Valid() && Reachable(c, s) && Shape(c, s) && r < c.n && s.ranks[r].phase.Gate? && GateOpen(c, r, s.ranks[r])
    ensures Reachable(c, t) && Shape(c, t)
    ensures t == s.(ranks := s.ranks[r := s.ranks[r].(phase := Copying(s.ranks[r].phase.info, 0))])
  {
    assert RankShape(c, r, s.ranks[r]);
    t := Apply(c, s, Pass(r));
    Advance(c, s, Pass(r));
    ShapeOne(c, s, t, r);
  }

  lemma CopyWhole(c: Config, s: State, r: nat) returns (t: State)
    requires c.Valid() && Reachable(c, s) && Shape(c, s) && r < c.n && s.ranks[r].phase.Copying? && s.ranks[r].phase.got == 0
    ensures Reachable(c, t) && Shape(c, t)
    ensures |s.ranks| == c.n && RankShape(c, r, s.ranks[r]) && s.ranks[r].phase.info.len <= |SourceOf(c, s, r)|
    ensures |s.ranks[r].mem| == 2 && s.ranks[r].phase.info.len <= |s.ranks[r].mem[s.ranks[r].Slot()]|
    ensures t == s.(ranks := s.ranks[r := Filled(s.ranks[r], s.ranks[r].phase.info, SourceOf(c, s, r))])
  {
    hide *;
    SourceLong(c, s, r);
    if s.ranks[r].phase.info.len > 0 {
      t := CopyStep(c, s, r);
    } else {
      CopyNothing(s.ranks[r], SourceOf(c, s, r));
      assert s.ranks[r := s.ranks[r]] == s.ranks;
      t := s;
    }
  }

  lemma CopyStep(c: Config, s: State, r: nat) returns (t: State)
    requires c.Valid() && Reachable(c, s) && Shape(c, s) && r < c.n && |s.ranks| == c.n && s.ranks[r].phase.Copying?
    requires s.ranks[r].phase.got == 0 < s.ranks[r].phase.info.len <= |SourceOf(c, s, r)|
    requires |s.ranks[r].mem| == 2 && s.ranks[r].phase.info.len <= |s.ranks[r].mem[s.ranks[r].Slot()]|
    ensures Reachable(c, t) && Shape(c, t)
    ensures t == s.(ranks := s.ranks[r := Filled(s.ranks[r], s.ranks[r].phase.info, SourceOf(c, s, r))])
  {
    hide *;
    ShapeAt(c, s, r);
    FilledShape(c, r, s.ranks[r], SourceOf(c, s, r));
    var a := Copy(r, s.ranks[r].phase.info.len);
    CopyFills(c, s, r);
    t := Apply(c, s, a);
    Advance(c, s, a);
    ShapeOne(c, s, t, r);
  }

  /** One copy step may move the whole bucket. */
  lemma CopyFills(c: Config, s: State, r: nat)
    requires c.Valid() && Shape(c, s) && r < c.n && |s.ranks| == c.n && s.ranks[r].phase.Copying?
    requires s.ranks[r].phase.got == 0 < s.ranks[r].phase.info.len <= |SourceOf(c, s, r)|
    requires |s.ranks[r].mem| == 2 && s.ranks[r].phase.info.len <= |s.ranks[r].mem[s.ranks[r].Slot()]|
    ensures var k := s.ranks[r]; var a := Copy(r, k.phase.info.len);
            Enabled(c, s, a) && Apply(c, s, a) == s.(ranks := s.ranks[r := Filled(k, k.phase.info, SourceOf(c, s, r))])
  {
    var n := s.ranks[r].phase.info.len;
    assert SourceOf(c, s, r)[0..n] == SourceOf(c, s, r)[..n];
    hide RankShape, Overlay;
  }

  lemma FilledShape(c: Config, r: nat, k: Rank, src: seq<byte>)
    requires c.Valid() && RankShape(c, r, k) && (k.phase.Gate? || k.phase.Copying?) && k.phase.info.len <= |src|
    ensures |k.mem| == 2 && k.phase.info.len <= |k.mem[k.Slot()]| && RankShape(c, r, Filled(k, k.phase.info, src))
  {
    assert |Overlay(k.mem[k.Slot()], 0, src[..k.phase.info.len])| == |k.mem[k.Slot()]|;
    hide Overlay;
  }

  lemma CopyNothing(k: Rank, src: seq<byte>)
    requires k.phase.Copying? && k.phase.info.len == k.phase.got == 0 && |k.mem| == 2
    ensures Filled(k, k.phase.info, src) == k
  {
    assert Overlay(k.mem[k.Slot()], 0, src[..0]) == k.mem[k.Slot()];
    assert k.mem[k.Slot() := k.mem[k.Slot()]] == k.mem;
  }

  lemma ForwardShape(c: Config, r: nat, k: Rank)
    requires c.Valid() && RankShape(c, r, k) && k.phase.Copying? && k.phase.got == k.phase.info.len
    ensures RankShape(c, r, ForwardRank(c, r, k))
    ensures k.phase.info.(slot := k.Slot()) == c.InfoOf(k.idx)
  {
    assert c.ValidBucket(k.idx);
    if k.idx + 1 < c.Count() { assert c.ValidBucket(k.idx + 1); }
  }

  function Announced(c: Config, s: State, r: nat, k: nat): seq<seq<Info>>
    requires |s.chan| == c.n && r < c.n && k < c.Count()
  {
    if r < c.n - 1 then s.chan[r+1 := s.chan[r+1] + [c.InfoOf(k)]] else s.chan
  }

  lemma Announce(c: Config, s: State, r: nat) returns (t: State)
    requires c.Valid() && Reachable(c, s) && Shape(c, s) && r < c.n
    requires s.ranks[r].phase.Copying? && s.ranks[r].phase.got == s.ranks[r].phase.info.len
    ensures Reachable(c, t) && Shape(c, t) && RankShape(c, r, s.ranks[r])
    ensures t == State(s.ranks[r := ForwardRank(c, r, s.ranks[r])], Announced(c, s, r, s.ranks[r].idx))
  {
    assert RankShape(c, r, s.ranks[r]);
    ForwardShape(c, r, s.ranks[r]);
    t := Apply(c, s, Forward(r));
    Advance(c, s, Forward(r));
    ShapeOne(c, s, t, r);
  }

  lemma FillBuffer(c: Config, s: State, r: nat) returns (t: State)
    requires c.Valid() && Reachable(c, s) && Shape(c, s) && r < c.n && s.ranks[r].phase.Gate? && GateOpen(c, r, s.ranks[r])
    ensures Reachable(c, t) && Shape(c, t) && |t.ranks| == |t.chan| == c.n
    ensures RankShape(c, r, s.ranks[r]) && s.ranks[r].phase.info.len <= |SourceOf(c, s, r)|
    ensures var f := Filled(s.ranks[r], s.ranks[r].phase.info, SourceOf(c, s, r));
            RankShape(c, r, f) && t == s.(ranks := s.ranks[r := f])
  {
    hide *;
    SourceLong(c, s, r);
    var u := PassGate(c, s, r);
    PassedShape(c, s, u, r);
    t := CopyWhole(c, u, r);
    FilledPassed(s.ranks[r], SourceOf(c, s, r));
    ShapeAt(c, t, r);
  }

  lemma PassedShape(c: Config, s: State, u: State, r: nat)
    requires c.Valid() && Shape(c, s) && Shape(c, u) && r < c.n && |s.ranks| == |u.ranks| == c.n && s.ranks[r].phase.Gate?
    requires u == s.(ranks := s.ranks[r := s.ranks[r].(phase := Copying(s.ranks[r].phase.info, 0))])
    ensures SourceOf(c, u, r) == SourceOf(c, s, r)
  {
  }

  lemma FilledPassed(k: Rank, src: seq<byte>)
    requires |k.mem| == 2 && k.phase.Gate? && k.phase.info.len <= |k.mem[k.Slot()]| && k.phase.info.len <= |src|
    ensures Filled(k.(phase := Copying(k.phase.info, 0)), k.phase.info, src) == Filled(k, k.phase.info, src)
  {
    hide Overlay;
  }

  lemma ShapeAt(c: Config, s: State, r: nat)
    requires c.Valid() && Shape(c, s) && r < c.n
    ensures |s.ranks| == |s.chan| == c.n && RankShape(c, r, s.ranks[r])
    ensures |s.ranks[r].mem| == 2 && |s.ranks[r].mem[0]| == |s.ranks[r].mem[1]| == c.size >= 4
  {
  }

  /** Rank r goes through its open gate, copies the bucket whole and announces it. */
  lemma RelayBucket(c: Config, s: State, r: nat) returns (t: State)
    requires c.Valid() && Reachable(c, s) && Shape(c, s) && r < c.n && s.ranks[r].phase.Gate? && GateOpen(c, r, s.ranks[r])
    ensures Reachable(c, t) && Shape(c, t)
    ensures RankShape(c, r, s.ranks[r]) && s.ranks[r].phase.info.len <= |SourceOf(c, s, r)|
    ensures var f := Filled(s.ranks[r], s.ranks[r].phase.info, SourceOf(c, s, r));
            RankShape(c, r, f) && t == State(s.ranks[r := ForwardRank(c, r, f)], Announced(c, s, r, f.idx))
  {
    var u := FillBuffer(c, s, r);
    hide Shape, RankShape, ForwardRank, Announced, SourceOf, Overlay;
    t := Announce(c, u, r);
  }

  /** The sender fills and announces one bucket. */
  lemma SenderRelays(c: Config, s: State, k: nat) returns (t: State)
    requires c.Valid() && Reachable(c, s) && Shape(c, s) && k < c.Count()
    requires s.ranks[0].phase == Gate(c.InfoOf(k)) && s.ranks[0].idx == k && GateOpen(c, 0, s.ranks[0])
    ensures Reachable(c, t) && Shape(c, t) && t.ranks == s.ranks[0 := t.ranks[0]]
    ensures t.ranks[0].idx == k + 1
    ensures t.ranks[0].phase == if k + 1 < c.Count() then Gate(c.InfoOf(k + 1)) else FinalWait
    ensures |c.buckets[k].data| <= |s.ranks[0].mem[k % 2]|
    ensures t.ranks[0].mem == s.ranks[0].mem[k % 2 := Overlay(s.ranks[0].mem[k % 2], 0, c.buckets[k].data)]
    ensures t.chan == s.chan[1 := s.chan[1] + [c.InfoOf(k)]]
  {
    assert RankShape(c, 0, s.ranks[0]) && c.ValidBucket(k);
    var d := c.buckets[k].data;
    assert d[..|d|] == d;
    t := RelayBucket(c, s, 0);
  }

  lemma TakeInfo(c: Config, s: State, r: nat) returns (t: State)
    requires c.Valid() && Reachable(c, s) && Shape(c, s) && 0 < r < c.n && s.ranks[r].phase.Idle?
    requires s.ranks[r].idx < c.Count() && s.chan[r] != [] && s.chan[r][0] == c.InfoOf(s.ranks[r].idx)
    ensures Reachable(c, t) && Shape(c, t)
    ensures t.ranks == s.ranks[r := s.ranks[r].(phase := Gate(c.InfoOf(s.ranks[r].idx)))] && t.chan == s.chan[r := s.chan[r][1..]]
  {
    assert RankShape(c, r, s.ranks[r]) && c.ValidBucket(s.ranks[r].idx);
    t := Apply(c, s, Take(r));
    Advance(c, s, Take(r));
    ShapeOne(c, s, t, r);
  }

  /** Hands out tensors up to entry `upto`; the last one is read from the buffer as it is. */
  lemma {:induction false} YieldUpTo(c: Config, s: State, r: nat, upto: nat) returns (t: State)
    requires c.Valid() && Reachable(c, s) && Shape(c, s) && 0 < r < c.n && s.ranks[r].phase.Yielding?
    requires s.ranks[r].phase.next <= upto <= |s.ranks[r].phase.info.meta|
    ensures Reachable(c, t) && Shape(c, t)
    ensures |t.ranks| == c.n && t == s.(ranks := s.ranks[r := t.ranks[r]])
    ensures t.ranks[r] == s.ranks[r].(phase := Yielding(s.ranks[r].phase.info, upto), outs := t.ranks[r].outs)
    ensures s.ranks[r].phase.next < upto ==>
              var k := s.ranks[r];
              |k.mem| == 2 && |t.ranks[r].outs| > 0
              && t.ranks[r].outs[|t.ranks[r].outs| - 1] == Read(k.mem[k.Slot()], k.phase.info.meta[upto - 1])
    decreases upto
  {
    assert RankShape(c, r, s.ranks[r]);
    if s.ranks[r].phase.next == upto {
      t := s;
    } else {
      var u := YieldUpTo(c, s, r, upto - 1);
      t := Apply(c, u, Yield(r));
      Advance(c, u, Yield(r));
      assert RankShape(c, r, u.ranks[r]);
      ShapeOne(c, u, t, r);
    }
  }

  lemma Acknowledge(c: Config, s: State, r: nat) returns (t: State)
    requires c.Valid() && Reachable(c, s) && Shape(c, s) && 0 < r < c.n && s.ranks[r].phase.Yielding?
    requires s.ranks[r].phase.next == |s.ranks[r].phase.info.meta|
    ensures Reachable(c, t) && Shape(c, t) && |s.ranks| == c.n && |s.ranks[r-1].mem| == 2 && |s.ranks[r-1].mem[s.ranks[r].idx % 2]| >= 4
    ensures t == s.(ranks := s.ranks[r := AckRank(s.ranks[r])][r-1 := StampRank(s.ranks[r-1], s.ranks[r].idx % 2)])
  {
    hide *;
    ShapeAt(c, s, r);
    ShapeAt(c, s, r-1);
    AckShape(c, r, s.ranks[r]);
    t := AckStep(c, s, r);
    StampShape(c, r-1, s.ranks[r-1], s.ranks[r].idx % 2);
    var u := s.(ranks := s.ranks[r := AckRank(s.ranks[r])]);
    ShapeOne(c, s, u, r);
    ShapeOne(c, u, t, r-1);
  }

  lemma AckStep(c: Config, s: State, r: nat) returns (t: State)
    requires c.Valid() && Reachable(c, s) && Shape(c, s) && 0 < r < c.n && |s.ranks| == c.n && s.ranks[r].phase.Yielding?
    requires s.ranks[r].phase.next == |s.ranks[r].phase.info.meta| && s.ranks[r].phase.info.slot == s.ranks[r].idx % 2
    requires |s.ranks[r-1].mem| == 2 && |s.ranks[r-1].mem[s.ranks[r].idx % 2]| >= 4
    ensures Reachable(c, t)
    ensures t == s.(ranks := s.ranks[r := AckRank(s.ranks[r])][r-1 := StampRank(s.ranks[r-1], s.ranks[r].idx % 2)])
  {
    hide RankShape, StampRank, AckRank;
    t := Apply(c, s, Ack(r));
    Advance(c, s, Ack(r));
  }

  lemma AckShape(c: Config, r: nat, k: Rank)
    requires c.Valid() && r > 0 && RankShape(c, r, k) && k.phase.Yielding?
    ensures RankShape(c, r, AckRank(k)) && k.phase.info.slot == k.idx % 2
  {
    assert c.ValidBucket(k.idx);
  }

  lemma StampShape(c: Config, r: nat, k: Rank, slot: nat)
    requires c.Valid() && RankShape(c, r, k) && slot < 2
    ensures |k.mem| == 2 && |k.mem[slot]| >= 4 && RankShape(c, r, StampRank(k, slot))
  {
  }

  lemma IdleAt(c: Config, s: State, r: nat)
    requires c.Valid() && Shape(c, s) && r < c.n && |s.ranks| == c.n && s.ranks[r].phase.Idle?
    ensures s.ranks[r].idx < c.Count() && c.ValidBucket(s.ranks[r].idx) && |s.ranks[r].mem| == 2
  {
    assert RankShape(c, r, s.ranks[r]);
  }

  /** Rank r takes the first announcement waiting for it, relays the bucket, hands out its tensors and
      acknowledges. */
  lemma ServeBucket(c: Config, s: State, r: nat) returns (t: State)
    requires c.Valid() && Reachable(c, s) && Shape(c, s) && 0 < r < c.n && s.ranks[r].phase.Idle?
    requires s.ranks[r].idx < c.Count() && s.chan[r] != [] && s.chan[r][0] == c.InfoOf(s.ranks[r].idx) && GateOpen(c, r, s.ranks[r])
    ensures Reachable(c, t) && Shape(c, t) && RankShape(c, r-1, s.ranks[r-1])
    ensures t.ranks == s.ranks[r := t.ranks[r]][r-1 := StampRank(s.ranks[r-1], s.ranks[r].idx % 2)]
    ensures var k, k' := s.ranks[r], t.ranks[r];
            && k'.idx == k.idx + 1 && k'.phase == (if k'.idx == c.Count() then Finished else Idle)
            && |k.mem| == |k'.mem| == 2 && k'.mem == k.mem[k.Slot() := k'.mem[k.Slot()]]
    ensures t.chan == Announced(c, s.(chan := s.chan[r := s.chan[r][1..]]), r, s.ranks[r].idx)
  {
    hide Shape, RankShape, Overlay, Reachable;
    ShapeAt(c, s, r);
    ShapeAt(c, s, r-1);
    var k := s.ranks[r];
    IdleAt(c, s, r);
    var s1 := TakeInfo(c, s, r);
    var s2 := RelayBucket(c, s1, r);
    var s3 := YieldUpTo(c, s2, r, |c.InfoOf(k.idx).meta|);
    t := Acknowledge(c, s3, r);
  }

  // ---------- a run that moves one bucket at a time ----------

  predicate BothAcked(k: Rank) { |k.mem| == 2 && LooksAcked(k.mem[0]) && LooksAcked(k.mem[1]) }

  /** All ranks have finished the first k buckets and nothing is under way. */
  predicate Quiet(c: Config, s: State, k: nat)
    requires c.Valid()
  {
    && Shape(c, s) && k < c.Count()
    && (forall q :: 0 <= q < c.n ==>
          s.ranks[q].idx == k && s.chan[q] == [] && s.ranks[q].phase == if q == 0 then Gate(c.InfoOf(k)) else Idle)
    && (forall q :: 0 <= q < c.n - 1 ==> BothAcked(s.ranks[q]))
  }

  /** All receivers wait for bucket k, which is announced to rank 1; the sender may be ahead. */
  predicate Waiting(c: Config, s: State, k: nat)
    requires c.Valid()
  {
    && Shape(c, s) && k < c.Count()
    && (forall q :: 1 <= q < c.n ==> s.ranks[q].idx == k && s.ranks[q].phase.Idle?)
    && s.chan[0] == [] && s.chan[1] != [] && s.chan[1][0] == c.InfoOf(k) && (forall q :: 2 <= q < c.n ==> s.chan[q] == [])
    && (forall q :: 1 <= q < c.n - 1 ==> BothAcked(s.ranks[q]))
  }

  /** Receivers before r have finished bucket k, its announcement waits for r; the sender has not moved. */
  predicate Wave(c: Config, s: State, k: nat, r: nat, sender: Rank, ch: seq<Info>)
    requires c.Valid()
  {
    && Shape(c, s) && k < c.Count() && 2 <= r <= c.n && s.ranks[0] == sender && s.chan[0] == [] && s.chan[1] == ch
    && (forall q :: 1 <= q < c.n ==>
          && s.ranks[q].idx == (if q < r then k + 1 else k)
          && s.ranks[q].phase == if q < r && k + 1 == c.Count() then Finished else Idle)
    && (forall q :: 2 <= q < c.n ==> s.chan[q] == if q == r then [c.InfoOf(k)] else [])
    && (forall q :: 1 <= q < c.n - 1 && q != r - 1 ==> BothAcked(s.ranks[q]))
    && (r < c.n ==> |s.ranks[r-1].mem| == 2 && LooksAcked(s.ranks[r-1].mem[1 - k % 2]) && |s.ranks[r-1].mem[k % 2]| >= 4)
  }

  lemma StampAcks(m: seq<byte>)
    requires |m| >= 4
    ensures LooksAcked(Overlay(m, 0, MAGIC))
  {
    assert Overlay(m, 0, MAGIC)[..4] == MAGIC;
  }

  lemma WaveStart(c: Config, s: State, k: nat) returns (t: State)
    requires c.Valid() && Reachable(c, s) && Waiting(c, s, k)
    ensures |s.ranks| == |s.chan| == c.n >= 2 && s.chan[1] != []
    ensures |s.ranks[0].mem| == 2 && |s.ranks[0].mem[k % 2]| >= 4
    ensures Reachable(c, t) && Wave(c, t, k, 2, StampRank(s.ranks[0], k % 2), s.chan[1][1..])
  {
    hide *;
    SomeBucket(c);
    WaitingAt(c, s, k);
    t := ServeBucket(c, s, 1);
    ShapeAt(c, s, 0);
    ShapeAt(c, t, 1);
    WaveFirst(c, s, t, k);
  }

  /** What waiting means for rank 1. */
  lemma WaitingAt(c: Config, s: State, k: nat)
    requires c.Valid() && Waiting(c, s, k)
    ensures Shape(c, s) && k < c.Count() && |s.ranks| == |s.chan| == c.n
    ensures s.ranks[1].idx == k && s.ranks[1].phase.Idle? && s.chan[1] != [] && s.chan[1][0] == c.InfoOf(k)
    ensures GateOpen(c, 1, s.ranks[1])
  {
    assert RankShape(c, 1, s.ranks[1]);
    hide RankShape, LooksAcked;
  }

  lemma WaveFirst(c: Config, s: State, t: State, k: nat)
    requires c.Valid() && Waiting(c, s, k) && Shape(c, t) && |s.ranks| == |s.chan| == c.n
    requires |s.ranks[0].mem| == 2 && |s.ranks[0].mem[k % 2]| >= 4
    requires |t.ranks| == c.n && |t.ranks[1].mem| == 2 && |t.ranks[1].mem[k % 2]| >= 4 && |s.ranks[1].mem| == 2
    requires t.ranks == s.ranks[1 := t.ranks[1]][0 := StampRank(s.ranks[0], k % 2)]
    requires t.ranks[1].idx == k + 1 && t.ranks[1].phase == if k + 1 == c.Count() then Finished else Idle
    requires var i := s.ranks[1].Slot(); t.ranks[1].mem == s.ranks[1].mem[i := t.ranks[1].mem[i]]
    requires k < c.Count() && s.chan[1] != [] && t.chan == Announced(c, s.(chan := s.chan[1 := s.chan[1][1..]]), 1, k)
    ensures Wave(c, t, k, 2, StampRank(s.ranks[0], k % 2), s.chan[1][1..])
  {
    hide RankShape, LooksAcked, Overlay, StampRank;
    assert 1 < c.n - 1 ==> BothAcked(s.ranks[1]);
    assert [] + [c.InfoOf(k)] == [c.InfoOf(k)];
  }

  lemma WaveStep(c: Config, s: State, k: nat, r: nat, sender: Rank, ch: seq<Info>) returns (t: State)
    requires c.Valid() && Reachable(c, s) && Wave(c, s, k, r, sender, ch) && r < c.n
    ensures Reachable(c, t) && Wave(c, t, k, r + 1, sender, ch)
  {
    hide *;
    WaveAt(c, s, k, r, sender, ch);
    t := ServeBucket(c, s, r);
    ShapeAt(c, t, r);
    assert s.chan[r][1..] == [];
    WaveNext(c, s, t, k, r, sender, ch);
  }

  /** What a wave says of the rank it has reached. */
  lemma WaveAt(c: Config, s: State, k: nat, r: nat, sender: Rank, ch: seq<Info>)
    requires c.Valid() && Wave(c, s, k, r, sender, ch) && r < c.n
    ensures Shape(c, s) && k < c.Count() && 2 <= r && |s.ranks| == |s.chan| == c.n
    ensures s.ranks[r].idx == k && s.ranks[r].phase.Idle? && s.chan[r] == [c.InfoOf(k)] && GateOpen(c, r, s.ranks[r])
    ensures |s.ranks[r-1].mem| == 2 && |s.ranks[r-1].mem[k % 2]| >= 4
  {
    assert RankShape(c, r, s.ranks[r]);
    hide RankShape, LooksAcked;
  }

  lemma WaveNext(c: Config, s: State, t: State, k: nat, r: nat, sender: Rank, ch: seq<Info>)
    requires c.Valid() && Wave(c, s, k, r, sender, ch) && r < c.n && Shape(c, t) && |s.ranks| == |s.chan| == c.n
    requires |s.ranks[r-1].mem| == 2 && |s.ranks[r-1].mem[k % 2]| >= 4
    requires |t.ranks| == c.n && |t.ranks[r].mem| == 2 && |t.ranks[r].mem[k % 2]| >= 4 && |s.ranks[r].mem| == 2
    requires t.ranks == s.ranks[r := t.ranks[r]][r-1 := StampRank(s.ranks[r-1], k % 2)]
    requires t.ranks[r].idx == k + 1 && t.ranks[r].phase == if k + 1 == c.Count() then Finished else Idle
    requires var i := s.ranks[r].Slot(); t.ranks[r].mem == s.ranks[r].mem[i := t.ranks[r].mem[i]]
    requires k < c.Count() && t.chan == Announced(c, s.(chan := s.chan[r := []]), r, k)
    ensures Wave(c, t, k, r + 1, sender, ch)
  {
    StampAcks(s.ranks[r-1].mem[k % 2]);
    assert r < c.n - 1 ==> BothAcked(s.ranks[r]);
    hide RankShape, LooksAcked, Overlay;
    assert BothAcked(t.ranks[r-1]);
    assert [] + [c.InfoOf(k)] == [c.InfoOf(k)];
  }

  lemma {:induction false} WaveEnd(c: Config, s: State, k: nat, r: nat, sender: Rank, ch: seq<Info>) returns (t: State)
    requires c.Valid() && Reachable(c, s) && Wave(c, s, k, r, sender, ch) && r <= c.n
    ensures Reachable(c, t) && Wave(c, t, k, c.n, sender, ch)
    decreases c.n - r
  {
    hide *;
    if r == c.n {
      t := s;
    } else {
      WaveAt(c, s, k, r, sender, ch);
      var u := WaveStep(c, s, k, r, sender, ch);
      t := WaveEnd(c, u, k, r + 1, sender, ch);
    }
  }

  /** All receivers deal with bucket k, one after the other. */
  lemma AllServe(c: Config, s: State, k: nat) returns (t: State)
    requires c.Valid() && Reachable(c, s) && Waiting(c, s, k)
    ensures |s.ranks| == |s.chan| == c.n >= 2 && s.chan[1] != []
    ensures |s.ranks[0].mem| == 2 && |s.ranks[0].mem[k % 2]| >= 4
    ensures Reachable(c, t) && Wave(c, t, k, c.n, StampRank(s.ranks[0], k % 2), s.chan[1][1..])
  {
    hide *;
    var u := WaveStart(c, s, k);
    t := WaveEnd(c, u, k, 2, StampRank(s.ranks[0], k % 2), s.chan[1][1..]);
  }

  /** One bucket goes from the sender through all ranks. */
  lemma OneBucket(c: Config, s: State, k: nat) returns (t: State)
    requires c.Valid() && Reachable(c, s) && Quiet(c, s, k) && k + 1 < c.Count()
    ensures Reachable(c, t) && Quiet(c, t, k + 1)
  {
    hide *;
    SomeBucket(c);
    QuietAt(c, s, k, 0);
    QuietAt(c, s, k, 1);
    var u := SenderRelays(c, s, k);
    assert [] + [c.InfoOf(k)] == [c.InfoOf(k)];
    SentWaiting(c, s, u, k);
    t := AllServe(c, u, k);
    assert [c.InfoOf(k)][1..] == [];
    ShapeAt(c, s, 0);
    ShapeAt(c, u, 0);
    QuietAgain(c, s, u, t, k);
  }

  lemma SentWaiting(c: Config, s: State, u: State, k: nat)
    requires c.Valid() && Quiet(c, s, k) && Shape(c, u) && |s.ranks| == |u.ranks| == |s.chan| == |u.chan| == c.n
    requires u.ranks == s.ranks[0 := u.ranks[0]] && u.chan == s.chan[1 := [c.InfoOf(k)]]
    ensures Waiting(c, u, k)
  {
    hide RankShape, BothAcked;
  }

  lemma QuietAgain(c: Config, s: State, u: State, t: State, k: nat)
    requires c.Valid() && Quiet(c, s, k) && k + 1 < c.Count() && |s.ranks| == |u.ranks| == c.n
    requires |s.ranks[0].mem| == |u.ranks[0].mem| == 2 && |u.ranks[0].mem[k % 2]| >= 4
    requires Wave(c, t, k, c.n, StampRank(u.ranks[0], k % 2), [])
    requires u.ranks[0].idx == k + 1 && u.ranks[0].phase == Gate(c.InfoOf(k + 1))
    requires u.ranks[0].mem == s.ranks[0].mem[k % 2 := u.ranks[0].mem[k % 2]]
    ensures Quiet(c, t, k + 1)
  {
    StampAcks(u.ranks[0].mem[k % 2]);
    assert BothAcked(s.ranks[0]);
    hide RankShape, LooksAcked, Overlay;
    assert BothAcked(t.ranks[0]);
  }

  /** A start in which every buffer happens to hold the magic word. */
  function Start(c: Config): State
    requires c.Valid()
  {
    var m := MAGIC + seq(c.size - 4, i => 0 as byte);
    State(seq(c.n, r => Rank(0, if r == 0 then Gate(c.InfoOf(0)) else Idle, [m, m], [], [])), seq(c.n, r => []))
  }

  lemma StartQuiet(c: Config)
    requires c.Valid()
    ensures Reachable(c, Start(c)) && Quiet(c, Start(c), 0)
  {
    var t := Start(c);
    assert c.ValidBucket(0);
    forall r | 0 <= r < c.n ensures RankShape(c, r, t.ranks[r]) && BothAcked(t.ranks[r]) {
      assert t.ranks[r].mem[0][..4] == MAGIC;
    }
    hide RankShape, BothAcked;
    assert Reach(c, t, 0);
  }

  lemma {:induction false} ReachQuiet(c: Config, k: nat) returns (t: State)
    requires c.Valid() && k < c.Count()
    ensures Reachable(c, t) && Quiet(c, t, k)
  {
    hide *;
    SomeBucket(c);
    if k == 0 {
      t := Start(c);
      StartQuiet(c);
    } else {
      var s := ReachQuiet(c, k - 1);
      t := OneBucket(c, s, k - 1);
    }
  }

  // ---------- the handshake ----------

  /** Bytes that can be confused with the word leave it standing when written over it. */
  lemma ConfusableLooksAcked(d: seq<byte>, m: seq<byte>)
    requires Confusable(d) && LooksAcked(m) && |d| <= |m|
    ensures LooksAcked(Overlay(m, 0, d))
  {
    var o := Overlay(m, 0, d);
    if MAGIC <= d {
      assert o[..4] == d[..4];
    } else {
      assert o[..4] == d + m[..4][|d|..];
    }
  }

  /** The buffers after a confusable bucket k and bucket k + 1: both still look acknowledged in turn. */
  lemma ConfusedGates(mem: seq<seq<byte>>, k: nat, d: seq<byte>, x: seq<byte>)
    requires |mem| == 2 && LooksAcked(mem[0]) && LooksAcked(mem[1]) && Confusable(d) && |d| <= |mem[k % 2]|
    ensures var mem1 := mem[k % 2 := Overlay(mem[k % 2], 0, d)];
            LooksAcked(mem1[(k + 1) % 2]) && LooksAcked(mem1[(k + 1) % 2 := x][(k + 2) % 2])
  {
    ConfusableLooksAcked(d, mem[k % 2]);
    hide Overlay, LooksAcked, Confusable;
    assert (k + 2) % 2 == k % 2 && (k + 1) % 2 == 1 - k % 2;
  }

  /** A confusable bucket lets rank 0 refill its buffer although nobody has read it. */
  lemma EarlyRefill(c: Config, k: nat) returns (t: State)
    requires c.Valid() && k + 2 < c.Count() && Confusable(c.buckets[k].data)
    ensures Reachable(c, t) && Shape(c, t) && |t.ranks| == |t.chan| == c.n && !NoEarlyRefill(c, t)
    ensures t.ranks[0].idx == k + 2 && t.ranks[0].phase == Copying(c.InfoOf(k + 2), 0)
    ensures t.ranks[1].idx == k && t.ranks[1].phase.Idle? && GateOpen(c, 1, t.ranks[1])
    ensures |t.chan[1]| == 2 && t.chan[1][0] == c.InfoOf(k)
  {
    var s := QuietRanks(c, k);
    var mem, d := s.ranks[0].mem, c.buckets[k].data;
    hide Shape, RankShape, LooksAcked, Overlay, Confusable, BothAcked;
    var s1 := SenderRelays(c, s, k);
    ConfusedGates(mem, k, d, []);
    var s2 := SenderRelays(c, s1, k + 1);
    ConfusedGates(mem, k, d, s2.ranks[0].mem[(k + 1) % 2]);
    t := PassGate(c, s2, 0);
    assert t.ranks[0].Started() == k + 3 && t.ranks[1].idx == k;
  }

  /** What a quiet state says of the first two ranks. */
  lemma QuietRanks(c: Config, k: nat) returns (s: State)
    requires c.Valid() && k < c.Count()
    ensures Reachable(c, s) && Shape(c, s) && |s.ranks| == |s.chan| == c.n
    ensures BothAcked(s.ranks[0]) && GateOpen(c, 0, s.ranks[0]) && s.ranks[0].idx == k && s.ranks[0].phase == Gate(c.InfoOf(k))
    ensures s.ranks[1].idx == k && s.ranks[1].phase.Idle? && GateOpen(c, 1, s.ranks[1]) && s.chan[1] == []
  {
    hide *;
    SomeBucket(c);
    s := ReachQuiet(c, k);
    QuietAt(c, s, k, 0);
    QuietAt(c, s, k, 1);
  }

  lemma QuietAt(c: Config, s: State, k: nat, r: nat)
    requires c.Valid() && Quiet(c, s, k) && r < c.n
    ensures Shape(c, s) && k < c.Count() && |s.ranks| == |s.chan| == c.n >= 2
    ensures s.ranks[r].idx == k && s.ranks[r].phase == (if r == 0 then Gate(c.InfoOf(k)) else Idle) && s.chan[r] == []
    ensures (r < c.n - 1 ==> BothAcked(s.ranks[r])) && GateOpen(c, r, s.ranks[r])
  {
    assert RankShape(c, r, s.ranks[r]);
    hide RankShape, LooksAcked;
  }

  // ---------- what rank 1 relays then ----------

  /** Two buckets that disagree where both have bytes. */
  predicate Differ(d: seq<byte>, e: seq<byte>) { exists i :: 0 <= i < |d| && i < |e| && d[i] != e[i] }

  /** Every rank has relayed the sender's buckets, one after the other. */
  predicate RelayedRight(c: Config, s: State) { forall k <- s.ranks :: Relayed(c, k) }

  /** If bucket k can be confused with the word and bucket k + 2 disagrees with it, rank 1 can relay
      other bytes as bucket k: rank 0 has put bucket k + 2 in their place. */
  lemma WrongRelay(c: Config, k: nat) returns (t: State)
    requires c.Valid() && k + 2 < c.Count() && Confusable(c.buckets[k].data) && Differ(c.buckets[k].data, c.buckets[k + 2].data)
    ensures Reachable(c, t) && |t.ranks| == c.n && |t.ranks[1].relayed| == k + 1
    ensures t.ranks[1].relayed[k] != c.buckets[k].data
  {
    var s := EarlyRefill(c, k);
    var u := Refill(c, s, k);
    t := RelaysRefilled(c, u, k);
    CountsRelayed(c, t, 1);
  }

  /** Rank 0 copies bucket k + 2 over bucket k. */
  lemma Refill(c: Config, s: State, k: nat) returns (t: State)
    requires c.Valid() && Reachable(c, s) && Shape(c, s) && k + 2 < c.Count() && |s.ranks| == |s.chan| == c.n
    requires s.ranks[0].idx == k + 2 && s.ranks[0].phase == Copying(c.InfoOf(k + 2), 0)
    ensures Reachable(c, t) && Shape(c, t) && t.chan == s.chan && |t.ranks| == c.n && t.ranks[1] == s.ranks[1]
    ensures |t.ranks[0].mem| == 2 && c.buckets[k + 2].data <= t.ranks[0].mem[k % 2]
  {
    assert RankShape(c, 0, s.ranks[0]) && c.ValidBucket(k + 2);
    var d, m := c.buckets[k + 2].data, s.ranks[0].mem[k % 2];
    assert (k + 2) % 2 == k % 2 && d[..|d|] == d;
    hide Shape, RankShape;
    t := CopyWhole(c, s, 0);
    assert Overlay(m, 0, d)[..|d|] == d;
  }

  lemma RelaysRefilled(c: Config, s: State, k: nat) returns (t: State)
    requires c.Valid() && Reachable(c, s) && Shape(c, s) && k + 2 < c.Count() && |s.ranks| == |s.chan| == c.n
    requires s.ranks[1].idx == k && s.ranks[1].phase.Idle? && GateOpen(c, 1, s.ranks[1]) && s.chan[1] != [] && s.chan[1][0] == c.InfoOf(k)
    requires |s.ranks[0].mem| == 2 && c.buckets[k + 2].data <= s.ranks[0].mem[k % 2] && Differ(c.buckets[k].data, c.buckets[k + 2].data)
    ensures Reachable(c, t) && |t.ranks| == c.n && t.ranks[1].phase.Yielding? && t.ranks[1].idx == k
    ensures var r := t.ranks[1].relayed; |r| > 0 && r[|r| - 1] != c.buckets[k].data
  {
    var u := TakeInfo(c, s, 1);
    hide Shape, Differ, Overlay;
    t := RelayBucket(c, u, 1);
    var k1, src, n := u.ranks[1], s.ranks[0].mem[k % 2], |c.buckets[k].data|;
    assert SourceOf(c, u, 1) == src;
    OverlayFront(k1.mem[k % 2], src[..n]);
    DifferShows(c.buckets[k].data, c.buckets[k + 2].data, src);
  }

  lemma OverlayFront(m: seq<byte>, d: seq<byte>)
    requires |d| <= |m|
    ensures Overlay(m, 0, d)[..|d|] == d
  {
  }

  lemma DifferShows(d: seq<byte>, e: seq<byte>, src: seq<byte>)
    requires Differ(d, e) && e <= src && |d| <= |src|
    ensures src[..|d|] != d
  {
    var i :| 0 <= i < |d| && i < |e| && d[i] != e[i];
    assert src[..|d|][i] == e[i];
  }

  lemma CountsRelayed(c: Config, s: State, r: nat)
    requires c.Valid() && Reachable(c, s) && r < c.n && |s.ranks| == c.n
    ensures |s.ranks[r].relayed| == s.ranks[r].Sent()
  {
    hide *;
    ReachableInv(c, s);
    Around(c, s, r);
    InvCounts(c, r, s.ranks[r], Acked(c, s, r));
  }

  lemma InvCounts(c: Config, r: nat, k: Rank, acked: nat)
    requires c.Valid() && RankInv(c, r, k, acked)
    ensures |k.relayed| == k.Sent()
  {
    hide RankShape, Slots, Relayed, Flags;
  }

  /** Where every bucket but the last two disagrees with the one after next: all ranks relay the right
      bytes in all runs if and only if none of those buckets can be confused with the word. */
  lemma RelayExact(c: Config)
    requires c.Valid() && forall k :: 0 <= k < c.Count() - 2 ==> Differ(c.buckets[k].data, c.buckets[k + 2].data)
    ensures SoundPayload(c) <==> forall s :: Reachable(c, s) ==> RelayedRight(c, s)
  {
    hide Reachable, Differ, Confusable;
    if SoundPayload(c) {
      forall s | Reachable(c, s) ensures RelayedRight(c, s) { SoundRelays(c, s); }
    } else {
      var k :| 0 <= k < |c.buckets| - 2 && Confusable(c.buckets[k].data);
      var t := WrongRelay(c, k);
      assert t.ranks[1] in t.ranks && !Relayed(c, t.ranks[1]);
    }
  }

  lemma SoundRelays(c: Config, s: State)
    requires c.Valid() && SoundPayload(c) && Reachable(c, s)
    ensures RelayedRight(c, s)
  {
    hide Inv, Relayed, Slots, Counts, RankShape;
    ReachableInv(c, s);
    RanksCount(c, s);
    forall r | 0 <= r < |s.ranks| ensures Relayed(c, s.ranks[r]) { Around(c, s, r); }
  }

  lemma RanksCount(c: Config, s: State)
    requires c.Valid() && Inv(c, s)
    ensures |s.ranks| == c.n
  {
    hide RankInv, Chan;
  }

  /** The handshake is sound in every run, for every initial memory, if and only if no bucket but the
      last two begins with the magic word or is a prefix of it. */
  lemma HandshakeExact(c: Config)
    requires c.Valid()
    ensures SoundPayload(c) <==> forall s :: Reachable(c, s) ==> NoEarlyRefill(c, s)
  {
    if SoundPayload(c) {
      forall s | Reachable(c, s) ensures NoEarlyRefill(c, s) { RelaySafety(c, s); }
    } else {
      var k :| 0 <= k < |c.buckets| - 2 && Confusable(c.buckets[k].data);
      var t := EarlyRefill(c, k);
    }
  }

  // ---------- tensors handed out by inner ranks ----------

  predicate InnerExact(c: Config, s: State)
    requires c.Valid()
  {
    Shape(c, s) && forall r :: 0 < r < c.n ==> s.ranks[r].outs == Expected(c.buckets, s.ranks[r].idx, Next(s.ranks[r]))
  }

  lemma StampLength(d: seq<byte>)
    ensures |Stamp(d)| == |d|
  {
  }

  /** The word leaves a bucket unchanged exactly if the bucket can be confused with it. */
  lemma StampKeeps(d: seq<byte>)
    ensures Stamp(d) == d <==> Confusable(d)
  {
    if |d| >= 4 {
      assert MAGIC + d[4..] == d <==> d[..4] == MAGIC;
      assert MAGIC <= d <==> d[..4] == MAGIC;
    } else {
      assert d <= MAGIC <==> MAGIC[..|d|] == d;
    }
  }

  lemma StampShows(c: Config, s: State, k: nat, i: nat)
    requires c.Valid() && c.n >= 3 && k < c.Count() && i < |c.buckets[k].meta| && |s.ranks| == c.n
    requires |s.ranks[1].mem| == 2 && Stamp(c.buckets[k].data) <= s.ranks[1].mem[k % 2]
    ensures Read(s.ranks[1].mem[k % 2], c.buckets[k].meta[i]) == Yields(StampBucket(c.buckets[k]))[i]
  {
    var b, m := c.buckets[k], c.buckets[k].meta[i];
    assert c.ValidBucket(k) && m in b.meta;
    StampLength(b.data);
    ReadPrefix(Stamp(b.data), s.ranks[1].mem[k % 2], m);
  }

  lemma YieldsEntry(c: Config, s: State, r: nat, i: nat) returns (t: State)
    requires c.Valid() && Reachable(c, s) && Shape(c, s) && 0 < r < c.n && s.ranks[r].phase.Yielding?
    requires s.ranks[r].phase.next == 0 && i < |s.ranks[r].phase.info.meta|
    ensures Reachable(c, t) && |t.ranks| == c.n && |s.ranks[r].mem| == 2
    ensures t.ranks[r].idx == s.ranks[r].idx && t.ranks[r].phase == Yielding(s.ranks[r].phase.info, i + 1)
    ensures var o := t.ranks[r].outs;
            |o| > 0 && o[|o| - 1] == Read(s.ranks[r].mem[s.ranks[r].Slot()], s.ranks[r].phase.info.meta[i])
  {
    hide Shape, RankShape, Read;
    t := YieldUpTo(c, s, r, i + 1);
  }

  lemma WrongLast(c: Config, t: State, k: nat, i: nat)
    requires c.Valid() && c.n >= 2 && |t.ranks| == c.n && k < c.Count() && i < |c.buckets[k].meta|
    requires t.ranks[1].idx == k && t.ranks[1].phase.Yielding? && t.ranks[1].phase.next == i + 1
    requires var o := t.ranks[1].outs; |o| > 0 && o[|o| - 1] != Yields(c.buckets[k])[i]
    ensures !InnerExact(c, t)
  {
    ExpectedNext(c.buckets, k, i);
    hide Yields, AllYields;
    var o, e := t.ranks[1].outs, Expected(c.buckets, k, i + 1);
    assert e[|e| - 1] == Yields(c.buckets[k])[i];
  }

  /** The successor of rank 1 acknowledges before rank 1 hands out entry i, which then shows the word. */
  lemma LateYield(c: Config, k: nat, i: nat) returns (t: State)
    requires c.Valid() && c.n >= 3 && k < c.Count() && i < |c.buckets[k].meta|
    requires Yields(StampBucket(c.buckets[k]))[i] != Yields(c.buckets[k])[i]
    ensures Reachable(c, t) && !InnerExact(c, t)
  {
    var s := StampedWhileYielding(c, k);
    assert s.ranks[1].phase.info.meta == c.buckets[k].meta && s.ranks[1].Slot() == k % 2;
    hide *;
    StampShows(c, s, k, i);
    t := YieldsEntry(c, s, 1, i);
    WrongLast(c, t, k, i);
  }

  /** Rank 1 has announced bucket k and handed out nothing of it; rank 2 has acknowledged it. */
  lemma StampedWhileYielding(c: Config, k: nat) returns (t: State)
    requires c.Valid() && c.n >= 3 && k < c.Count()
    ensures Reachable(c, t) && Shape(c, t) && |t.ranks| == c.n
    ensures t.ranks[1].phase == Yielding(c.InfoOf(k), 0) && t.ranks[1].idx == k
    ensures |t.ranks[1].mem| == 2 && Stamp(c.buckets[k].data) <= t.ranks[1].mem[k % 2]
  {
    var s := QuietThree(c, k);
    hide Shape, RankShape, Overlay, GateOpen, Stamp;
    var s1 := SenderRelays(c, s, k);
    OverlayStarts(s.ranks[0].mem[k % 2], c.buckets[k].data);
    var s2 := FirstRelays(c, s1, k);
    t := ServeBucket(c, s2, 2);
    ShapeAt(c, s2, 1);
    StampPrefix(c.buckets[k].data, s2.ranks[1].mem[k % 2]);
  }

  lemma BufferFits(c: Config, s: State, r: nat, k: nat)
    requires c.Valid() && Shape(c, s) && r < c.n && k < c.Count()
    ensures |s.ranks[r].mem| == 2 && |c.buckets[k].data| <= |s.ranks[r].mem[k % 2]|
  {
    assert RankShape(c, r, s.ranks[r]) && c.ValidBucket(k);
  }

  lemma OverlayStarts(m: seq<byte>, d: seq<byte>)
    requires |d| <= |m|
    ensures d <= Overlay(m, 0, d)
  {
    OverlayFront(m, d);
  }

  /** What a quiet state says of the first three ranks. */
  lemma QuietThree(c: Config, k: nat) returns (s: State)
    requires c.Valid() && c.n >= 3 && k < c.Count()
    ensures Reachable(c, s) && Shape(c, s) && |s.ranks| == |s.chan| == c.n
    ensures s.ranks[0].idx == s.ranks[1].idx == s.ranks[2].idx == k
    ensures s.ranks[0].phase == Gate(c.InfoOf(k)) && s.ranks[1].phase.Idle? && s.ranks[2].phase.Idle?
    ensures GateOpen(c, 0, s.ranks[0]) && GateOpen(c, 1, s.ranks[1]) && GateOpen(c, 2, s.ranks[2])
    ensures s.chan[1] == s.chan[2] == []
  {
    hide *;
    SomeBucket(c);
    s := ReachQuiet(c, k);
    QuietAt(c, s, k, 0);
    QuietAt(c, s, k, 1);
    QuietAt(c, s, k, 2);
  }

  lemma FirstRelays(c: Config, s: State, k: nat) returns (t: State)
    requires c.Valid() && c.n >= 3 && k < c.Count() && Reachable(c, s) && Shape(c, s) && |s.ranks| == |s.chan| == c.n
    requires s.ranks[1].phase.Idle? && s.ranks[1].idx == k && GateOpen(c, 1, s.ranks[1])
    requires s.chan[1] == [c.InfoOf(k)] && s.chan[2] == []
    requires |s.ranks[0].mem| == 2 && c.buckets[k].data <= s.ranks[0].mem[k % 2]
    ensures Reachable(c, t) && Shape(c, t) && t.ranks == s.ranks[1 := t.ranks[1]]
    ensures t.ranks[1].phase == Yielding(c.InfoOf(k), 0) && t.ranks[1].idx == k
    ensures |t.ranks[1].mem| == 2 && c.buckets[k].data <= t.ranks[1].mem[k % 2]
    ensures t.chan == s.chan[1 := []][2 := [c.InfoOf(k)]]
  {
    BufferFits(c, s, 1, k);
    hide Shape, Overlay, GateOpen;
    var u := TakeInfo(c, s, 1);
    var k1, d, src := u.ranks[1], c.buckets[k].data, s.ranks[0].mem[k % 2];
    assert src[..|d|] == d && s.chan[1][1..] == [];
    t := RelayBucket(c, u, 1);
    assert SourceOf(c, u, 1) == src;
    OverlayStarts(k1.mem[k % 2], d);
    assert [] + [c.InfoOf(k)] == [c.InfoOf(k)];
  }

  // ---------- the condition on packed buckets ----------

  /** The word, written over the beginning of a bucket of distinctly named tensors, leaves all of them
      alone exactly if the bucket can be confused with it. */
  lemma StampHarmless(b: Bucket, g: seq<Weight>)
    requires AllValid(g) && DistinctNames(g) && b.data == Bytes(g) && b.meta == MetaOf(g)
    ensures Yields(StampBucket(b)) == Yields(b) <==> Confusable(b.data)
  {
    BucketRoundTrip(b, g);
    StampKeeps(b.data);
    StampLength(b.data);
    hide Yields, Bytes, MetaOf, AllValid, DistinctNames, Stamp, Confusable;
    if Yields(StampBucket(b)) == g { YieldsDetermine(StampBucket(b), g); }
  }

  predicate AllConfusable(bs: seq<Bucket>) { forall k :: 0 <= k < |bs| ==> Confusable(bs[k].data) }

  lemma {:induction false} ConfusableExpected(bs: seq<Bucket>, idx: nat, next: nat)
    requires idx <= |bs| && (next > 0 ==> idx < |bs| && next <= |bs[idx].meta|) && AllConfusable(bs)
    ensures Expected(StampAll(bs), idx, next) == Expected(bs, idx, next)
  {
    forall k | 0 <= k < |bs| ensures StampAll(bs)[k] == bs[k] { StampKeeps(bs[k].data); }
    assert StampAll(bs) == bs;
  }

  /** Some run of an inner rank hands out a wrong tensor of bucket k. */
  lemma SomeRunWrong(ws: seq<Weight>, n: nat, size: nat, k: nat)
    requires n >= 3 && size >= 4 && Fits(ws, size) && AllValid(ws) && forall g <- Groups(ws, size) :: DistinctNames(g)
    requires k < Transfer(ws, n, size).Count() && !Confusable(Transfer(ws, n, size).buckets[k].data)
    ensures exists s :: Reachable(Transfer(ws, n, size), s) && !InnerExact(Transfer(ws, n, size), s)
  {
    var c := Transfer(ws, n, size);
    var b := c.buckets[k];
    PackedGroup(ws, size, k);
    StampHarmless(b, Groups(ws, size)[k]);
    StampLength(b.data);
    hide Reachable, InnerExact, Transfer, Groups, Confusable, Stamp;
    var i := FirstDifference(Yields(StampBucket(b)), Yields(b));
    var t := LateYield(c, k, i);
  }

  lemma FirstDifference(x: seq<Weight>, y: seq<Weight>) returns (i: nat)
    requires |x| == |y| && x != y
    ensures i < |x| && x[i] != y[i]
  {
    i :| 0 <= i < |x| && x[i] != y[i];
  }

  ghost predicate AlwaysExact(c: Config)
    requires c.Valid()
  {
    forall s :: Reachable(c, s) ==> InnerExact(c, s)
  }

  /** At least one inner rank, equal names never in one bucket: if all tensors handed out are right in
      every run, then every bucket begins with the magic word or is a prefix of it; and under a sound
      payload the converse holds too. */
  lemma InnerYieldsExact(ws: seq<Weight>, n: nat, size: nat)
    requires n >= 3 && size >= 4 && Fits(ws, size) && AllValid(ws) && forall g <- Groups(ws, size) :: DistinctNames(g)
    ensures var c := Transfer(ws, n, size);
            && (AlwaysExact(c) ==> AllConfusable(c.buckets))
            && (SoundPayload(c) ==> (AlwaysExact(c) <==> AllConfusable(c.buckets)))
  {
    var c := Transfer(ws, n, size);
    if !AllConfusable(c.buckets) {
      var k :| 0 <= k < c.Count() && !Confusable(c.buckets[k].data);
      SomeRunWrong(ws, n, size, k);
    } else if SoundPayload(c) {
      hide Transfer, SoundPayload, AllConfusable, Reachable;
      forall s | Reachable(c, s) ensures InnerExact(c, s) { ConfusableIsExact(c, s); }
    }
  }

  lemma ConfusableIsExact(c: Config, s: State)
    requires c.Valid() && c.n >= 3 && SoundPayload(c) && AllConfusable(c.buckets) && Reachable(c, s)
    ensures InnerExact(c, s)
  {
    HandedOut(c, s, 1);
    forall r | 0 < r < c.n ensures s.ranks[r].outs == Expected(c.buckets, s.ranks[r].idx, Next(s.ranks[r])) {
      HandedOut(c, s, r);
      assert RankShape(c, r, s.ranks[r]);
      ConfusableExpected(c.buckets, s.ranks[r].idx, Next(s.ranks[r]));
    }
  }

  /** So with three or more buckets and a sound payload, some run always hands out a wrong tensor. */
  lemma InnerAlwaysFails(ws: seq<Weight>, n: nat, size: nat)
    requires n >= 3 && size >= 4 && Fits(ws, size) && AllValid(ws) && forall g <- Groups(ws, size) :: DistinctNames(g)
    requires SoundPayload(Transfer(ws, n, size)) && Transfer(ws, n, size).Count() >= 3
    ensures exists s :: Reachable(Transfer(ws, n, size), s) && !InnerExact(Transfer(ws, n, size), s)
  {
    SomeRunWrong(ws, n, size, 0);
  }
}
