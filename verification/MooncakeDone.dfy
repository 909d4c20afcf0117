/** The sender's final wait: when rank 0 finishes, its successor has acknowledged every bucket, and
    exactly under which condition on the payload that holds in all runs. */
module MooncakeDone {
  import opened Buckets
  import opened PackingLaws
  import opened MooncakeRelay
  import opened MooncakeSafety
  import opened MooncakeExact

  /** Once the sender has finished, rank 1 has finished every bucket. */
  predicate DoneRight(c: Config, s: State) {
    |s.ranks| == c.n >= 2 && (s.ranks[0].phase.Finished? ==> s.ranks[1].idx == c.Count())
  }

  /** The buffer of the last bucket. */
  function LastSlot(c: Config): nat { (c.Count() + 1) % 2 }

  /** No bucket that goes through the buffer of the last one can be taken for the word. */
  predicate SoundEnd(c: Config) {
    forall k :: 0 <= k < |c.buckets| && k % 2 == LastSlot(c) ==> !Confusable(c.buckets[k].data)
  }

  // ---------- the buffer of the last bucket ----------

  /** What rank 0 keeps about that buffer when rank 1 has acknowledged `acked` buckets: a bucket is
      begun in it only when the one before was acknowledged, and stays as it is until it is itself. */
  predicate EndInv(c: Config, k: Rank, acked: nat) {
    && |k.mem| == 2 && acked <= k.Sent() <= c.Count()
    && (forall i: nat :: k.Sent() - 2 <= i < k.Sent() && i % 2 == LastSlot(c) ==> Guarded(c, k.mem, i, acked))
    && (k.phase.Copying? && k.idx % 2 == LastSlot(c) ==> k.idx < acked + 2 && Partial(c, k.mem, k.idx, k.phase.got))
    && (k.phase.Finished? ==> acked == c.Count())
  }

  predicate Guarded(c: Config, mem: seq<seq<byte>>, i: nat, acked: nat)
    requires |mem| == 2
  {
    i < c.Count() && i < acked + 2 && (i >= acked ==> HasBucket(c, mem, i))
  }

  lemma EndInit(c: Config, k: Rank)
    requires |k.mem| == 2 && k.idx == 0 && k.phase.Gate?
    ensures EndInv(c, k, 0)
  {
  }

  lemma EndPass(c: Config, k: Rank, acked: nat)
    requires SoundEnd(c) && EndInv(c, k, acked) && k.phase.Gate? && k.idx < c.Count()
    requires k.idx >= 2 ==> LooksAcked(k.mem[k.Slot()])
    ensures EndInv(c, k.(phase := Copying(k.phase.info, 0)), acked)
  {
    if k.idx >= 2 && k.idx % 2 == LastSlot(c) {
      var i := k.idx - 2;
      assert Guarded(c, k.mem, i, acked);
      if i >= acked { NotConfusable(c.buckets[i].data, k.mem[k.Slot()]); }
    }
    hide Guarded, LooksAcked;
  }

  lemma EndCopy(c: Config, k: Rank, acked: nat, n: nat)
    requires EndInv(c, k, acked) && k.phase.Copying? && k.idx < c.Count()
    requires var d := c.buckets[k.idx].data; k.phase.got + n <= |d| <= |k.mem[k.Slot()]|
    ensures EndInv(c, CopyRank(k, c.buckets[k.idx].data[k.phase.got..k.phase.got + n]), acked)
  {
    var d, m := c.buckets[k.idx].data, k.mem[k.Slot()];
    if k.idx % 2 == LastSlot(c) { OverlayGrows(d, m, k.phase.got, n); }
    hide Overlay;
    var k' := CopyRank(k, d[k.phase.got..k.phase.got + n]);
    forall i: nat | k'.Sent() - 2 <= i < k'.Sent() && i % 2 == LastSlot(c) ensures Guarded(c, k'.mem, i, acked) {
      assert Guarded(c, k.mem, i, acked);
    }
  }

  lemma EndForward(c: Config, k: Rank, acked: nat)
    requires c.Valid() && RankShape(c, 0, k) && EndInv(c, k, acked) && k.phase.Copying? && k.phase.got == k.phase.info.len
    ensures EndInv(c, ForwardRank(c, 0, k), acked)
  {
    assert c.buckets[k.idx].data[..k.phase.got] == c.buckets[k.idx].data;
    var k' := ForwardRank(c, 0, k);
    forall i: nat | k'.Sent() - 2 <= i < k'.Sent() && i % 2 == LastSlot(c) ensures Guarded(c, k'.mem, i, acked) {
      if i < k.idx { assert Guarded(c, k.mem, i, acked); }
    }
  }

  /** The acknowledgement never falls into a bucket it is not for. */
  lemma EndStamp(c: Config, k: Rank, acked: nat)
    requires EndInv(c, k, acked) && acked < k.Sent() && |k.mem[acked % 2]| >= 4
    ensures EndInv(c, StampRank(k, acked % 2), acked + 1)
  {
    hide Overlay;
    var k' := StampRank(k, acked % 2);
    forall i: nat | k'.Sent() - 2 <= i < k'.Sent() && i % 2 == LastSlot(c) ensures Guarded(c, k'.mem, i, acked + 1) {
      assert Guarded(c, k.mem, i, acked);
    }
  }

  lemma EndDone(c: Config, k: Rank, acked: nat)
    requires SoundEnd(c) && c.Count() >= 1 && EndInv(c, k, acked) && k.phase.FinalWait? && k.idx == c.Count()
    requires LooksAcked(k.mem[(c.Count() - 1) % 2])
    ensures EndInv(c, k.(phase := Finished), acked)
  {
    var i: nat := c.Count() - 1;
    assert Guarded(c, k.mem, i, acked);
    if i >= acked { NotConfusable(c.buckets[i].data, k.mem[i % 2]); }
    hide Guarded, LooksAcked;
  }

  // ---------- all runs ----------

  predicate EndHolds(c: Config, s: State) { |s.ranks| == c.n >= 2 && EndInv(c, s.ranks[0], s.ranks[1].idx) }

  /** An action of rank r that leaves the sender and the count of rank 1 alone. */
  lemma EndSame(c: Config, s: State, t: State)
    requires EndHolds(c, s) && |t.ranks| == c.n && t.ranks[0] == s.ranks[0] && t.ranks[1].idx == s.ranks[1].idx
    ensures EndHolds(c, t)
  {
    hide EndInv;
  }

  lemma EndSender(c: Config, s: State, t: State)
    requires EndHolds(c, s) && |t.ranks| == c.n && t.ranks[1].idx == s.ranks[1].idx && EndInv(c, t.ranks[0], s.ranks[1].idx)
    ensures EndHolds(c, t)
  {
    hide EndInv;
  }

  lemma KeepSenderPass(c: Config, s: State)
    requires c.Valid() && SoundEnd(c) && EndHolds(c, s) && Shape(c, s) && Enabled(c, s, Pass(0))
    ensures EndHolds(c, Apply(c, s, Pass(0)))
  {
    assert RankShape(c, 0, s.ranks[0]);
    hide EndInv, SoundEnd, LooksAcked, EndHolds;
    EndAt(c, s);
    EndPass(c, s.ranks[0], s.ranks[1].idx);
    EndSender(c, s, Apply(c, s, Pass(0)));
  }

  lemma EndAt(c: Config, s: State)
    requires EndHolds(c, s)
    ensures |s.ranks| == c.n >= 2 && EndInv(c, s.ranks[0], s.ranks[1].idx)
  {
  }

  lemma KeepSenderCopy(c: Config, s: State, n: nat)
    requires c.Valid() && EndHolds(c, s) && Shape(c, s) && Enabled(c, s, Copy(0, n))
    ensures EndHolds(c, Apply(c, s, Copy(0, n)))
  {
    assert RankShape(c, 0, s.ranks[0]) && c.ValidBucket(s.ranks[0].idx);
    hide EndInv, EndHolds, Overlay;
    EndAt(c, s);
    EndCopy(c, s.ranks[0], s.ranks[1].idx, n);
    EndSender(c, s, Apply(c, s, Copy(0, n)));
  }

  lemma KeepSenderForward(c: Config, s: State)
    requires c.Valid() && EndHolds(c, s) && Shape(c, s) && Enabled(c, s, Forward(0))
    ensures EndHolds(c, Apply(c, s, Forward(0)))
  {
    assert RankShape(c, 0, s.ranks[0]);
    hide EndInv, EndHolds, ForwardRank, RankShape;
    EndAt(c, s);
    EndForward(c, s.ranks[0], s.ranks[1].idx);
    EndSender(c, s, Apply(c, s, Forward(0)));
  }

  lemma KeepFirstAck(c: Config, s: State)
    requires c.Valid() && EndHolds(c, s) && Inv(c, s) && Shape(c, s) && Enabled(c, s, Ack(1))
    ensures EndHolds(c, Apply(c, s, Ack(1)))
  {
    assert RankShape(c, 0, s.ranks[0]) && RankShape(c, 1, s.ranks[1]) && c.ValidBucket(s.ranks[1].idx);
    hide EndInv, EndHolds, Inv, RankShape, Overlay, Chan, RankInv;
    EndAt(c, s);
    Around(c, s, 1);
    AckTaken(c, s.ranks[0], s.ranks[1], s.chan[1]);
    EndStamp(c, s.ranks[0], s.ranks[1].idx);
    EndTogether(c, Apply(c, s, Ack(1)));
  }

  lemma EndTogether(c: Config, t: State)
    requires |t.ranks| == c.n >= 2 && EndInv(c, t.ranks[0], t.ranks[1].idx)
    ensures EndHolds(c, t)
  {
    hide EndInv;
  }

  lemma KeepSenderDone(c: Config, s: State)
    requires c.Valid() && SoundEnd(c) && EndHolds(c, s) && Shape(c, s) && Enabled(c, s, Done)
    ensures EndHolds(c, Apply(c, s, Done))
  {
    assert RankShape(c, 0, s.ranks[0]);
    hide EndInv, SoundEnd, LooksAcked, EndHolds;
    EndAt(c, s);
    EndDone(c, s.ranks[0], s.ranks[1].idx);
    EndSender(c, s, Apply(c, s, Done));
  }

  /** Actions of receivers other than the acknowledgement of rank 1. */
  lemma OtherAction(c: Config, s: State, a: Action)
    requires c.Valid() && Shape(c, s) && Enabled(c, s, a) && c.n >= 2
    requires a != Done && a != Ack(1) && a.r > 0
    ensures var t := Apply(c, s, a); |s.ranks| == |t.ranks| == c.n && t.ranks[0] == s.ranks[0] && t.ranks[1].idx == s.ranks[1].idx
  {
    hide RankShape, Overlay, Read, LooksAcked;
    match a
    case Take(r) =>
    case Pass(r) =>
    case Copy(r, n) =>
    case Forward(r) =>
    case Yield(r) =>
    case Ack(r) =>
  }

  /** The sender takes no part in the other actions. */
  lemma SenderAction(c: Config, s: State, a: Action)
    requires c.Valid() && Shape(c, s) && Enabled(c, s, a) && a != Done && a.r == 0
    ensures a == Pass(0) || a == Forward(0) || (a.Copy? && a == Copy(0, a.n))
  {
    hide RankShape, LooksAcked;
  }

  lemma StepKeepsEnd(c: Config, s: State, a: Action)
    requires c.Valid() && SoundEnd(c) && EndHolds(c, s) && Inv(c, s) && Shape(c, s) && Enabled(c, s, a)
    ensures EndHolds(c, Apply(c, s, a))
  {
    hide *;
    SomeBucket(c);
    if a == Done {
      KeepSenderDone(c, s);
    } else if a == Ack(1) {
      KeepFirstAck(c, s);
    } else if a.r > 0 {
      OtherAction(c, s, a);
      EndSame(c, s, Apply(c, s, a));
    } else {
      SenderAction(c, s, a);
      if a == Pass(0) { KeepSenderPass(c, s); } else if a == Forward(0) { KeepSenderForward(c, s); } else { KeepSenderCopy(c, s, a.n); }
    }
  }

  lemma InitEnd(c: Config, s: State)
    requires c.Valid() && Init(c, s)
    ensures EndHolds(c, s)
  {
    assert RankShape(c, 0, s.ranks[0]);
    hide RankShape, EndInv;
    EndInit(c, s.ranks[0]);
  }

  lemma {:induction false} RunKeepsEnd(c: Config, s: State, steps: nat)
    requires c.Valid() && SoundEnd(c) && Reach(c, s, steps)
    ensures EndHolds(c, s)
    decreases steps
  {
    hide Inv, Shape, Enabled, Apply, Init, SoundEnd, EndHolds, Config.Valid;
    if steps == 0 {
      InitEnd(c, s);
    } else {
      var p, a :| Reach(c, p, steps - 1) && Shape(c, p) && Enabled(c, p, a) && s == Apply(c, p, a);
      RunKeepsEnd(c, p, steps - 1);
      RunKeeps(c, p, steps - 1);
      StepKeepsEnd(c, p, a);
    }
  }

  /** Under that condition the sender finishes only when rank 1 has acknowledged the last bucket. */
  lemma SenderWaits(c: Config, s: State)
    requires c.Valid() && SoundEnd(c) && Reachable(c, s)
    ensures DoneRight(c, s)
  {
    hide SoundEnd, Config.Valid, Reach, Guarded;
    var steps: nat :| Reach(c, s, steps);
    RunKeepsEnd(c, s, steps);
  }

  // ---------- a run in which the sender does not wait ----------

  /** The sender has announced two buckets that nobody has taken, and the buffer it will look at next
      shows the word. */
  predicate Ahead(c: Config, s: State, j: nat)
    requires c.Valid()
  {
    && Waiting(c, s, j + 1) && j + 2 < c.Count() && s.chan[1] == [c.InfoOf(j + 1), c.InfoOf(j + 2)]
    && s.ranks[0].idx == j + 3 && s.ranks[0].phase == (if j + 3 < c.Count() then Gate(c.InfoOf(j + 3)) else FinalWait)
    && |s.ranks[0].mem| == 2 && LooksAcked(s.ranks[0].mem[j % 2])
  }

  lemma AheadAt(c: Config, s: State, j: nat)
    requires c.Valid() && Ahead(c, s, j)
    ensures Waiting(c, s, j + 1) && Shape(c, s) && |s.ranks| == |s.chan| == c.n >= 2 && j + 2 < |c.buckets|
    ensures s.chan[1] == [c.InfoOf(j + 1), c.InfoOf(j + 2)]
    ensures s.ranks[0].idx == j + 3 && s.ranks[0].phase == if j + 3 < c.Count() then Gate(c.InfoOf(j + 3)) else FinalWait
    ensures |s.ranks[0].mem| == 2 && LooksAcked(s.ranks[0].mem[j % 2]) && s.ranks[1].idx == j + 1
  {
    hide RankShape, LooksAcked, BothAcked;
  }

  /** Finishing with the last bucket not read. */
  lemma FinishAhead(c: Config, s: State, j: nat) returns (t: State)
    requires c.Valid() && Reachable(c, s) && Ahead(c, s, j) && j + 3 == c.Count()
    ensures Reachable(c, t) && !DoneRight(c, t)
  {
    hide *;
    AheadAt(c, s, j);
    t := FinishNow(c, s, j + 2);
    NotDone(c, t, j + 1);
  }

  lemma NotDone(c: Config, t: State, k: nat)
    requires |t.ranks| >= 2 && t.ranks[0].phase.Finished? && t.ranks[1].idx == k < c.Count()
    ensures !DoneRight(c, t)
  {
  }

  lemma FinishNow(c: Config, s: State, k: nat) returns (t: State)
    requires c.Valid() && Reachable(c, s) && Shape(c, s) && k + 1 == c.Count() && |s.ranks| == c.n >= 2
    requires s.ranks[0].phase == FinalWait && |s.ranks[0].mem| == 2 && LooksAcked(s.ranks[0].mem[k % 2])
    ensures Reachable(c, t) && |t.ranks| == c.n && t.ranks[0].phase.Finished? && t.ranks[1].idx == s.ranks[1].idx
  {
    hide RankShape, LooksAcked, Reachable;
    t := Apply(c, s, Done);
    Advance(c, s, Done);
  }

  /** A wave over, the receivers wait for the next bucket if it is announced. */
  lemma WaveWaits(c: Config, t: State, k: nat, sender: Rank, ch: seq<Info>)
    requires c.Valid() && Wave(c, t, k, c.n, sender, ch) && k + 1 < c.Count() && ch != [] && ch[0] == c.InfoOf(k + 1)
    ensures |t.ranks| == |t.chan| == c.n && t.ranks[0] == sender && t.chan[1] == ch && Waiting(c, t, k + 1)
  {
    hide RankShape, BothAcked;
  }

  /** What the sender does changes nothing of that. */
  lemma StillWaiting(c: Config, s: State, t: State, k: nat, info: Info)
    requires c.Valid() && Waiting(c, s, k) && Shape(c, t) && |s.ranks| == |t.ranks| == |s.chan| == |t.chan| == c.n >= 2
    requires t.ranks == s.ranks[0 := t.ranks[0]] && t.chan == s.chan[1 := s.chan[1] + [info]]
    ensures Waiting(c, t, k)
  {
    hide RankShape, BothAcked;
  }

  lemma SizesOf(c: Config, s: State)
    requires c.Valid() && Shape(c, s)
    ensures |s.ranks| == |s.chan| == c.n >= 2
  {
    hide RankShape;
  }

  lemma WordStamped(k: Rank, i: nat)
    requires i < |k.mem| && |k.mem[i]| >= 4
    ensures var k' := StampRank(k, i);
            && k'.idx == k.idx && k'.phase == k.phase && |k'.mem| == |k.mem| && LooksAcked(k'.mem[i])
            && forall j :: 0 <= j < |k.mem| && j != i ==> k'.mem[j] == k.mem[j]
  {
    StampAcks(k.mem[i]);
  }

  lemma OpenFor(c: Config, k: Rank)
    requires |k.mem| == 2 && LooksAcked(k.mem[k.idx % 2])
    ensures GateOpen(c, 0, k)
  {
  }

  /** Two more buckets with the sender ahead all the time: each acknowledgement falls into the bucket
      after next. */
  lemma AheadStep(c: Config, s: State, j: nat) returns (t: State)
    requires c.Valid() && Reachable(c, s) && Ahead(c, s, j) && j + 4 < c.Count()
    ensures Reachable(c, t) && Ahead(c, t, j + 2)
  {
    hide *;
    SomeBucket(c);
    AheadAt(c, s, j);
    var a := AllServe(c, s, j + 1);
    WordStamped(s.ranks[0], (j + 1) % 2);
    WaveWaits(c, a, j + 1, StampRank(s.ranks[0], (j + 1) % 2), [c.InfoOf(j + 2)]);
    t := AheadMore(c, a, j);
  }

  lemma AheadMore(c: Config, a: State, j: nat) returns (t: State)
    requires c.Valid() && Reachable(c, a) && Waiting(c, a, j + 2) && j + 4 < |c.buckets| == c.Count()
    requires |a.ranks| == |a.chan| == c.n >= 2 && a.chan[1] == [c.InfoOf(j + 2)]
    requires a.ranks[0].idx == j + 3 && a.ranks[0].phase == Gate(c.InfoOf(j + 3))
    requires |a.ranks[0].mem| == 2 && LooksAcked(a.ranks[0].mem[(j + 1) % 2]) && LooksAcked(a.ranks[0].mem[j % 2])
    ensures Reachable(c, t) && Ahead(c, t, j + 2)
  {
    hide *;
    Parities(j);
    WaitingAt(c, a, j + 2);
    OpenFor(c, a.ranks[0]);
    var b := SenderRelays(c, a, j + 3);
    SizesOf(c, b);
    StillWaiting(c, a, b, j + 2, c.InfoOf(j + 3));
    OpenFor(c, b.ranks[0]);
    var d := SenderRelays(c, b, j + 4);
    SizesOf(c, d);
    StillWaiting(c, b, d, j + 2, c.InfoOf(j + 4));
    t := AheadServed(c, d, j + 2);
  }

  lemma Parities(j: nat)
    ensures (j + 2) % 2 == j % 2 && (j + 3) % 2 == (j + 1) % 2 != j % 2 && (j + 4) % 2 == j % 2
  {
  }

  /** With three buckets announced, the receivers deal with the first of them. */
  lemma AheadServed(c: Config, d: State, j: nat) returns (t: State)
    requires c.Valid() && Reachable(c, d) && Waiting(c, d, j) && j + 2 < |c.buckets| == c.Count()
    requires |d.ranks| == |d.chan| == c.n >= 2 && d.chan[1] == [c.InfoOf(j)] + [c.InfoOf(j + 1)] + [c.InfoOf(j + 2)]
    requires d.ranks[0].idx == j + 3 && d.ranks[0].phase == if j + 3 < c.Count() then Gate(c.InfoOf(j + 3)) else FinalWait
    ensures Reachable(c, t) && Ahead(c, t, j)
  {
    hide *;
    t := AllServe(c, d, j);
    WordStamped(d.ranks[0], j % 2);
    assert d.chan[1][1..] == [c.InfoOf(j + 1), c.InfoOf(j + 2)];
    WaitingShape(c, d, j);
    ShapeAt(c, d, 0);
    WaveWaits(c, t, j, StampRank(d.ranks[0], j % 2), [c.InfoOf(j + 1), c.InfoOf(j + 2)]);
    AheadIf(c, t, j);
  }

  lemma WaitingShape(c: Config, s: State, k: nat)
    requires c.Valid() && Waiting(c, s, k)
    ensures Shape(c, s)
  {
  }

  lemma AheadIf(c: Config, t: State, j: nat)
    requires c.Valid() && Waiting(c, t, j + 1) && j + 2 < |c.buckets| == c.Count() && |t.ranks| == |t.chan| == c.n >= 2
    requires t.chan[1] == [c.InfoOf(j + 1), c.InfoOf(j + 2)]
    requires t.ranks[0].idx == j + 3 && t.ranks[0].phase == if j + 3 < c.Count() then Gate(c.InfoOf(j + 3)) else FinalWait
    requires |t.ranks[0].mem| == 2 && LooksAcked(t.ranks[0].mem[j % 2])
    ensures Ahead(c, t, j)
  {
    hide Waiting, LooksAcked;
  }

  /** A confusable bucket lets the sender get ahead. */
  lemma AheadStart(c: Config, k: nat) returns (t: State)
    requires c.Valid() && k + 2 < |c.buckets| == c.Count() && Confusable(c.buckets[k].data)
    ensures Reachable(c, t) && Ahead(c, t, k)
  {
    hide *;
    SomeBucket(c);
    var s := ReachQuiet(c, k);
    QuietAt(c, s, k, 0);
    QuietAt(c, s, k, 1);
    ShapeAt(c, s, 0);
    var mem, d := s.ranks[0].mem, c.buckets[k].data;
    BothLook(s.ranks[0]);
    var s1 := SenderRelays(c, s, k);
    assert [] + [c.InfoOf(k)] == [c.InfoOf(k)];
    SizesOf(c, s1);
    SentWaiting(c, s, s1, k);
    ConfusedGates(mem, k, d, []);
    Parities(k);
    OpenFor(c, s1.ranks[0]);
    var s2 := SenderRelays(c, s1, k + 1);
    SizesOf(c, s2);
    StillWaiting(c, s1, s2, k, c.InfoOf(k + 1));
    ConfusedGates(mem, k, d, s2.ranks[0].mem[(k + 1) % 2]);
    OpenFor(c, s2.ranks[0]);
    var s3 := SenderRelays(c, s2, k + 2);
    SizesOf(c, s3);
    StillWaiting(c, s2, s3, k, c.InfoOf(k + 2));
    t := AheadServed(c, s3, k);
  }

  lemma BothLook(k: Rank)
    requires BothAcked(k)
    ensures |k.mem| == 2 && LooksAcked(k.mem[0]) && LooksAcked(k.mem[1])
  {
  }

  lemma {:induction false} ReachAhead(c: Config, s: State, j: nat) returns (t: State)
    requires c.Valid() && Reachable(c, s) && Ahead(c, s, j) && j + 2 < c.Count() && j % 2 == (c.Count() - 1) % 2
    ensures Reachable(c, t) && !DoneRight(c, t)
    decreases c.Count() - j
  {
    hide *;
    if j + 3 == c.Count() {
      t := FinishAhead(c, s, j);
    } else {
      var u := AheadStep(c, s, j);
      t := ReachAhead(c, u, j + 2);
    }
  }

  /** A bucket in the buffer of the last one that can be taken for the word lets the sender finish before
      the last bucket was read. */
  lemma FinishesEarly(c: Config, k: nat) returns (t: State)
    requires c.Valid() && k < |c.buckets| == c.Count() && k % 2 == (c.Count() - 1) % 2 && Confusable(c.buckets[k].data)
    ensures Reachable(c, t) && !DoneRight(c, t)
  {
    hide *;
    if k + 1 == c.Count() {
      t := FinishesAtOnce(c, k);
    } else {
      var s := AheadStart(c, k);
      t := ReachAhead(c, s, k);
    }
  }

  lemma FinishesAtOnce(c: Config, k: nat) returns (t: State)
    requires c.Valid() && k + 1 == |c.buckets| == c.Count() && Confusable(c.buckets[k].data)
    ensures Reachable(c, t) && !DoneRight(c, t)
  {
    hide *;
    SomeBucket(c);
    var s := ReachQuiet(c, k);
    QuietAt(c, s, k, 0);
    QuietAt(c, s, k, 1);
    BothLook(s.ranks[0]);
    var u := SenderRelays(c, s, k);
    SizesOf(c, u);
    ConfusableLooksAcked(c.buckets[k].data, s.ranks[0].mem[k % 2]);
    t := FinishNow(c, u, k);
    NotDone(c, t, k);
  }

  // ---------- exactly when the sender waits ----------

  /** In all runs the sender finishes only when rank 1 has acknowledged every bucket, if and only if no
      bucket that goes through the buffer of the last one can be taken for the word. */
  lemma DoneExact(c: Config)
    requires c.Valid()
    ensures SoundEnd(c) <==> forall s :: Reachable(c, s) ==> DoneRight(c, s)
  {
    hide Reachable, DoneRight, Confusable, Config.Valid;
    if SoundEnd(c) {
      forall s | Reachable(c, s) ensures DoneRight(c, s) { SenderWaits(c, s); }
    } else {
      var k :| 0 <= k < |c.buckets| && k % 2 == LastSlot(c) && Confusable(c.buckets[k].data);
      var t := FinishesEarly(c, k);
    }
  }

  /** Where the handshake is sound, that is a condition on the last bucket alone. */
  lemma DoneExactSound(c: Config)
    requires c.Valid() && SoundPayload(c)
    ensures !Confusable(c.buckets[|c.buckets|-1].data) <==> forall s :: Reachable(c, s) ==> DoneRight(c, s)
  {
    hide Reachable, DoneRight, Confusable;
    DoneExact(c);
    var m := |c.buckets| - 1;
    assert m % 2 == LastSlot(c);
    forall k | 0 <= k < m && k % 2 == LastSlot(c) ensures !Confusable(c.buckets[k].data) { assert k <= m - 2; }
  }
}
