/** Progress of the relay: it cannot get stuck short of completion, and every run is finite. */
module MooncakeProgress {
  import opened Buckets
  import opened PackingLaws
  import opened MooncakeRelay
  import opened MooncakeSafety

  // ---------- no deadlock ----------

  /** Rank r could act on its own right now. */
  predicate Moves(c: Config, s: State, r: nat)
    requires c.Valid() && Shape(c, s) && r < c.n
  {
    || Enabled(c, s, Take(r)) || Enabled(c, s, Pass(r)) || Enabled(c, s, Copy(r, 1)) || Enabled(c, s, Forward(r))
    || Enabled(c, s, Yield(r)) || Enabled(c, s, Ack(r)) || (r == 0 && Enabled(c, s, Done))
  }

  /** Once the successor has acknowledged all that was announced, the gate of a rank is open. */
  lemma GateOpens(c: Config, r: nat, k: Rank, acked: nat)
    requires c.Valid() && RankInv(c, r, k, acked) && r < c.n - 1 && acked == k.Sent()
    ensures k.phase.Gate? && k.idx >= 2 ==> LooksAcked(k.mem[k.Slot()])
    ensures k.phase.FinalWait? ==> LooksAcked(k.mem[(c.Count() - 1) % 2])
  {
    hide SoundPayload, Slots, Relayed;
    if k.phase.Gate? && k.idx >= 2 { assert HasFlag(k.mem, k.idx - 2); }
    if k.phase.FinalWait? { assert HasFlag(k.mem, c.Count() - 1); }
  }

  /** What it means for one rank that it cannot move. */
  lemma StuckLocal(c: Config, s: State, r: nat)
    requires c.Valid() && Shape(c, s) && r < c.n && !Moves(c, s, r)
    ensures RankShape(c, r, s.ranks[r])
    ensures var k := s.ranks[r];
            && !k.phase.Copying? && !k.phase.Yielding?
            && (k.phase.Idle? ==> s.chan[r] == [])
            && (k.phase.Gate? ==> k.idx >= 2 && r < c.n - 1 && !LooksAcked(k.mem[k.Slot()]))
            && (k.phase.FinalWait? ==> r == 0 && !LooksAcked(k.mem[(c.Count() - 1) % 2]))
  {
    var k := s.ranks[r];
    assert RankShape(c, r, k);
    assert !Enabled(c, s, Take(r)) && !Enabled(c, s, Pass(r)) && !Enabled(c, s, Yield(r)) && !Enabled(c, s, Ack(r));
    assert !Enabled(c, s, Copy(r, 1)) && !Enabled(c, s, Forward(r));
  }

  lemma ChannelDrained(c: Config, r: nat, left: Rank, right: Rank, ch: seq<Info>)
    requires c.Valid() && Chan(c, left, right, ch) && RankShape(c, r, right)
    requires (right.phase.Idle? && ch == []) || right.phase.Finished?
    ensures left.Sent() == right.idx
  {
  }

  /** If no rank from r on can move, rank r has taken all it was offered and finished it. */
  lemma {:induction false} StuckRank(c: Config, s: State, r: nat)
    requires c.Valid() && Inv(c, s) && Shape(c, s) && 0 < r < c.n
    requires forall q :: r <= q < c.n ==> !Moves(c, s, q)
    ensures s.ranks[r].phase.Idle? || s.ranks[r].phase.Finished?
    ensures s.ranks[r-1].Sent() == s.ranks[r].idx
    decreases c.n - r
  {
    hide Inv, RankInv, Chan, Moves;
    Around(c, s, r);
    StuckLocal(c, s, r);
    hide Shape, RankShape;
    if r < c.n - 1 {
      StuckRank(c, s, r + 1);
      GateOpens(c, r, s.ranks[r], Acked(c, s, r));
    }
    ChannelDrained(c, r, s.ranks[r-1], s.ranks[r], s.chan[r]);
  }

  lemma {:induction false} AllFinished(c: Config, s: State, r: nat)
    requires c.Valid() && Inv(c, s) && Shape(c, s) && r < c.n
    requires forall q :: 0 <= q < c.n ==> !Moves(c, s, q)
    ensures s.ranks[r].phase.Finished? && s.ranks[r].idx == c.Count()
  {
    hide Inv, RankInv, Chan, Moves, Shape;
    StuckLocal(c, s, r);
    if r == 0 {
      StuckRank(c, s, 1);
      Around(c, s, 0);
      GateOpens(c, 0, s.ranks[0], Acked(c, s, 0));
    } else {
      AllFinished(c, s, r - 1);
      StuckRank(c, s, r);
    }
  }

  /** In every reachable state short of completion some rank has a step that is not a wait. */
  lemma NoDeadlock(c: Config, s: State)
    requires c.Valid() && Reachable(c, s) && !Complete(s)
    ensures Shape(c, s) && exists r :: 0 <= r < c.n && Moves(c, s, r)
  {
    hide Inv, Moves, RankShape;
    ReachableInv(c, s);
    if forall r :: 0 <= r < c.n ==> !Moves(c, s, r) {
      forall r | 0 <= r < c.n ensures s.ranks[r].phase.Finished? { AllFinished(c, s, r); }
      assert false;
    }
  }

  // ---------- every run is finite ----------

  /** The number of actions one rank spends on one bucket, at most. */
  function Cost(b: Bucket): nat { |b.data| + |b.meta| + 4 }

  function Costs(bs: seq<Bucket>): nat { if bs == [] then 0 else Costs(bs[..|bs|-1]) + Cost(bs[|bs|-1]) }

  /** How far a rank has come; never more than Costs(buckets) + 1. */
  function Worked(c: Config, r: nat, k: Rank): nat
    requires c.Valid() && RankShape(c, r, k)
  {
    Costs(c.buckets[..k.idx]) +
    match k.phase
    case Idle => 0
    case Gate(_) => 1
    case Copying(_, got) => 2 + got
    case Yielding(info, next) => 3 + info.len + next
    case FinalWait => 0
    case Finished => 1
  }

  lemma CostsNext(bs: seq<Bucket>, i: nat)
    requires i < |bs|
    ensures Costs(bs[..i+1]) == Costs(bs[..i]) + Cost(bs[i])
  {
    assert bs[..i+1][..i] == bs[..i];
  }

  lemma {:induction false} CostsMonotone(bs: seq<Bucket>, i: nat, j: nat)
    requires i <= j <= |bs|
    ensures Costs(bs[..i]) <= Costs(bs[..j])
    decreases j
  {
    if i < j {
      CostsNext(bs, j - 1);
      CostsMonotone(bs, i, j - 1);
    }
  }

  lemma DoneBound(c: Config, r: nat, k: Rank)
    requires c.Valid() && RankShape(c, r, k)
    ensures Worked(c, r, k) <= Costs(c.buckets) + 1
  {
    assert c.buckets[..c.Count()] == c.buckets;
    if k.idx < c.Count() {
      CostsNext(c.buckets, k.idx);
      CostsMonotone(c.buckets, k.idx + 1, c.Count());
    }
  }

  function TotalDone(c: Config, s: State, n: nat): nat
    requires c.Valid() && Shape(c, s) && n <= c.n
  {
    if n == 0 then 0 else TotalDone(c, s, n - 1) + Worked(c, n - 1, s.ranks[n - 1])
  }

  function Actor(a: Action): nat { if a.Done? then 0 else a.r }

  /** Only the acting rank moves on. */
  lemma OthersStay(c: Config, s: State, a: Action, r: nat)
    requires c.Valid() && Shape(c, s) && Enabled(c, s, a) && r < c.n && r != Actor(a)
    ensures var k, k' := s.ranks[r], Apply(c, s, a).ranks[r]; k'.idx == k.idx && k'.phase == k.phase
  {
    hide CopyRank, ForwardRank, YieldRank, AckRank;
  }

  /** A rank that goes on with its bucket. */
  predicate GoesOn(k: Rank, k': Rank) {
    k'.idx == k.idx &&
    match k.phase
    case Idle => k'.phase.Gate?
    case Gate(_) => k'.phase.Copying?
    case Copying(_, got) => k'.phase.Copying? && k'.phase.got > got
    case Yielding(info, next) => k'.phase.Yielding? && k'.phase.info == info && k'.phase.next > next
    case FinalWait => k'.phase.Finished?
    case Finished => false
  }

  lemma GoingOnWorks(c: Config, r: nat, k: Rank, k': Rank)
    requires c.Valid() && RankShape(c, r, k) && RankShape(c, r, k') && GoesOn(k, k')
    ensures Worked(c, r, k') > Worked(c, r, k)
  {
    hide Costs;
  }

  lemma ForwardWorks(c: Config, r: nat, k: Rank)
    requires c.Valid() && RankShape(c, r, k) && k.phase.Copying? && k.phase.got == k.phase.info.len
    requires RankShape(c, r, ForwardRank(c, r, k))
    ensures Worked(c, r, ForwardRank(c, r, k)) > Worked(c, r, k)
  {
    CostsNext(c.buckets, k.idx);
    hide Costs;
  }

  lemma AckWorks(c: Config, r: nat, k: Rank)
    requires c.Valid() && RankShape(c, r, k) && k.phase.Yielding? && k.phase.next == |k.phase.info.meta|
    requires RankShape(c, r, AckRank(k))
    ensures Worked(c, r, AckRank(k)) > Worked(c, r, k)
  {
    CostsNext(c.buckets, k.idx);
    hide Costs;
  }

  lemma ActorMoves(c: Config, s: State, a: Action)
    requires c.Valid() && Shape(c, s) && Enabled(c, s, a) && Shape(c, Apply(c, s, a))
    ensures var r := Actor(a); r < c.n && Worked(c, r, Apply(c, s, a).ranks[r]) > Worked(c, r, s.ranks[r])
  {
    var r := Actor(a);
    assert r < c.n && RankShape(c, r, s.ranks[r]) && RankShape(c, r, Apply(c, s, a).ranks[r]);
    hide Worked, Shape, RankShape, ForwardRank, AckRank, StampRank, Overlay;
    var k, k' := s.ranks[r], Apply(c, s, a).ranks[r];
    match a
    case Forward(_) => ForwardWorks(c, r, k);
    case Ack(_) => AckWorks(c, r, k);
    case _ => GoingOnWorks(c, r, k, k');
  }

  lemma DoneStep(c: Config, s: State, a: Action, r: nat)
    requires c.Valid() && Shape(c, s) && Enabled(c, s, a) && Shape(c, Apply(c, s, a)) && r < c.n
    ensures Worked(c, r, Apply(c, s, a).ranks[r]) >= Worked(c, r, s.ranks[r]) + if r == Actor(a) then 1 else 0
  {
    hide Enabled, Apply;
    if r == Actor(a) { ActorMoves(c, s, a); } else { OthersStay(c, s, a, r); }
  }

  lemma {:induction false} TotalStep(c: Config, s: State, a: Action, n: nat)
    requires c.Valid() && Shape(c, s) && Enabled(c, s, a) && Shape(c, Apply(c, s, a)) && n <= c.n
    ensures TotalDone(c, Apply(c, s, a), n) >= TotalDone(c, s, n) + if Actor(a) < n then 1 else 0
  {
    hide Shape, Enabled, Apply, Worked, RankShape;
    if n > 0 {
      TotalStep(c, s, a, n - 1);
      DoneStep(c, s, a, n - 1);
    }
  }

  lemma {:induction false} TotalBound(c: Config, s: State, n: nat)
    requires c.Valid() && Shape(c, s) && n <= c.n
    ensures TotalDone(c, s, n) <= n * (Costs(c.buckets) + 1)
  {
    if n > 0 {
      TotalBound(c, s, n - 1);
      DoneBound(c, n - 1, s.ranks[n-1]);
      assert n * (Costs(c.buckets) + 1) == (n - 1) * (Costs(c.buckets) + 1) + (Costs(c.buckets) + 1);
    }
  }

  lemma {:induction false} StepsBelowDone(c: Config, s: State, steps: nat)
    requires c.Valid() && Reach(c, s, steps)
    ensures Shape(c, s) && steps <= TotalDone(c, s, c.n)
    decreases steps
  {
    hide Inv, Shape, Enabled, Apply, Init;
    RunKeeps(c, s, steps);
    InvShape(c, s);
    if steps > 0 {
      var p, a :| Reach(c, p, steps - 1) && Shape(c, p) && Enabled(c, p, a) && s == Apply(c, p, a);
      StepsBelowDone(c, p, steps - 1);
      TotalStep(c, p, a, c.n);
      ActorInRange(c, p, a);
    }
  }

  lemma ActorInRange(c: Config, s: State, a: Action)
    requires c.Valid() && Shape(c, s) && Enabled(c, s, a)
    ensures Actor(a) < c.n
  {
  }

  /** No run is longer than this, whatever the schedule: with NoDeadlock, every run that is continued
      as long as possible completes. */
  lemma RunsAreFinite(c: Config, s: State, steps: nat)
    requires c.Valid() && Reach(c, s, steps)
    ensures steps <= c.n * (Costs(c.buckets) + 1)
  {
    StepsBelowDone(c, s, steps);
    TotalBound(c, s, c.n);
  }
}
