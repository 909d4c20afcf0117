/** The rejection-sampling loop of the trainer: generation rounds are filtered and collected until
    they make up a training batch. */
module RejectionSampling {
  import opened Wrappers
  import opened Sequences
  import opened Variance
  import opened GroupFilter

  datatype Settings = Settings(trainBatchSize: nat, n: nat, filterGroups: bool, maxNumGenBatches: int)

  // ---------- one generation round ----------

  /** `repeat(n, interleave=True)`. */
  function Repeated(uids: seq<nat>, n: nat): seq<nat> {
    if uids == [] then [] else Repeated(uids[..|uids|-1], n) + seq(n, _ => uids[|uids|-1])
  }

  /** The repeated prompts united with the generated outputs, row by row. */
  function NewBatch<T>(uids: seq<nat>, outs: seq<Output<T>>): (r: seq<Traj<T>>)
    requires |uids| == |outs|
  {
    seq(|uids|, i requires 0 <= i < |uids| => Traj(uids[i], outs[i]))
  }

  /** The same, prompt by prompt: outputs k*n to (k+1)*n belong to prompt k. */
  function PromptGroups<T>(uids: seq<nat>, outs: seq<Output<T>>, n: nat): (r: seq<Group<T>>)
    requires |outs| == Position(|uids|, n, 0)
    ensures |r| == |uids| && forall i :: 0 <= i < |r| ==> r[i].uid == uids[i]
  {
    if uids == [] then []
    else
      OneMore(|uids| - 1, n);
      var k := Position(|uids| - 1, n, 0);
      PromptGroups(uids[..|uids|-1], outs[..k], n) + [Group(uids[|uids|-1], outs[k..])]
  }

  lemma OneMore(k: nat, n: nat)
    ensures Position(k + 1, n, 0) == Position(k, n, 0) + n
  {
    assert (k + 1) * n == k * n + n;
  }

  lemma {:induction false} NewBatchIsGroups<T>(uids: seq<nat>, outs: seq<Output<T>>, n: nat)
    requires |outs| == Position(|uids|, n, 0)
    ensures |Repeated(uids, n)| == |outs| && NewBatch(Repeated(uids, n), outs) == RowsOf(PromptGroups(uids, outs, n))
    ensures Whole(PromptGroups(uids, outs, n), n)
    decreases |uids|
  {
    if uids != [] {
      var m := |uids| - 1;
      OneMore(m, n);
      var k := Position(m, n, 0);
      NewBatchIsGroups(uids[..m], outs[..k], n);
      var init, last := PromptGroups(uids[..m], outs[..k], n), Group(uids[m], outs[k..]);
      assert PromptGroups(uids, outs, n) == init + [last];
      RowsOfSnoc(init, last);
      SplitUnion(Repeated(uids[..m], n), seq(n, _ => uids[m]), outs);
      assert NewBatch(seq(n, _ => uids[m]), outs[k..]) == RowsOfGroup(last);
    }
  }

  lemma SplitUnion<T>(us: seq<nat>, vs: seq<nat>, outs: seq<Output<T>>)
    requires |us| + |vs| == |outs|
    ensures NewBatch(us + vs, outs) == NewBatch(us, outs[..|us|]) + NewBatch(vs, outs[|us|..])
  {
  }

  // ---------- the loop ----------

  datatype Outcome<T> = Continue | TooMany | Train(groups: seq<Group<T>>)

  /** The groups held back for the next training batch, and the rounds since the last one. */
  datatype Held<T> = Held(groups: seq<Group<T>>, rounds: nat)

  function Next<T>(c: Settings, h: Held<T>, generated: seq<Group<T>>): (Held<T>, Outcome<T>) {
    if !c.filterGroups then (Held([], 0), Train(generated))
    else
      var groups, rounds := h.groups + KeptGroups(generated), h.rounds + 1;
      if |groups| >= c.trainBatchSize then (Held([], 0), Train(groups[..c.trainBatchSize]))
      else if c.maxNumGenBatches <= 0 || rounds < c.maxNumGenBatches then (Held(groups, rounds), Continue)
      else (Held(groups, rounds), TooMany)
  }

  /** What a number of rounds leads to: the batches trained on, what is held, whether it raised. */
  datatype Run<T> = Run(trained: seq<seq<Group<T>>>, held: Held<T>, raised: bool)

  function RunOf<T>(c: Settings, rounds: seq<seq<Group<T>>>): Run<T> {
    if rounds == [] then Run([], Held([], 0), false)
    else
      var r := RunOf(c, rounds[..|rounds|-1]);
      if r.raised then r
      else
        var (h, o) := Next(c, r.held, rounds[|rounds|-1]);
        Run(if o.Train? then r.trained + [o.groups] else r.trained, h, o.TooMany?)
  }

  /** What the generation of one round returns: uids drawn for the prompts, outputs n to each. */
  datatype Generated<T> = Generated(uids: seq<nat>, outs: seq<Output<T>>)

  predicate Shaped<T>(g: Generated<T>, n: nat) { |g.outs| == Position(|g.uids|, n, 0) && NoDup(g.uids) }

  predicate AllShaped<T>(data: seq<Generated<T>>, n: nat) { forall k :: 0 <= k < |data| ==> Shaped(data[k], n) }

  function GroupsOf<T>(data: seq<Generated<T>>, n: nat): (r: seq<seq<Group<T>>>)
    requires AllShaped(data, n)
    ensures |r| == |data|
  {
    seq(|data|, k requires 0 <= k < |data| =>
      assert Shaped(data[k], n);
      PromptGroups(data[k].uids, data[k].outs, n))
  }

  /** The variables of the loop agree with the groups held. */
  ghost predicate Agrees<T>(batch: Option<seq<Traj<T>>>, numPromptInBatch: nat, groups: seq<Group<T>>, n: nat) {
    && numPromptInBatch == |groups| && NoDup(Uids(groups)) && Whole(groups, n)
    && (batch.None? ==> groups == []) && (batch.Some? ==> batch.value == RowsOf(groups))
  }

  ghost predicate TrainedRows<T>(batches: seq<seq<Traj<T>>>, trained: seq<seq<Group<T>>>) {
    |batches| == |trained| && forall i :: 0 <= i < |trained| ==> batches[i] == RowsOf(trained[i])
  }

  /** No uid is drawn twice. */
  predicate Fresh<T>(data: seq<Generated<T>>) {
    forall i, j, u :: 0 <= i < j < |data| && u in data[i].uids ==> u !in data[j].uids
  }

  /** The loop over the generation rounds: the batches handed to training, and whether it ended by
      raising. */
  method Fit<T>(c: Settings, data: seq<Generated<T>>) returns (batches: seq<seq<Traj<T>>>, raised: bool)
    requires c.n > 0 && Fresh(data) && AllShaped(data, c.n)
    ensures var run := RunOf(c, GroupsOf(data, c.n)); raised == run.raised && TrainedRows(batches, run.trained)
  {
    batches, raised := [], false;
    var batch: Option<seq<Traj<T>>>, numPromptInBatch: nat, numGenBatches: nat := None, 0, 0;
    LoopStart(c, data);
    hide *;
    for k := 0 to |data|
      invariant LoopInv(c, data, k, batches, batch, numPromptInBatch, numGenBatches)
    {
      ghost var rounds := numGenBatches;
      ghost var held := LoopTurn(c, data, k, batches, batch, numPromptInBatch, numGenBatches);
      var trained: Option<seq<Traj<T>>>;
      batch, numPromptInBatch, numGenBatches, trained, raised := Round(c, batch, numPromptInBatch, numGenBatches, data[k], held);
      LoopNext(c, data, k, batches, held, rounds, batch, numPromptInBatch, numGenBatches, trained, raised);
      if raised { return; }
      if trained.Some? { batches := batches + [trained.value]; }
    }
    LoopEnd(c, data, batches, batch, numPromptInBatch, numGenBatches);
  }

  /** The loop variables before round k are those of the run over the first k rounds. */
  ghost predicate LoopInv<T>(c: Settings, data: seq<Generated<T>>, k: nat, batches: seq<seq<Traj<T>>>,
                             batch: Option<seq<Traj<T>>>, numPromptInBatch: nat, numGenBatches: nat)
  {
    && c.n > 0 && Fresh(data) && AllShaped(data, c.n) && k <= |data|
    && var run := RunOf(c, GroupsOf(data[..k], c.n));
       && !run.raised && numGenBatches == run.held.rounds && UidsFrom(run.held.groups, data[..k])
       && Agrees(batch, numPromptInBatch, run.held.groups, c.n) && TrainedRows(batches, run.trained)
  }

  lemma LoopStart<T>(c: Settings, data: seq<Generated<T>>)
    requires c.n > 0 && Fresh(data) && AllShaped(data, c.n)
    ensures LoopInv(c, data, 0, [], None, 0, 0)
  {
    NothingHeld<T>(c.n);
  }

  lemma LoopEnd<T>(c: Settings, data: seq<Generated<T>>, batches: seq<seq<Traj<T>>>, batch: Option<seq<Traj<T>>>, numPromptInBatch: nat, numGenBatches: nat)
    requires LoopInv(c, data, |data|, batches, batch, numPromptInBatch, numGenBatches)
    ensures var run := RunOf(c, GroupsOf(data, c.n)); !run.raised && TrainedRows(batches, run.trained)
  {
    assert data[..|data|] == data;
  }

  ghost predicate HeldIn<T>(c: Settings, data: seq<Generated<T>>, k: nat, batches: seq<seq<Traj<T>>>, held: seq<Group<T>>, rounds: nat)
    requires AllShaped(data, c.n) && k <= |data|
  {
    var run := RunOf(c, GroupsOf(data[..k], c.n));
    !run.raised && run.held == Held(held, rounds) && UidsFrom(held, data[..k]) && TrainedRows(batches, run.trained)
  }

  /** What round k needs. */
  lemma LoopTurn<T>(c: Settings, data: seq<Generated<T>>, k: nat, batches: seq<seq<Traj<T>>>,
                    batch: Option<seq<Traj<T>>>, numPromptInBatch: nat, numGenBatches: nat)
      returns (held: seq<Group<T>>)
    requires LoopInv(c, data, k, batches, batch, numPromptInBatch, numGenBatches) && k < |data|
    ensures c.n > 0 && Shaped(data[k], c.n) && Agrees(batch, numPromptInBatch, held, c.n)
    ensures Fresh(data) && AllShaped(data, c.n) && HeldIn(c, data, k, batches, held, numGenBatches)
    ensures forall u <- data[k].uids :: u !in Uids(held)
  {
    held := RunOf(c, GroupsOf(data[..k], c.n)).held.groups;
    HeldFresh(data, k, held);
  }

  /** What the loop makes of what round k returns. */
  lemma LoopNext<T>(c: Settings, data: seq<Generated<T>>, k: nat, batches: seq<seq<Traj<T>>>, held: seq<Group<T>>, rounds: nat,
                    batch: Option<seq<Traj<T>>>, numPromptInBatch: nat, numGenBatches: nat, trained: Option<seq<Traj<T>>>, raised: bool)
    requires c.n > 0 && Fresh(data) && AllShaped(data, c.n) && k < |data| && HeldIn(c, data, k, batches, held, rounds)
    requires RoundDone(c, held, rounds, data[k], batch, numPromptInBatch, numGenBatches, trained, raised)
    ensures if raised then var run := RunOf(c, GroupsOf(data, c.n)); run.raised && TrainedRows(batches, run.trained)
            else LoopInv(c, data, k + 1, if trained.Some? then batches + [trained.value] else batches, batch, numPromptInBatch, numGenBatches)
  {
    hide RunOf, GroupsOf, Next, PromptGroups, RowsOf, UidsFrom, Agrees, Fresh, Shaped;
    RunTurn(c, data, k);
    NextUids(c, Held(held, rounds), data, k);
    if raised { RaisedStays(c, data, k + 1); }
  }

  ghost predicate RoundDone<T>(c: Settings, held: seq<Group<T>>, rounds: nat, g: Generated<T>,
                               batch: Option<seq<Traj<T>>>, numPromptInBatch: nat, numGenBatches: nat, trained: Option<seq<Traj<T>>>, raised: bool)
    requires Shaped(g, c.n)
  {
    var (h, o) := Next(c, Held(held, rounds), PromptGroups(g.uids, g.outs, c.n));
    && numGenBatches == h.rounds && Agrees(batch, numPromptInBatch, h.groups, c.n)
    && raised == o.TooMany? && trained == if o.Train? then Some(RowsOf(o.groups)) else None
  }

  predicate DrawnIn<T>(data: seq<Generated<T>>, u: nat) { exists k :: 0 <= k < |data| && u in data[k].uids }

  predicate UidsFrom<T>(groups: seq<Group<T>>, data: seq<Generated<T>>) {
    forall i :: 0 <= i < |groups| ==> DrawnIn(data, groups[i].uid)
  }

  lemma RunTurn<T>(c: Settings, data: seq<Generated<T>>, k: nat)
    requires k < |data| && AllShaped(data, c.n)
    ensures var r, r' := RunOf(c, GroupsOf(data[..k], c.n)), RunOf(c, GroupsOf(data[..k + 1], c.n));
            if r.raised then r' == r
            else var (h, o) := Next(c, r.held, PromptGroups(data[k].uids, data[k].outs, c.n));
                 r' == Run(if o.Train? then r.trained + [o.groups] else r.trained, h, o.TooMany?)
  {
    var gs := GroupsOf(data[..k + 1], c.n);
    assert gs[..|gs|-1] == GroupsOf(data[..k], c.n);
  }

  lemma {:induction false} RaisedStays<T>(c: Settings, data: seq<Generated<T>>, k: nat)
    requires k <= |data| && AllShaped(data, c.n)
    requires RunOf(c, GroupsOf(data[..k], c.n)).raised
    ensures RunOf(c, GroupsOf(data, c.n)) == RunOf(c, GroupsOf(data[..k], c.n))
    decreases |data| - k
  {
    if k < |data| {
      RunTurn(c, data, k);
      RaisedStays(c, data, k + 1);
    } else {
      assert data[..k] == data;
    }
  }

  /** New uids are not among those held. */
  lemma HeldFresh<T>(data: seq<Generated<T>>, k: nat, groups: seq<Group<T>>)
    requires k < |data| && Fresh(data) && UidsFrom(groups, data[..k])
    ensures forall u <- data[k].uids :: u !in Uids(groups)
  {
    forall i | 0 <= i < |groups| ensures groups[i].uid !in data[k].uids {
      assert DrawnIn(data[..k], groups[i].uid);
      var j :| 0 <= j < k && groups[i].uid in data[..k][j].uids;
    }
  }

  lemma NextUids<T>(c: Settings, h: Held<T>, data: seq<Generated<T>>, k: nat)
    requires k < |data| && UidsFrom(h.groups, data[..k]) && Shaped(data[k], c.n)
    ensures UidsFrom(Next(c, h, PromptGroups(data[k].uids, data[k].outs, c.n)).0.groups, data[..k + 1])
  {
    var generated := PromptGroups(data[k].uids, data[k].outs, c.n);
    NewBatchIsGroups(data[k].uids, data[k].outs, c.n);
    assert Uids(generated) == data[k].uids;
    hide PromptGroups, Shaped, Position;
    KeptMember(generated, c.n);
    hide NoDup, Whole, KeptGroups;
    UidsFromMore(h.groups, data, k);
    UidsFromNew(KeptGroups(generated), data, k);
    assert UidsFrom(h.groups + KeptGroups(generated), data[..k + 1]);
  }

  lemma UidsFromMore<T>(groups: seq<Group<T>>, data: seq<Generated<T>>, k: nat)
    requires k < |data| && UidsFrom(groups, data[..k])
    ensures UidsFrom(groups, data[..k + 1])
  {
    forall i | 0 <= i < |groups| ensures DrawnIn(data[..k + 1], groups[i].uid) {
      assert DrawnIn(data[..k], groups[i].uid);
      var j :| 0 <= j < k && groups[i].uid in data[..k][j].uids;
      assert data[..k + 1][j] == data[j];
    }
  }

  lemma UidsFromNew<T>(groups: seq<Group<T>>, data: seq<Generated<T>>, k: nat)
    requires k < |data| && forall u <- Uids(groups) :: u in data[k].uids
    ensures UidsFrom(groups, data[..k + 1])
  {
    forall i | 0 <= i < |groups| ensures DrawnIn(data[..k + 1], groups[i].uid) {
      assert Uids(groups)[i] == groups[i].uid && data[..k + 1][k] == data[k];
    }
  }

  method Round<T>(c: Settings, batch: Option<seq<Traj<T>>>, numPromptInBatch: nat, numGenBatches: nat, g: Generated<T>, ghost held: seq<Group<T>>)
      returns (batch': Option<seq<Traj<T>>>, numPromptInBatch': nat, numGenBatches': nat, trained: Option<seq<Traj<T>>>, raised: bool)
    requires c.n > 0 && Shaped(g, c.n) && Agrees(batch, numPromptInBatch, held, c.n)
    requires forall u <- g.uids :: u !in Uids(held)
    ensures RoundDone(c, held, numGenBatches, g, batch', numPromptInBatch', numGenBatches', trained, raised)
  {
    ghost var generated := PromptGroups(g.uids, g.outs, c.n);
    ghost var all := held + KeptGroups(generated);
    NewBatchIsGroups(g.uids, g.outs, c.n);
    assert Uids(generated) == g.uids && |Repeated(g.uids, c.n)| == |g.outs|;
    RoundCases(c, held, numGenBatches, g);
    hide *;
    trained, raised := None, false;
    numGenBatches' := numGenBatches + 1;
    var newBatch := NewBatch(Repeated(g.uids, c.n), g.outs);
    if !c.filterGroups {
      trained := Some(newBatch);
    } else {
      var joined, numKept := Collect(batch, newBatch, c.n, numPromptInBatch, held, generated);
      numPromptInBatch', batch' := numPromptInBatch + numKept, Some(joined);
      if numPromptInBatch' < c.trainBatchSize {
        raised := !(c.maxNumGenBatches <= 0 || numGenBatches' < c.maxNumGenBatches);
        return;
      }
      TrainRows(all, c.n, c.trainBatchSize);
      trained := Some(joined[..Position(c.trainBatchSize, c.n, 0)]);
    }
    batch', numPromptInBatch', numGenBatches' := None, 0, 0;
  }

  lemma RoundCases<T>(c: Settings, held: seq<Group<T>>, rounds: nat, g: Generated<T>)
    requires Shaped(g, c.n)
    ensures var generated := PromptGroups(g.uids, g.outs, c.n);
            var all := held + KeptGroups(generated);
            && (!c.filterGroups ==> RoundDone(c, held, rounds, g, None, 0, 0, Some(RowsOf(generated)), false))
            && (c.filterGroups && |all| >= c.trainBatchSize ==>
                  RoundDone(c, held, rounds, g, None, 0, 0, Some(RowsOf(all[..c.trainBatchSize])), false))
            && (c.filterGroups && |all| < c.trainBatchSize && Whole(all, c.n) && NoDup(Uids(all)) ==>
                  RoundDone(c, held, rounds, g, Some(RowsOf(all)), |all|, rounds + 1, None,
                            !(c.maxNumGenBatches <= 0 || rounds + 1 < c.maxNumGenBatches)))
  {
    NothingHeld<T>(c.n);
  }

  /** Filters the generated rows and appends what is kept to the rows held. */
  method Collect<T>(batch: Option<seq<Traj<T>>>, newBatch: seq<Traj<T>>, ghost n: nat, ghost numHeld: nat, ghost held: seq<Group<T>>, ghost generated: seq<Group<T>>)
      returns (joined: seq<Traj<T>>, numKept: nat)
    requires n > 0 && Agrees(batch, numHeld, held, n) && NoDup(Uids(generated)) && Whole(generated, n)
    requires forall u <- Uids(generated) :: u !in Uids(held)
    requires newBatch == RowsOf(generated)
    ensures numHeld + numKept == |held + KeptGroups(generated)|
    ensures var all := held + KeptGroups(generated); joined == RowsOf(all) && NoDup(Uids(all)) && Whole(all, n)
  {
    FilterOfGroups(generated, n);
    forall i | 0 <= i < |generated| ensures generated[i].uid !in Uids(held) { assert Uids(generated)[i] in Uids(generated); }
    HeldGrows(held, generated, n);
    NothingHeld<T>(n);
    var kept, count := FilterGroups(newBatch);
    numKept := count;
    joined := if batch.None? then kept else batch.value + kept;
  }

  lemma {:induction false} RowsOfAppend<T>(xs: seq<Group<T>>, ys: seq<Group<T>>)
    ensures RowsOf(xs + ys) == RowsOf(xs) + RowsOf(ys)
  {
    if ys == [] {
      assert xs + ys == xs;
    } else {
      var init, last := ys[..|ys|-1], ys[|ys|-1];
      RowsOfAppend(xs, init);
      assert ys == init + [last];
      hide *;
      RowsOfSnoc(xs + init, last);
      RowsOfSnoc(init, last);
      Assoc(RowsOf(xs), RowsOf(init), RowsOfGroup(last));
      Assoc(xs, init, [last]);
    }
  }

  lemma {:induction false} RowsCount<T>(gs: seq<Group<T>>, n: nat)
    requires Whole(gs, n)
    ensures |RowsOf(gs)| == Position(|gs|, n, 0)
  {
    if gs != [] {
      RowsCount(gs[..|gs|-1], n);
      OneMore(|gs| - 1, n);
    }
  }

  /** The first groups are the first rows. */
  lemma TrainRows<T>(gs: seq<Group<T>>, n: nat, k: nat)
    requires Whole(gs, n) && k <= |gs|
    ensures Position(k, n, 0) <= |RowsOf(gs)| && RowsOf(gs)[..Position(k, n, 0)] == RowsOf(gs[..k])
  {
    RowsCount(gs[..k], n);
    RowsOfAppend(gs[..k], gs[k..]);
    assert gs == gs[..k] + gs[k..];
  }

  lemma {:induction false} KeptMember<T>(gs: seq<Group<T>>, n: nat)
    requires NoDup(Uids(gs)) && Whole(gs, n)
    ensures NoDup(Uids(KeptGroups(gs))) && Whole(KeptGroups(gs), n)
    ensures forall g <- KeptGroups(gs) :: g in gs && !Constant(Metrics(g))
    ensures forall u <- Uids(KeptGroups(gs)) :: u in Uids(gs)
  {
    if gs != [] {
      var m := |gs| - 1;
      UidsPrefix(gs);
      KeptMember(gs[..m], n);
      assert gs[..m] + [gs[m]] == gs;
      hide Constant;
      KeepOrDrop(gs[..m], KeptGroups(gs[..m]), gs[m], n);
    }
  }

  /** One more group, whether it is kept or not. */
  lemma KeepOrDrop<T>(gs: seq<Group<T>>, kept: seq<Group<T>>, g: Group<T>, n: nat)
    requires NoDup(Uids(gs + [g])) && NoDup(Uids(kept)) && Whole(kept, n) && |g.outs| == n
    requires forall x <- kept :: x in gs
    requires forall u <- Uids(kept) :: u in Uids(gs)
    ensures NoDup(Uids(kept + [g])) && Whole(kept + [g], n)
    ensures forall u <- Uids(kept + [g]) :: u in Uids(gs + [g])
    ensures forall u <- Uids(kept) :: u in Uids(gs + [g])
  {
    UidsAppend(gs, [g]);
    UidsAppend(kept, [g]);
    var us := Uids(gs) + [g.uid];
    assert Uids([g]) == [g.uid] && NoDup(us) && us[|gs|] == g.uid;
    forall i | 0 <= i < |gs| ensures Uids(gs)[i] != g.uid { assert us[i] == Uids(gs)[i]; }
    assert g.uid !in Uids(kept);
    hide Uids;
    DisjointNoDup(Uids(kept), [g.uid]);
    WholeAppend(kept, [g], n);
  }

  lemma NothingHeld<T>(n: nat)
    ensures RowsOf<T>([]) == [] && NoDup(Uids<T>([])) && Whole<T>([], n)
  {
  }

  /** Fresh groups join those held; kept rows join the rows. */
  lemma HeldGrows<T>(held: seq<Group<T>>, generated: seq<Group<T>>, n: nat)
    requires NoDup(Uids(held)) && Whole(held, n) && NoDup(Uids(generated)) && Whole(generated, n)
    requires forall i :: 0 <= i < |generated| ==> generated[i].uid !in Uids(held)
    ensures var all := held + KeptGroups(generated);
            && NoDup(Uids(all)) && Whole(all, n) && |all| == |held| + |KeptGroups(generated)|
            && RowsOf(all) == RowsOf(held) + RowsOf(KeptGroups(generated))
    ensures held == [] ==> RowsOf(held) + RowsOf(KeptGroups(generated)) == RowsOf(KeptGroups(generated))
  {
    var kg := KeptGroups(generated);
    KeptMember(generated, n);
    RowsOfAppend(held, kg);
    KeptFresh(held, generated, kg);
    hide *;
    UidsAppend(held, kg);
    DisjointNoDup(Uids(held), Uids(kg));
    WholeAppend(held, kg, n);
    NothingHeld<T>(n);
  }

  lemma KeptFresh<T>(held: seq<Group<T>>, generated: seq<Group<T>>, kg: seq<Group<T>>)
    requires forall i :: 0 <= i < |generated| ==> generated[i].uid !in Uids(held)
    requires forall u <- Uids(kg) :: u in Uids(generated)
    ensures forall u <- Uids(kg) :: u !in Uids(held)
  {
    forall u <- Uids(kg) ensures u !in Uids(held) {
      var i :| 0 <= i < |Uids(generated)| && Uids(generated)[i] == u;
      assert generated[i].uid == u;
    }
  }

  lemma UidsAppend<T>(xs: seq<Group<T>>, ys: seq<Group<T>>)
    ensures Uids(xs + ys) == Uids(xs) + Uids(ys)
  {
  }

  lemma WholeAppend<T>(xs: seq<Group<T>>, ys: seq<Group<T>>, n: nat)
    requires Whole(xs, n) && Whole(ys, n)
    ensures Whole(xs + ys, n)
  {
  }

  lemma DisjointNoDup(us: seq<nat>, vs: seq<nat>)
    requires NoDup(us) && NoDup(vs) && forall v <- vs :: v !in us
    ensures NoDup(us + vs)
  {
    forall i, j | 0 <= i < j < |us + vs| ensures (us + vs)[i] != (us + vs)[j] {
      if i < |us| <= j { assert vs[j - |us|] in vs; }
    }
  }
}
