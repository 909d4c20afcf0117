/** What every run of the rejection-sampling loop guarantees, over any number of rounds. */
module RejectionLaws {
  import opened Sequences
  import opened Variance
  import opened GroupFilter
  import opened RejectionSampling

  /** A batch made of trainBatchSize prompts, each with all n trajectories and a metric that is not
      constant over them; said of the rows alone. */
  predicate WellFormedBatch<T>(c: Settings, b: seq<Traj<T>>) {
    && |b| == Position(c.trainBatchSize, c.n, 0) && |Firsts(b)| == c.trainBatchSize
    && forall i :: 0 <= i < |b| ==> WholeAndVaried(c, b, b[i].uid)
  }

  predicate WholeAndVaried<T>(c: Settings, b: seq<Traj<T>>, uid: nat) {
    |ValsOf(b, uid)| == c.n && !Constant(ValsOf(b, uid))
  }

  predicate AllVaried<T>(gs: seq<Group<T>>) { forall i :: 0 <= i < |gs| ==> !Constant(Metrics(gs[i])) }

  /** Distinct whole prompt groups worth training on. */
  predicate Good<T>(gs: seq<Group<T>>, n: nat) { NoDup(Uids(gs)) && Whole(gs, n) && AllVaried(gs) }

  lemma {:induction false} RowsMember<T>(gs: seq<Group<T>>, r: Traj<T>)
    requires r in RowsOf(gs)
    ensures exists i :: 0 <= i < |gs| && gs[i].uid == r.uid
  {
    var m := |gs| - 1;
    if r in RowsOf(gs[..m]) {
      RowsMember(gs[..m], r);
      var i :| 0 <= i < m && gs[..m][i].uid == r.uid;
      assert gs[i].uid == r.uid;
    } else {
      assert r in RowsOfGroup(gs[m]);
    }
  }

  lemma GoodBatch<T>(c: Settings, gs: seq<Group<T>>)
    requires c.n > 0 && Good(gs, c.n) && |gs| == c.trainBatchSize
    ensures WellFormedBatch(c, RowsOf(gs))
  {
    RowsCount(gs, c.n);
    FirstsOfGroups(gs, c.n);
    forall k | 0 <= k < |RowsOf(gs)| ensures WholeAndVaried(c, RowsOf(gs), RowsOf(gs)[k].uid) {
      var r := RowsOf(gs)[k];
      RowsMember(gs, r);
      var i :| 0 <= i < |gs| && gs[i].uid == r.uid;
      ValsOfGroup(gs, i);
    }
  }

  // ---------- the invariant of runs ----------

  /** All groups trained on and held, in order. */
  function Seen<T>(r: Run<T>): seq<Group<T>> { Flatten(r.trained) + r.held.groups }

  predicate RunGood<T>(c: Settings, r: Run<T>) {
    && Good(Seen(r), c.n)
    && (forall i :: 0 <= i < |r.trained| ==> |r.trained[i]| == c.trainBatchSize)
    && (r.held.groups != [] ==> |r.held.groups| < c.trainBatchSize)
    && (c.maxNumGenBatches > 0 ==> r.held.rounds < c.maxNumGenBatches || (r.raised && r.held.rounds == c.maxNumGenBatches))
    && (r.raised ==> |r.held.groups| < c.trainBatchSize && c.maxNumGenBatches > 0)
  }

  lemma GoodSlice<T>(x: seq<Group<T>>, y: seq<Group<T>>, z: seq<Group<T>>, n: nat)
    requires Good(x + y + z, n)
    ensures Good(x + y, n) && Good(y, n)
  {
    var all := x + y + z;
    forall i | 0 <= i < |x + y| ensures all[i] == (x + y)[i] { }
    forall i | 0 <= i < |y| ensures all[|x| + i] == y[i] { }
    forall i, j | 0 <= i < j < |y| ensures Uids(y)[i] != Uids(y)[j] {
      assert Uids(all)[|x| + i] != Uids(all)[|x| + j];
    }
    forall i, j | 0 <= i < j < |x + y| ensures Uids(x + y)[i] != Uids(x + y)[j] {
      assert Uids(all)[i] != Uids(all)[j];
    }
  }

  lemma GoodJoin<T>(x: seq<Group<T>>, y: seq<Group<T>>, n: nat)
    requires Good(x, n) && Good(y, n) && forall u <- Uids(y) :: u !in Uids(x)
    ensures Good(x + y, n)
  {
    UidsAppend(x, y);
    DisjointNoDup(Uids(x), Uids(y));
  }

  lemma GoodPrefix<T>(x: seq<Group<T>>, y: seq<Group<T>>, n: nat)
    requires Good(y, n) && x <= y
    ensures Good(x, n)
  {
    forall i | 0 <= i < |x| ensures y[i] == x[i] && Uids(y)[i] == Uids(x)[i] { }
  }

  function After<T>(c: Settings, r: Run<T>, generated: seq<Group<T>>): Run<T> {
    var (h, o) := Next(c, r.held, generated);
    Run(if o.Train? then r.trained + [o.groups] else r.trained, h, o.TooMany?)
  }

  /** What a round adds to the groups seen is part of what the filter kept. */
  lemma SeenNext<T>(c: Settings, r: Run<T>, generated: seq<Group<T>>)
    requires c.filterGroups
    ensures Seen(After(c, r, generated)) <= Seen(r) + KeptGroups(generated)
  {
    var all, kg := r.held.groups + KeptGroups(generated), KeptGroups(generated);
    Assoc(Flatten(r.trained), r.held.groups, kg);
    hide KeptGroups, Flatten;
    if |all| >= c.trainBatchSize {
      var now, rest := all[..c.trainBatchSize], all[c.trainBatchSize..];
      assert all == now + rest;
      Assoc(Flatten(r.trained), now, rest);
      FlattenSnoc(r.trained, now);
      assert Flatten(r.trained + [now]) + [] == Flatten(r.trained) + now;
    }
  }

  /** One round keeps the invariant. */
  lemma NextGood<T>(c: Settings, r: Run<T>, generated: seq<Group<T>>)
    requires c.filterGroups && !r.raised && RunGood(c, r)
    requires NoDup(Uids(generated)) && Whole(generated, c.n) && forall u <- Uids(generated) :: u !in Uids(Seen(r))
    ensures RunGood(c, After(c, r, generated))
  {
    hide Good, KeptGroups, NoDup, Uids, Whole, Seen;
    NextSeen(c, r, generated);
  }

  lemma NextSeen<T>(c: Settings, r: Run<T>, generated: seq<Group<T>>)
    requires c.filterGroups && Good(Seen(r), c.n)
    requires NoDup(Uids(generated)) && Whole(generated, c.n) && forall u <- Uids(generated) :: u !in Uids(Seen(r))
    ensures Good(Seen(After(c, r, generated)), c.n)
  {
    hide *;
    var kg := KeptGroups(generated);
    KeptMember(generated, c.n);
    KeptGood(kg, c.n);
    SeenNext(c, r, generated);
    GoodJoin(Seen(r), kg, c.n);
    GoodPrefix(Seen(After(c, r, generated)), Seen(r) + kg, c.n);
  }

  lemma KeptGood<T>(kg: seq<Group<T>>, n: nat)
    requires NoDup(Uids(kg)) && Whole(kg, n) && forall g <- kg :: !Constant(Metrics(g))
    ensures Good(kg, n)
  {
    assert forall i :: 0 <= i < |kg| ==> kg[i] in kg;
  }

  /** After k rounds: the invariant, and every uid seen was drawn in one of them. */
  predicate GoodAfter<T>(c: Settings, data: seq<Generated<T>>, k: nat)
    requires AllShaped(data, c.n) && k <= |data|
  {
    var r := RunOf(c, GroupsOf(data[..k], c.n)); RunGood(c, r) && UidsFrom(Seen(r), data[..k])
  }

  lemma {:induction false} RunIsGood<T>(c: Settings, data: seq<Generated<T>>, k: nat)
    requires c.n > 0 && c.filterGroups && Fresh(data) && AllShaped(data, c.n) && k <= |data|
    ensures GoodAfter(c, data, k)
  {
    hide *;
    if k == 0 {
      GoodStart(c, data);
    } else {
      RunIsGood(c, data, k - 1);
      GoodNext(c, data, k - 1);
    }
  }

  lemma GoodStart<T>(c: Settings, data: seq<Generated<T>>)
    requires AllShaped(data, c.n)
    ensures GoodAfter(c, data, 0)
  {
    NothingHeld<T>(c.n);
  }

  lemma GoodNext<T>(c: Settings, data: seq<Generated<T>>, k: nat)
    requires c.n > 0 && c.filterGroups && Fresh(data) && AllShaped(data, c.n) && k < |data| && GoodAfter(c, data, k)
    ensures GoodAfter(c, data, k + 1)
  {
    hide RunGood, Fresh, GroupsOf, UidsFrom, RunOf, Next, PromptGroups, Seen, Shaped;
    RunTurn(c, data, k);
    RunNext(c, data, k, RunOf(c, GroupsOf(data[..k], c.n)));
  }

  lemma RunNext<T>(c: Settings, data: seq<Generated<T>>, k: nat, r: Run<T>)
    requires c.n > 0 && c.filterGroups && Fresh(data) && AllShaped(data, c.n) && k < |data|
    requires RunGood(c, r) && UidsFrom(Seen(r), data[..k])
    ensures var r' := if r.raised then r else After(c, r, PromptGroups(data[k].uids, data[k].outs, c.n));
            RunGood(c, r') && UidsFrom(Seen(r'), data[..k + 1])
  {
    var generated := PromptGroups(data[k].uids, data[k].outs, c.n);
    UidsFromMore(Seen(r), data, k);
    NewBatchIsGroups(data[k].uids, data[k].outs, c.n);
    assert Uids(generated) == data[k].uids && Shaped(data[k], c.n);
    HeldFresh(data, k, Seen(r));
    KeptMember(generated, c.n);
    if !r.raised {
      hide *;
      NextGood(c, r, generated);
      UidsFromNew(KeptGroups(generated), data, k);
      SeenNext(c, r, generated);
      UidsFromPrefix(After(c, r, generated), Seen(r), KeptGroups(generated), data[..k + 1]);
    }
  }

  lemma UidsFromPrefix<T>(r: Run<T>, x: seq<Group<T>>, y: seq<Group<T>>, data: seq<Generated<T>>)
    requires UidsFrom(x, data) && UidsFrom(y, data) && Seen(r) <= x + y
    ensures UidsFrom(Seen(r), data)
  {
    forall i | 0 <= i < |Seen(r)| ensures DrawnIn(data, Seen(r)[i].uid) {
      assert Seen(r)[i] == (x + y)[i];
    }
  }

  // ---------- what follows ----------

  lemma TrainedIsGood<T>(c: Settings, r: Run<T>, i: nat)
    requires RunGood(c, r) && i < |r.trained|
    ensures Good(r.trained[i], c.n) && |r.trained[i]| == c.trainBatchSize
  {
    var x, y, z := r.trained[..i], r.trained[i], r.trained[i + 1..];
    assert r.trained == x + [y] + z;
    FlattenAppend(x + [y], z);
    FlattenSnoc(x, y);
    Assoc(Flatten(x) + y, Flatten(z), r.held.groups);
    assert Good(Seen(r), c.n);
    hide Good, Flatten;
    GoodSlice(Flatten(x), y, Flatten(z) + r.held.groups, c.n);
  }

  /** Every batch that leaves the filter is well formed, whatever was generated in however many rounds. */
  lemma TrainedBatches<T>(c: Settings, data: seq<Generated<T>>, batches: seq<seq<Traj<T>>>, i: nat)
    requires c.n > 0 && c.filterGroups && Fresh(data) && AllShaped(data, c.n)
    requires TrainedRows(batches, RunOf(c, GroupsOf(data, c.n)).trained) && i < |batches|
    ensures WellFormedBatch(c, batches[i])
  {
    var r := RunOf(c, GroupsOf(data, c.n));
    RunIsGood(c, data, |data|);
    assert data[..|data|] == data;
    TrainedIsGood(c, r, i);
    GoodBatch(c, r.trained[i]);
  }

  /** No prompt is trained on twice, or trained on and still held. */
  lemma NoPromptTwice<T>(c: Settings, data: seq<Generated<T>>)
    requires c.n > 0 && c.filterGroups && Fresh(data) && AllShaped(data, c.n)
    ensures var r := RunOf(c, GroupsOf(data, c.n)); NoDup(Uids(Flatten(r.trained) + r.held.groups))
  {
    RunIsGood(c, data, |data|);
    assert data[..|data|] == data;
  }

  lemma {:induction false} KeptGroupsAppend<T>(xs: seq<Group<T>>, ys: seq<Group<T>>)
    ensures KeptGroups(xs + ys) == KeptGroups(xs) + KeptGroups(ys)
  {
    if ys == [] {
      assert xs + ys == xs && KeptGroups(xs) + [] == KeptGroups(xs);
    } else {
      var init, last := ys[..|ys|-1], ys[|ys|-1];
      KeptGroupsAppend(xs, init);
      assert (xs + ys)[..|xs + ys|-1] == xs + init;
      hide Constant;
      Assoc(KeptGroups(xs), KeptGroups(init), if !Constant(Metrics(last)) then [last] else []);
    }
  }

  /** How many rounds were over at the last training step, 0 before the first. */
  function LastTrained<T>(c: Settings, rounds: seq<seq<Group<T>>>): (k: nat)
    ensures k <= |rounds|
  {
    if rounds == [] then 0
    else
      var before := rounds[..|rounds|-1];
      var r := RunOf(c, before);
      if !r.raised && Next(c, r.held, rounds[|rounds|-1]).1.Train? then |rounds| else LastTrained(c, before)
  }

  /** The groups kept in the rounds since the last training step. */
  function KeptSince<T>(c: Settings, rounds: seq<seq<Group<T>>>): seq<Group<T>> {
    KeptGroups(Flatten(rounds[LastTrained(c, rounds)..]))
  }

  lemma KeptMore<T>(rounds: seq<seq<Group<T>>>, from: nat, round: seq<Group<T>>)
    requires from <= |rounds|
    ensures KeptGroups(Flatten((rounds + [round])[from..])) == KeptGroups(Flatten(rounds[from..])) + KeptGroups(round)
  {
    hide *;
    assert (rounds + [round])[from..] == rounds[from..] + [round];
    FlattenSnoc(rounds[from..], round);
    KeptGroupsAppend(Flatten(rounds[from..]), round);
  }

  lemma NothingSince<T>(rounds: seq<seq<Group<T>>>)
    ensures KeptGroups(Flatten(rounds[|rounds|..])) == []
  {
    assert rounds[|rounds|..] == [];
  }

  /** Nothing that varies is lost: what is held is all that was kept since the last training step. */
  lemma {:induction false} HeldIsAllKept<T>(c: Settings, rounds: seq<seq<Group<T>>>)
    requires c.filterGroups
    ensures var r, kept := RunOf(c, rounds), KeptSince(c, rounds);
            if r.raised then r.held.groups <= kept else r.held == Held(kept, |rounds| - LastTrained(c, rounds))
    decreases |rounds|
  {
    if rounds == [] {
      NothingSince<T>([]);
    } else {
      var before, round := rounds[..|rounds|-1], rounds[|rounds|-1];
      HeldIsAllKept(c, before);
      assert rounds == before + [round];
      hide *;
      var last := LastTrained(c, before);
      OneRound(c, before, round);
      KeptMore(before, last, round);
      NothingSince(rounds);
      KeptSinceIs(c, before);
      KeptSinceIs(c, rounds);
      if !RunOf(c, before).raised { NextHolds(c, RunOf(c, before).held, round); }
    }
  }

  lemma KeptSinceIs<T>(c: Settings, rounds: seq<seq<Group<T>>>)
    ensures KeptSince(c, rounds) == KeptGroups(Flatten(rounds[LastTrained(c, rounds)..]))
  {
  }

  lemma OneRound<T>(c: Settings, before: seq<seq<Group<T>>>, round: seq<Group<T>>)
    ensures var r, r', last := RunOf(c, before), RunOf(c, before + [round]), LastTrained(c, before + [round]);
            if r.raised then r' == r && last == LastTrained(c, before)
            else
              var (h, o) := Next(c, r.held, round);
              && r' == Run(if o.Train? then r.trained + [o.groups] else r.trained, h, o.TooMany?)
              && last == if o.Train? then |before| + 1 else LastTrained(c, before)
  {
    assert (before + [round])[..|before|] == before;
    hide Next;
  }

  lemma NextHolds<T>(c: Settings, h: Held<T>, round: seq<Group<T>>)
    requires c.filterGroups
    ensures var (h', o) := Next(c, h, round);
            if o.Train? then h' == Held([], 0) && !o.TooMany? else h' == Held(h.groups + KeptGroups(round), h.rounds + 1)
  {
    hide KeptGroups;
  }

  /** A round leads to a training step exactly if enough was kept since the last one, and the batch is
      the beginning of that. */
  lemma BatchIsAllKept<T>(c: Settings, rounds: seq<seq<Group<T>>>, round: seq<Group<T>>)
    requires c.filterGroups && !RunOf(c, rounds).raised
    ensures var r, kept := RunOf(c, rounds), KeptSince(c, rounds) + KeptGroups(round);
            RunOf(c, rounds + [round]).trained
            == if |kept| >= c.trainBatchSize then r.trained + [kept[..c.trainBatchSize]] else r.trained
  {
    HeldIsAllKept(c, rounds);
    assert (rounds + [round])[..|rounds|] == rounds && (rounds + [round])[|rounds|] == round;
    hide KeptGroups, KeptSince, LastTrained;
  }

  /** The loop raises exactly in the round that reaches the limit of rounds since the last training
      step with too few prompts held; without a limit it never does. */
  lemma RaisesAtLimit<T>(c: Settings, data: seq<Generated<T>>, k: nat)
    requires c.n > 0 && c.filterGroups && Fresh(data) && AllShaped(data, c.n) && k < |data|
    requires !RunOf(c, GroupsOf(data[..k], c.n)).raised
    ensures var r, kept := RunOf(c, GroupsOf(data[..k], c.n)), KeptGroups(GroupsOf(data, c.n)[k]);
            RunOf(c, GroupsOf(data[..k + 1], c.n)).raised <==>
              c.maxNumGenBatches > 0 && r.held.rounds + 1 == c.maxNumGenBatches && |r.held.groups| + |kept| < c.trainBatchSize
  {
    RunTurn(c, data, k);
    RunIsGood(c, data, k);
    assert Shaped(data[k], c.n);
  }

  /** Without the filter every round is trained on as it was generated, nothing is held and nothing raised. */
  lemma {:induction false} WithoutFilter<T>(c: Settings, rounds: seq<seq<Group<T>>>)
    requires !c.filterGroups
    ensures RunOf(c, rounds) == Run(rounds, Held([], 0), false)
    decreases |rounds|
  {
    hide *;
    if rounds == [] {
      NoRounds<T>(c);
    } else {
      var before, round := rounds[..|rounds|-1], rounds[|rounds|-1];
      assert rounds == before + [round];
      WithoutFilter(c, before);
      OneRound(c, before, round);
      NextUnfiltered(c, RunOf(c, before).held, round);
    }
  }

  lemma NoRounds<T>(c: Settings)
    ensures RunOf<T>(c, []) == Run([], Held([], 0), false)
  {
  }

  lemma NextUnfiltered<T>(c: Settings, h: Held<T>, round: seq<Group<T>>)
    requires !c.filterGroups
    ensures Next(c, h, round) == (Held([], 0), Train(round))
  {
  }

  /** A prompt with a single trajectory never varies: with n = 1 nothing is ever trained on. */
  lemma SingleNeverVaries<T>(gs: seq<Group<T>>)
    requires Whole(gs, 1)
    ensures KeptGroups(gs) == []
  {
    if gs != [] {
      assert |Metrics(gs[|gs|-1])| == 1;
      SingleNeverVaries(gs[..|gs|-1]);
    }
  }
}
