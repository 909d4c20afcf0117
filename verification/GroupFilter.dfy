/** The filter of the rejection-sampling loop: of a generated batch, the trajectories of those prompts
    stay whose metric is not constant over the prompt's trajectories. */
module GroupFilter {
  import opened Sequences
  import opened Variance

  /** What generation returns for one trajectory; `metric` is the value the filter looks at. */
  datatype Output<T> = Output(metric: real, content: T)

  datatype Traj<T> = Traj(uid: nat, out: Output<T>)

  /** One prompt with its trajectories. */
  datatype Group<T> = Group(uid: nat, outs: seq<Output<T>>)

  // ---------- the filter ----------

  /** `prompt_uid2metric_vals[uid]`. */
  function ValsOf<T>(rows: seq<Traj<T>>, uid: nat): seq<real> {
    if rows == [] then []
    else ValsOf(rows[..|rows|-1], uid) + if rows[|rows|-1].uid == uid then [rows[|rows|-1].out.metric] else []
  }

  /** `std > 0`. */
  predicate Spread(xs: seq<real>) { |xs| > 0 && Over(Deviation(xs, Mean(xs)), |xs| as real) > 0.0 }

  lemma SpreadIffVaried(xs: seq<real>)
    ensures Spread(xs) <==> !Constant(xs)
  {
    if |xs| > 0 {
      DeviationFromMean(xs);
      OverSign(Deviation(xs, Mean(xs)), |xs| as real);
    }
  }

  function Kept<T>(rows: seq<Traj<T>>, all: seq<Traj<T>>): seq<Traj<T>> {
    if rows == [] then []
    else Kept(rows[..|rows|-1], all) + if Spread(ValsOf(all, rows[|rows|-1].uid)) then [rows[|rows|-1]] else []
  }

  predicate NoDup(us: seq<nat>) { forall i, j :: 0 <= i < j < |us| ==> us[i] != us[j] }

  /** The uids in the order in which they first appear. */
  function Firsts<T>(rows: seq<Traj<T>>): seq<nat> {
    if rows == [] then []
    else
      var us, u := Firsts(rows[..|rows|-1]), rows[|rows|-1].uid;
      if u in us then us else us + [u]
  }

  function KeptUids<T>(us: seq<nat>, all: seq<Traj<T>>): seq<nat> {
    if us == [] then []
    else KeptUids(us[..|us|-1], all) + if Spread(ValsOf(all, us[|us|-1])) then [us[|us|-1]] else []
  }

  method GroupMetrics<T>(rows: seq<Traj<T>>) returns (vals: map<nat, seq<real>>, order: seq<nat>)
    ensures order == Firsts(rows) && Grouped(vals, order, rows)
  {
    vals, order := map[], [];
    for k := 0 to |rows|
      invariant order == Firsts(rows[..k]) && Grouped(vals, order, rows[..k])
    {
      assert rows[..k + 1][..k] == rows[..k] && rows[..k] + [rows[k]] == rows[..k + 1];
      var u := rows[k].uid;
      GroupedNext(vals, order, rows[..k], rows[k]);
      if u in vals {
        vals := vals[u := vals[u] + [rows[k].out.metric]];
      } else {
        vals, order := vals[u := [rows[k].out.metric]], order + [u];
      }
    }
    assert rows[..|rows|] == rows;
  }

  method KeepUids<T>(rows: seq<Traj<T>>, vals: map<nat, seq<real>>, order: seq<nat>) returns (keptUids: seq<nat>)
    requires Grouped(vals, order, rows)
    ensures keptUids == KeptUids(order, rows)
  {
    keptUids := [];
    for k := 0 to |order|
      invariant keptUids == KeptUids(order[..k], rows)
    {
      assert order[..k + 1][..k] == order[..k] && order[k] in order;
      if Spread(vals[order[k]]) { keptUids := keptUids + [order[k]]; }
    }
    assert order[..|order|] == order;
  }

  method SelectRows<T>(rows: seq<Traj<T>>, keptUids: seq<nat>) returns (kept: seq<Traj<T>>)
    requires keptUids == KeptUids(Firsts(rows), rows)
    ensures kept == Kept(rows, rows)
  {
    KeptUidsMember(Firsts(rows), rows);
    FirstsMember(rows);
    hide KeptUids, Firsts, Spread;
    kept := [];
    for k := 0 to |rows|
      invariant kept == Kept(rows[..k], rows)
    {
      assert rows[..k + 1][..k] == rows[..k] && rows[k] in rows;
      if rows[k].uid in keptUids { kept := kept + [rows[k]]; }
    }
    assert rows[..|rows|] == rows;
  }

  method FilterGroups<T>(rows: seq<Traj<T>>) returns (kept: seq<Traj<T>>, numKept: nat)
    ensures kept == Kept(rows, rows) && numKept == |KeptUids(Firsts(rows), rows)|
  {
    var vals, order := GroupMetrics(rows);
    var keptUids := KeepUids(rows, vals, order);
    kept := SelectRows(rows, keptUids);
    numKept := |keptUids|;
  }

  /** The dict holds the metrics of every uid seen, under keys in order of appearance. */
  ghost predicate Grouped<T>(vals: map<nat, seq<real>>, order: seq<nat>, rows: seq<Traj<T>>) {
    && NoDup(order)
    && (forall u :: u in vals <==> u in order)
    && (forall u :: u !in vals ==> ValsOf(rows, u) == [])
    && (forall u :: u in vals ==> vals[u] == ValsOf(rows, u))
  }

  lemma GroupedNext<T>(vals: map<nat, seq<real>>, order: seq<nat>, rows: seq<Traj<T>>, r: Traj<T>)
    requires Grouped(vals, order, rows)
    ensures var u := r.uid;
            if u in vals then Grouped(vals[u := vals[u] + [r.out.metric]], order, rows + [r])
            else Grouped(vals[u := [r.out.metric]], order + [u], rows + [r])
  {
    assert (rows + [r])[..|rows|] == rows;
  }

  lemma {:induction false} KeptUidsMember<T>(us: seq<nat>, all: seq<Traj<T>>)
    ensures forall u :: u in KeptUids(us, all) <==> u in us && Spread(ValsOf(all, u))
  {
    if us != [] {
      var last := us[|us|-1];
      KeptUidsMember(us[..|us|-1], all);
      assert us == us[..|us|-1] + [last];
      hide Spread, ValsOf;
      assert forall u :: u in us <==> u in us[..|us|-1] || u == last;
    }
  }

  lemma {:induction false} FirstsMember<T>(rows: seq<Traj<T>>)
    ensures forall r <- rows :: r.uid in Firsts(rows)
  {
    if rows != [] {
      FirstsMember(rows[..|rows|-1]);
      assert forall r <- rows :: r in rows[..|rows|-1] || r == rows[|rows|-1];
    }
  }

  // ---------- whole prompt groups ----------

  function RowsOfGroup<T>(g: Group<T>): (r: seq<Traj<T>>)
    ensures |r| == |g.outs|
  {
    seq(|g.outs|, i requires 0 <= i < |g.outs| => Traj(g.uid, g.outs[i]))
  }

  function Metrics<T>(g: Group<T>): (r: seq<real>)
    ensures |r| == |g.outs|
  {
    seq(|g.outs|, i requires 0 <= i < |g.outs| => g.outs[i].metric)
  }

  function RowsOf<T>(gs: seq<Group<T>>): seq<Traj<T>> {
    if gs == [] then [] else RowsOf(gs[..|gs|-1]) + RowsOfGroup(gs[|gs|-1])
  }

  function Uids<T>(gs: seq<Group<T>>): (r: seq<nat>)
    ensures |r| == |gs| && forall i :: 0 <= i < |r| ==> r[i] == gs[i].uid
  {
    seq(|gs|, i requires 0 <= i < |gs| => gs[i].uid)
  }

  /** Every prompt has n trajectories. */
  predicate Whole<T>(gs: seq<Group<T>>, n: nat) { forall i :: 0 <= i < |gs| ==> |gs[i].outs| == n }

  function KeptGroups<T>(gs: seq<Group<T>>): seq<Group<T>> {
    if gs == [] then []
    else KeptGroups(gs[..|gs|-1]) + if !Constant(Metrics(gs[|gs|-1])) then [gs[|gs|-1]] else []
  }

  lemma {:induction false} ValsOfAppend<T>(xs: seq<Traj<T>>, ys: seq<Traj<T>>, u: nat)
    ensures ValsOf(xs + ys, u) == ValsOf(xs, u) + ValsOf(ys, u)
  {
    if ys == [] {
      assert xs + ys == xs;
    } else {
      ValsOfAppend(xs, ys[..|ys|-1], u);
      assert (xs + ys)[..|xs + ys|-1] == xs + ys[..|ys|-1];
    }
  }

  lemma {:induction false} ValsOfSame<T>(rows: seq<Traj<T>>, u: nat, v: nat)
    requires forall i :: 0 <= i < |rows| ==> rows[i].uid == v
    ensures |ValsOf(rows, u)| == if u == v then |rows| else 0
    ensures u == v ==> forall i :: 0 <= i < |rows| ==> ValsOf(rows, u)[i] == rows[i].out.metric
  {
    if rows != [] { ValsOfSame(rows[..|rows|-1], u, v); }
  }

  lemma {:induction false} ValsAbsent<T>(gs: seq<Group<T>>, u: nat)
    requires u !in Uids(gs)
    ensures ValsOf(RowsOf(gs), u) == []
  {
    if gs != [] {
      var n := |gs| - 1;
      assert Uids(gs[..n]) == Uids(gs)[..n] && Uids(gs)[n] in Uids(gs);
      ValsAbsent(gs[..n], u);
      ValsOfAppend(RowsOf(gs[..n]), RowsOfGroup(gs[n]), u);
      ValsOfSame(RowsOfGroup(gs[n]), u, gs[n].uid);
    }
  }

  /** A uid's metrics are those of its group. */
  lemma {:induction false} ValsOfGroup<T>(gs: seq<Group<T>>, i: nat)
    requires NoDup(Uids(gs)) && i < |gs|
    ensures ValsOf(RowsOf(gs), gs[i].uid) == Metrics(gs[i])
  {
    var n, u := |gs| - 1, gs[i].uid;
    UidsPrefix(gs);
    ValsOfAppend(RowsOf(gs[..n]), RowsOfGroup(gs[n]), u);
    ValsOfSame(RowsOfGroup(gs[n]), u, gs[n].uid);
    assert Uids(gs)[i] == u && Uids(gs)[n] == gs[n].uid;
    if i < n {
      ValsOfGroup(gs[..n], i);
    } else {
      ValsAbsent(gs[..n], u);
      OneGroup(gs[n]);
    }
  }

  lemma OneGroup<T>(g: Group<T>)
    ensures ValsOf(RowsOfGroup(g), g.uid) == Metrics(g)
  {
    ValsOfSame(RowsOfGroup(g), g.uid, g.uid);
  }

  lemma UidsPrefix<T>(gs: seq<Group<T>>)
    requires gs != [] && NoDup(Uids(gs))
    ensures Uids(gs[..|gs|-1]) == Uids(gs)[..|gs|-1] && NoDup(Uids(gs[..|gs|-1]))
  {
  }

  lemma {:induction false} KeptAppend<T>(xs: seq<Traj<T>>, ys: seq<Traj<T>>, all: seq<Traj<T>>)
    ensures Kept(xs + ys, all) == Kept(xs, all) + Kept(ys, all)
  {
    if ys == [] {
      assert xs + ys == xs;
    } else {
      var init, last := ys[..|ys|-1], ys[|ys|-1];
      KeptAppend(xs, init, all);
      hide *;
      assert ys == init + [last] && xs + ys == (xs + init) + [last];
      KeptSnoc(xs + init, last, all);
      KeptSnoc(init, last, all);
      Assoc(Kept(xs, all), Kept(init, all), Kept([last], all));
    }
  }

  lemma KeptSnoc<T>(rows: seq<Traj<T>>, r: Traj<T>, all: seq<Traj<T>>)
    ensures Kept(rows + [r], all) == Kept(rows, all) + Kept([r], all)
  {
    assert (rows + [r])[..|rows|] == rows && [r][..0] == [];
  }

  lemma {:induction false} KeptSame<T>(rows: seq<Traj<T>>, all: seq<Traj<T>>, u: nat)
    requires forall i :: 0 <= i < |rows| ==> rows[i].uid == u
    ensures Kept(rows, all) == if Spread(ValsOf(all, u)) then rows else []
  {
    if rows != [] { KeptSame(rows[..|rows|-1], all, u); }
  }

  /** A trajectory is kept, as often as it is there, exactly if the metric of its prompt varies. */
  lemma {:induction false} KeptRowExact<T>(rows: seq<Traj<T>>, all: seq<Traj<T>>, r: Traj<T>)
    ensures multiset(Kept(rows, all))[r] == if Constant(ValsOf(all, r.uid)) then 0 else multiset(rows)[r]
  {
    hide Constant, ValsOf, Spread;
    if rows != [] {
      var init, last := rows[..|rows|-1], rows[|rows|-1];
      KeptRowExact(init, all, r);
      SpreadIffVaried(ValsOf(all, last.uid));
      assert rows == init + [last];
    }
  }

  /** A group is kept, as often as it is there, exactly if its metric varies. */
  lemma {:induction false} KeptGroupExact<T>(gs: seq<Group<T>>, g: Group<T>)
    ensures multiset(KeptGroups(gs))[g] == if Constant(Metrics(g)) then 0 else multiset(gs)[g]
  {
    hide Constant;
    if gs != [] {
      var init, last := gs[..|gs|-1], gs[|gs|-1];
      KeptGroupExact(init, g);
      assert gs == init + [last];
    }
  }

  /** On whole groups the filter keeps or drops groups as a whole. */
  lemma {:induction false} KeptIsGroups<T>(gs: seq<Group<T>>, all: seq<Group<T>>)
    requires gs <= all && NoDup(Uids(all))
    ensures Kept(RowsOf(gs), RowsOf(all)) == RowsOf(KeptGroups(gs))
  {
    if gs != [] {
      var n := |gs| - 1;
      KeptIsGroups(gs[..n], all);
      KeptAppend(RowsOf(gs[..n]), RowsOfGroup(gs[n]), RowsOf(all));
      KeptSame(RowsOfGroup(gs[n]), RowsOf(all), gs[n].uid);
      assert all[n] == gs[n];
      ValsOfGroup(all, n);
      SpreadIffVaried(Metrics(gs[n]));
      hide Spread, Constant, ValsOf, Kept;
      RowsOfSnoc(KeptGroups(gs[..n]), gs[n]);
      assert KeptGroups(gs[..n]) + [] == KeptGroups(gs[..n]);
    }
  }

  lemma RowsOfSnoc<T>(gs: seq<Group<T>>, g: Group<T>)
    ensures RowsOf(gs + [g]) == RowsOf(gs) + RowsOfGroup(g)
  {
    assert (gs + [g])[..|gs|] == gs;
  }

  lemma {:induction false} FirstsAppend<T>(xs: seq<Traj<T>>, ys: seq<Traj<T>>, u: nat)
    requires ys != [] && u !in Firsts(xs) && forall i :: 0 <= i < |ys| ==> ys[i].uid == u
    ensures Firsts(xs + ys) == Firsts(xs) + [u]
  {
    var zs := xs + ys;
    assert zs[..|zs|-1] == xs + ys[..|ys|-1];
    if |ys| > 1 { FirstsAppend(xs, ys[..|ys|-1], u); } else { assert xs + ys[..0] == xs; }
  }

  lemma {:induction false} FirstsOfGroups<T>(gs: seq<Group<T>>, n: nat)
    requires NoDup(Uids(gs)) && Whole(gs, n) && n > 0
    ensures Firsts(RowsOf(gs)) == Uids(gs)
  {
    if gs != [] {
      var k := |gs| - 1;
      UidsPrefix(gs);
      FirstsOfGroups(gs[..k], n);
      FirstsAppend(RowsOf(gs[..k]), RowsOfGroup(gs[k]), gs[k].uid);
      assert Uids(gs) == Uids(gs)[..k] + [gs[k].uid];
    }
  }

  lemma {:induction false} KeptUidsOfGroups<T>(gs: seq<Group<T>>, all: seq<Group<T>>)
    requires gs <= all && NoDup(Uids(all))
    ensures KeptUids(Uids(gs), RowsOf(all)) == Uids(KeptGroups(gs))
  {
    if gs != [] {
      var n := |gs| - 1;
      assert Uids(gs)[..n] == Uids(gs[..n]);
      KeptUidsOfGroups(gs[..n], all);
      assert all[n] == gs[n];
      ValsOfGroup(all, n);
      SpreadIffVaried(Metrics(gs[n]));
      hide Spread, Constant, ValsOf, RowsOf;
      assert Uids(KeptGroups(gs[..n]) + [gs[n]]) == Uids(KeptGroups(gs[..n])) + [gs[n].uid];
    }
  }

  /** The filter on the rows of n-fold prompt groups: the rows of the groups with a varying metric,
      and their number. */
  lemma FilterOfGroups<T>(gs: seq<Group<T>>, n: nat)
    requires NoDup(Uids(gs)) && Whole(gs, n) && n > 0
    ensures Kept(RowsOf(gs), RowsOf(gs)) == RowsOf(KeptGroups(gs))
    ensures |KeptUids(Firsts(RowsOf(gs)), RowsOf(gs))| == |KeptGroups(gs)|
  {
    KeptIsGroups(gs, gs);
    FirstsOfGroups(gs, n);
    KeptUidsOfGroups(gs, gs);
  }
}
