/** The group-relative advantage of outcome rewards. The list collected for a prompt aliases the score
    array that is then overwritten in place. */
module Grpo {
  import opened Variance

  /** Prompt index and score of a response. */
  datatype Row = Row(id: nat, score: real)

  /** The square root is not computed here; it is non-negative, and zero only for zero. */
  datatype Settings = Settings(root: real -> real, epsilon: real, normalize: bool) {
    ghost predicate Valid() {
      epsilon > 0.0 && forall v :: v >= 0.0 ==> root(v) >= 0.0 && (root(v) == 0.0 <==> v == 0.0)
    }
  }

  // ---------- the advantage of a row ----------

  /** The scores with prompt index id, in row order. */
  function Group(rows: seq<Row>, id: nat): seq<real> {
    if rows == [] then []
    else Group(rows[..|rows|-1], id) + if rows[|rows|-1].id == id then [rows[|rows|-1].score] else []
  }

  /** `id2mean`: 0 for a single score. */
  function Center(xs: seq<real>): real { if |xs| <= 1 then 0.0 else Mean(xs) }

  /** `id2std`: the sample deviation, 1 for a single score. */
  function Scale(c: Settings, xs: seq<real>): (r: real) {
    if |xs| <= 1 then 1.0 else c.root(Over(Deviation(xs, Mean(xs)), (|xs| - 1) as real))
  }

  lemma ScaleSign(c: Settings, xs: seq<real>)
    requires c.Valid()
    ensures Scale(c, xs) >= 0.0
    ensures |xs| > 1 ==> (Scale(c, xs) == 0.0 <==> Constant(xs))
  {
    hide Over, Deviation, Mean, Constant;
    if |xs| > 1 {
      DeviationFromMean(xs);
      OverSign(Deviation(xs, Mean(xs)), (|xs| - 1) as real);
    }
  }

  /** What a centred score is divided by. */
  function Divisor(c: Settings, xs: seq<real>): (r: real)
    requires c.Valid()
    ensures r > 0.0
  {
    ScaleSign(c, xs);
    if c.normalize then Scale(c, xs) + c.epsilon else 1.0
  }

  function Advantage(c: Settings, rows: seq<Row>, r: Row): real
    requires c.Valid()
  {
    Over(r.score - Center(Group(rows, r.id)), Divisor(c, Group(rows, r.id)))
  }

  function Advantages(c: Settings, rows: seq<Row>): (r: seq<real>)
    requires c.Valid()
    ensures |r| == |rows| && forall i :: 0 <= i < |r| ==> r[i] == Advantage(c, rows, rows[i])
  {
    seq(|rows|, i requires 0 <= i < |rows| => Advantage(c, rows, rows[i]))
  }

  function Rows(scores: seq<real>, index: seq<nat>): (r: seq<Row>)
    requires |scores| == |index|
    ensures |r| == |scores|
  {
    seq(|scores|, i requires 0 <= i < |scores| => Row(index[i], scores[i]))
  }

  // ---------- the in-place computation ----------

  /** `id2score` holds the positions of the scores: the entries are views of the array. */
  predicate Views(id2score: map<nat, seq<nat>>, rows: seq<Row>, id: nat) {
    && (id in id2score <==> Group(rows, id) != [])
    && (id in id2score ==>
          && |id2score[id]| == |Group(rows, id)|
          && forall k :: 0 <= k < |id2score[id]| ==>
               id2score[id][k] < |rows| && rows[id2score[id][k]].score == Group(rows, id)[k])
  }

  ghost predicate AllViews(id2score: map<nat, seq<nat>>, rows: seq<Row>) { forall id :: Views(id2score, rows, id) }

  lemma ViewsNext(id2score: map<nat, seq<nat>>, rows: seq<Row>, i: nat)
    requires i < |rows| && AllViews(id2score, rows[..i])
    ensures var prev := if rows[i].id in id2score then id2score[rows[i].id] else [];
            AllViews(id2score[rows[i].id := prev + [i]], rows[..i + 1])
  {
    hide Views;
    var prev := if rows[i].id in id2score then id2score[rows[i].id] else [];
    var next, now := id2score[rows[i].id := prev + [i]], rows[..i + 1];
    forall id ensures Views(next, now, id) {
      assert Views(id2score, rows[..i], id);
      GroupNext(rows, i, id);
      if id == rows[i].id { ViewAdded(id2score, rows, i); } else { ViewStays(id2score, next, rows, i, id); }
    }
  }

  lemma GroupNext(rows: seq<Row>, i: nat, id: nat)
    requires i < |rows|
    ensures Group(rows[..i + 1], id) == Group(rows[..i], id) + if rows[i].id == id then [rows[i].score] else []
  {
    assert rows[..i + 1][..i] == rows[..i];
  }

  lemma ViewAdded(id2score: map<nat, seq<nat>>, rows: seq<Row>, i: nat)
    requires i < |rows| && Views(id2score, rows[..i], rows[i].id)
    requires Group(rows[..i + 1], rows[i].id) == Group(rows[..i], rows[i].id) + [rows[i].score]
    ensures var id := rows[i].id; var prev := if id in id2score then id2score[id] else [];
            Views(id2score[id := prev + [i]], rows[..i + 1], id)
  {
    hide Group;
  }

  lemma ViewStays(id2score: map<nat, seq<nat>>, next: map<nat, seq<nat>>, rows: seq<Row>, i: nat, id: nat)
    requires i < |rows| && Views(id2score, rows[..i], id) && Group(rows[..i + 1], id) == Group(rows[..i], id) + []
    requires (id in next <==> id in id2score) && (id in next ==> next[id] == id2score[id])
    ensures Views(next, rows[..i + 1], id)
  {
    hide Group;
  }

  method CollectViews(scores: array<real>, index: seq<nat>) returns (id2score: map<nat, seq<nat>>)
    requires scores.Length == |index|
    ensures AllViews(id2score, Rows(scores[..], index))
  {
    id2score := map[];
    ghost var rows := Rows(scores[..], index);
    for i := 0 to |index|
      invariant AllViews(id2score, rows[..i])
    {
      ViewsNext(id2score, rows, i);
      id2score := id2score[index[i] := (if index[i] in id2score then id2score[index[i]] else []) + [i]];
    }
    assert rows[..|index|] == rows;
  }

  /** Reads the scores of one prompt through its views. */
  method Gather(scores: array<real>, views: seq<nat>) returns (xs: seq<real>)
    requires forall k :: 0 <= k < |views| ==> views[k] < scores.Length
    ensures |xs| == |views| && forall k :: 0 <= k < |views| ==> xs[k] == scores[views[k]]
  {
    xs := [];
    for k := 0 to |views|
      invariant |xs| == k && forall j :: 0 <= j < k ==> xs[j] == scores[views[j]]
    {
      xs := xs + [scores[views[k]]];
    }
  }

  /** `id2mean` and `id2std` of all prompts. */
  ghost predicate Stats(c: Settings, rows: seq<Row>, id2mean: map<nat, real>, id2std: map<nat, real>, ids: set<nat>) {
    && id2mean.Keys == id2std.Keys == ids
    && forall id :: id in ids ==> id2mean[id] == Center(Group(rows, id)) && id2std[id] == Scale(c, Group(rows, id))
  }

  method GroupStats(c: Settings, scores: array<real>, index: seq<nat>, id2score: map<nat, seq<nat>>)
      returns (id2mean: map<nat, real>, id2std: map<nat, real>)
    requires scores.Length == |index| && AllViews(id2score, Rows(scores[..], index))
    ensures Stats(c, Rows(scores[..], index), id2mean, id2std, id2score.Keys)
  {
    ghost var rows := Rows(scores[..], index);
    id2mean, id2std := map[], map[];
    var ids := id2score.Keys;
    while ids != {}
      invariant ids <= id2score.Keys && Stats(c, rows, id2mean, id2std, id2score.Keys - ids)
    {
      var id :| id in ids;
      assert Views(id2score, rows, id);
      var xs := Gather(scores, id2score[id]);
      assert xs == Group(rows, id);
      id2mean, id2std := id2mean[id := Center(xs)], id2std[id := Scale(c, xs)];
      ids := ids - {id};
    }
  }

  /** Overwrites every score with the advantage computed from the scores as they were. */
  method AdvantagesInPlace(c: Settings, scores: array<real>, index: seq<nat>)
    requires c.Valid() && scores.Length == |index|
    modifies scores
    ensures scores[..] == Advantages(c, Rows(old(scores[..]), index))
  {
    hide *;
    ghost var rows := Rows(scores[..], index);
    var id2score := CollectViews(scores, index);
    var id2mean, id2std := GroupStats(c, scores, index, id2score);
    RowsAre(scores[..], index);
    for i := 0 to scores.Length
      invariant forall k :: 0 <= k < i ==> scores[k] == Advantages(c, rows)[k]
      invariant forall k :: i <= k < scores.Length ==> scores[k] == rows[k].score
    {
      StatsOf(c, rows, i, id2score, id2mean, id2std);
      if c.normalize {
        scores[i] := Over(scores[i] - id2mean[index[i]], id2std[index[i]] + c.epsilon);
      } else {
        scores[i] := scores[i] - id2mean[index[i]];
      }
    }
  }

  lemma RowsAre(scores: seq<real>, index: seq<nat>)
    requires |scores| == |index|
    ensures forall i :: 0 <= i < |scores| ==> Rows(scores, index)[i] == Row(index[i], scores[i])
  {
  }

  lemma StatsOf(c: Settings, rows: seq<Row>, i: nat, id2score: map<nat, seq<nat>>, id2mean: map<nat, real>, id2std: map<nat, real>)
    requires c.Valid() && i < |rows| && AllViews(id2score, rows) && Stats(c, rows, id2mean, id2std, id2score.Keys)
    ensures rows[i].id in id2mean && rows[i].id in id2std && id2std[rows[i].id] + c.epsilon > 0.0
    ensures var mean, std := id2mean[rows[i].id], id2std[rows[i].id];
            Advantages(c, rows)[i] == if c.normalize then Over(rows[i].score - mean, std + c.epsilon) else rows[i].score - mean
  {
    hide *;
    StatsHas(c, rows, i, id2score, id2mean, id2std);
    AdvantageOf(c, rows, rows[i]);
  }

  lemma StatsHas(c: Settings, rows: seq<Row>, i: nat, id2score: map<nat, seq<nat>>, id2mean: map<nat, real>, id2std: map<nat, real>)
    requires i < |rows| && AllViews(id2score, rows) && Stats(c, rows, id2mean, id2std, id2score.Keys)
    ensures rows[i].id in id2mean && id2mean[rows[i].id] == Center(Group(rows, rows[i].id))
    ensures rows[i].id in id2std && id2std[rows[i].id] == Scale(c, Group(rows, rows[i].id))
  {
    hide Group, Center, Scale;
    RowHasGroup(rows, i);
    assert Views(id2score, rows, rows[i].id);
    assert rows[i].id in id2score.Keys;
  }

  lemma OverOne(x: real)
    ensures Over(x, 1.0) == x
  {
  }

  lemma AdvantageOf(c: Settings, rows: seq<Row>, r: Row)
    requires c.Valid()
    ensures Scale(c, Group(rows, r.id)) + c.epsilon > 0.0
    ensures var xs := Group(rows, r.id);
            Advantage(c, rows, r) == if c.normalize then Over(r.score - Center(xs), Scale(c, xs) + c.epsilon) else r.score - Center(xs)
  {
    ScaleSign(c, Group(rows, r.id));
    hide Group, Center, Scale, Over;
    OverOne(r.score - Center(Group(rows, r.id)));
  }

  lemma {:induction false} RowHasGroup(rows: seq<Row>, i: nat)
    requires i < |rows|
    ensures rows[i].score in Group(rows, rows[i].id) && Group(rows, rows[i].id) != []
  {
    if i < |rows| - 1 { RowHasGroup(rows[..|rows|-1], i); }
  }

  /** `token_level_rewards.sum(dim=-1)`. */
  function RowSums(rewards: seq<seq<real>>): (r: seq<real>)
    ensures |r| == |rewards| && forall i :: 0 <= i < |r| ==> r[i] == Sum(rewards[i])
  {
    seq(|rewards|, i requires 0 <= i < |rewards| => Sum(rewards[i]))
  }

  /** One value over all tokens of a response, masked. */
  function Tile(a: real, mask: seq<real>): (r: seq<real>)
    ensures |r| == |mask| && forall k :: 0 <= k < |r| ==> r[k] == a * mask[k]
  {
    seq(|mask|, k requires 0 <= k < |mask| => a * mask[k])
  }

  /** Sums the token rewards of each response, turns the sums into advantages in place, and lays each
      over the tokens of its response. */
  method Compute(c: Settings, rewards: seq<seq<real>>, mask: seq<seq<real>>, index: seq<nat>) returns (tokens: seq<seq<real>>)
    requires c.Valid() && |rewards| == |mask| == |index|
    ensures |tokens| == |rewards|
    ensures forall i :: 0 <= i < |rewards| ==> tokens[i] == Tile(Advantages(c, Rows(RowSums(rewards), index))[i], mask[i])
  {
    var sums := RowSums(rewards);
    var scores := new real[|sums|](k requires 0 <= k < |sums| => sums[k]);
    assert scores[..] == sums;
    AdvantagesInPlace(c, scores, index);
    hide *;
    tokens := [];
    for i := 0 to |rewards|
      invariant |tokens| == i && forall k :: 0 <= k < i ==> tokens[k] == Tile(scores[k], mask[k])
    {
      tokens := tokens + [Tile(scores[i], mask[i])];
    }
  }

  // ---------- what the advantages of a group are ----------

  /** The rows with their scores overwritten. */
  function Overwritten(c: Settings, rows: seq<Row>): (r: seq<Row>)
    requires c.Valid()
    ensures |r| == |rows| && forall i :: 0 <= i < |r| ==> r[i] == Row(rows[i].id, Advantages(c, rows)[i])
  {
    seq(|rows|, i requires 0 <= i < |rows| => Row(rows[i].id, Advantages(c, rows)[i]))
  }

  /** The advantages given to the rows of one prompt. */
  function GroupAdvantages(c: Settings, rows: seq<Row>, id: nat): (r: seq<real>)
    requires c.Valid()
  {
    Group(Overwritten(c, rows), id)
  }

  /** Applying a function of the score to all rows of a prompt applies it to its group. */
  lemma {:induction false} GroupMapped(rows: seq<Row>, out: seq<Row>, id: nat, f: real -> real)
    requires |rows| == |out| && forall i :: 0 <= i < |rows| ==> out[i].id == rows[i].id
    requires forall i :: 0 <= i < |rows| && rows[i].id == id ==> out[i].score == f(rows[i].score)
    ensures |Group(out, id)| == |Group(rows, id)|
    ensures forall k :: 0 <= k < |Group(rows, id)| ==> Group(out, id)[k] == f(Group(rows, id)[k])
  {
    if rows != [] { GroupMapped(rows[..|rows|-1], out[..|out|-1], id, f); }
  }

  lemma GroupAdvantagesAre(c: Settings, rows: seq<Row>, id: nat)
    requires c.Valid()
    ensures var xs, ys := Group(rows, id), GroupAdvantages(c, rows, id);
            |ys| == |xs| && forall k :: 0 <= k < |xs| ==> ys[k] == Over(xs[k] - Center(xs), Divisor(c, xs))
  {
    hide Over, Divisor, Center, Group;
    var m, d := Center(Group(rows, id)), Divisor(c, Group(rows, id));
    GroupMapped(rows, Overwritten(c, rows), id, x => Over(x - m, d));
  }

  lemma CenterIsMean(xs: seq<real>)
    requires |xs| >= 2
    ensures Center(xs) == Mean(xs)
  {
  }

  function Centred(xs: seq<real>, m: real): (r: seq<real>)
    ensures |r| == |xs| && forall k :: 0 <= k < |xs| ==> r[k] == xs[k] - m
  {
    seq(|xs|, k requires 0 <= k < |xs| => xs[k] - m)
  }

  lemma CentredSum(xs: seq<real>, ys: seq<real>, d: real)
    requires |xs| == |ys| > 0 && d > 0.0 && forall k :: 0 <= k < |xs| ==> ys[k] == Over(xs[k] - Mean(xs), d)
    ensures Sum(ys) == 0.0
  {
    hide *;
    var zs := Centred(xs, Mean(xs));
    SumCentred(xs, zs);
    SumOver(zs, ys, d);
    OverSign(0.0, d);
  }

  /** The advantages of a prompt with two or more responses sum to zero. */
  lemma AdvantagesSumToZero(c: Settings, rows: seq<Row>, id: nat)
    requires c.Valid() && |Group(rows, id)| >= 2
    ensures Sum(GroupAdvantages(c, rows, id)) == 0.0
  {
    hide *;
    GroupAdvantagesAre(c, rows, id);
    CenterIsMean(Group(rows, id));
    CentredSum(Group(rows, id), GroupAdvantages(c, rows, id), Divisor(c, Group(rows, id)));
  }

  /** The squares of the deviations from m. */
  function Squares(xs: seq<real>, m: real): (r: seq<real>)
    ensures |r| == |xs| && forall k :: 0 <= k < |xs| ==> r[k] == (xs[k] - m) * (xs[k] - m)
  {
    seq(|xs|, k requires 0 <= k < |xs| => (xs[k] - m) * (xs[k] - m))
  }

  lemma {:induction false} DeviationIsSum(xs: seq<real>, m: real)
    ensures Deviation(xs, m) == Sum(Squares(xs, m))
  {
    if xs != [] {
      var n := |xs| - 1;
      DeviationIsSum(xs[..n], m);
      var all, front := Squares(xs, m), Squares(xs[..n], m);
      forall k | 0 <= k < n ensures all[k] == front[k] { assert xs[..n][k] == xs[k]; }
      assert all[..n] == front;
    }
  }

  /** The size of the advantages of a prompt with two or more responses: with their mean m and sample
      variance v, each is the distance of the score from m, measured in units of the root of v. */
  lemma AdvantagesExact(c: Settings, rows: seq<Row>, id: nat) returns (m: real, v: real)
    requires c.Valid() && |Group(rows, id)| >= 2
    ensures var xs := Group(rows, id);
            |xs| as real * m == Sum(xs) && (|xs| - 1) as real * v == Sum(Squares(xs, m))
    ensures forall i :: 0 <= i < |rows| && rows[i].id == id ==>
              Advantages(c, rows)[i] * (if c.normalize then c.root(v) + c.epsilon else 1.0) == rows[i].score - m
  {
    hide *;
    var xs := Group(rows, id);
    m, v := Mean(xs), Over(Deviation(xs, Mean(xs)), (|xs| - 1) as real);
    MeanExact(xs);
    DeviationIsSum(xs, m);
    OverExact(Deviation(xs, m), (|xs| - 1) as real);
    DivisorExact(c, xs);
    CenterIsMean(xs);
    forall i | 0 <= i < |rows| && rows[i].id == id
      ensures Advantages(c, rows)[i] * (if c.normalize then c.root(v) + c.epsilon else 1.0) == rows[i].score - m
    {
      AdvantagesAt(c, rows, i);
      OverExact(rows[i].score - m, Divisor(c, xs));
    }
  }

  lemma MeanExact(xs: seq<real>)
    requires |xs| > 0
    ensures |xs| as real * Mean(xs) == Sum(xs)
  {
    hide Sum;
  }

  lemma OverExact(x: real, d: real)
    requires d != 0.0
    ensures d * Over(x, d) == x == Over(x, d) * d
  {
  }

  lemma DivisorExact(c: Settings, xs: seq<real>)
    requires c.Valid() && |xs| >= 2
    ensures Divisor(c, xs) == if c.normalize then c.root(Over(Deviation(xs, Mean(xs)), (|xs| - 1) as real)) + c.epsilon else 1.0
  {
    hide Mean, Deviation, Over;
  }

  /** A single response is neither centred nor scaled by a deviation. */
  lemma SingleExact(c: Settings, rows: seq<Row>, i: nat)
    requires c.Valid() && i < |rows| && |Group(rows, rows[i].id)| == 1
    ensures Advantages(c, rows)[i] * (if c.normalize then 1.0 + c.epsilon else 1.0) == rows[i].score
  {
    hide Over, Group;
    AdvantagesAt(c, rows, i);
    OverExact(rows[i].score, Divisor(c, Group(rows, rows[i].id)));
  }

  /** A prompt with two or more responses gets no signal exactly if its scores are all the same. */
  lemma NoSignalIffConstant(c: Settings, rows: seq<Row>, id: nat)
    requires c.Valid() && |Group(rows, id)| >= 2
    ensures AllZero(GroupAdvantages(c, rows, id)) <==> Constant(Group(rows, id))
  {
    hide Over, Sum, Divisor, Group, GroupAdvantages, Mean, Constant, Center;
    var xs, ys := Group(rows, id), GroupAdvantages(c, rows, id);
    GroupAdvantagesAre(c, rows, id);
    CenterIsMean(xs);
    forall k | 0 <= k < |xs| ensures ys[k] == 0.0 <==> xs[k] == Mean(xs) { OverSign(xs[k] - Mean(xs), Divisor(c, xs)); }
    ConstantIffMean(xs);
  }

  predicate AllZero(xs: seq<real>) { forall k :: 0 <= k < |xs| ==> xs[k] == 0.0 }

  // ---------- shifting a group, reordering the rows ----------

  /** The same rows, but with k added to the scores of prompt g. */
  predicate Shifted(rows: seq<Row>, shifted: seq<Row>, g: nat, k: real) {
    |shifted| == |rows| && forall i :: 0 <= i < |rows| ==>
      shifted[i].id == rows[i].id && shifted[i].score == rows[i].score + if rows[i].id == g then k else 0.0
  }

  /** Adding a constant to all scores of a prompt changes no advantage, unless the prompt has a single
      response; its advantage changes with every constant but 0. */
  lemma ShiftExact(c: Settings, rows: seq<Row>, shifted: seq<Row>, g: nat, k: real, i: nat)
    requires c.Valid() && Shifted(rows, shifted, g, k) && i < |rows|
    ensures Advantages(c, shifted)[i] == Advantages(c, rows)[i] <==> (rows[i].id == g && |Group(rows, g)| == 1 ==> k == 0.0)
  {
    hide *;
    var id := rows[i].id;
    var delta := if id == g then k else 0.0;
    ShiftedRow(rows, shifted, g, k, i);
    AdvantagesAt(c, rows, i);
    AdvantagesAt(c, shifted, i);
    ShiftValue(c, rows[i].score, delta, Group(rows, id), Group(shifted, id));
  }

  predicate ShiftedBy(xs: seq<real>, ys: seq<real>, delta: real) {
    |ys| == |xs| && forall j :: 0 <= j < |xs| ==> ys[j] == xs[j] + delta
  }

  lemma ShiftedRow(rows: seq<Row>, shifted: seq<Row>, g: nat, k: real, i: nat)
    requires Shifted(rows, shifted, g, k) && i < |rows|
    ensures var id, delta := rows[i].id, if rows[i].id == g then k else 0.0;
            && |shifted| == |rows| && shifted[i] == Row(id, rows[i].score + delta) && |Group(rows, id)| > 0
            && ShiftedBy(Group(rows, id), Group(shifted, id), delta)
  {
    RowHasGroup(rows, i);
    hide Group;
    GroupMapped(rows, shifted, rows[i].id, x => x + if rows[i].id == g then k else 0.0);
  }

  lemma ShiftValue(c: Settings, s: real, delta: real, xs: seq<real>, ys: seq<real>)
    requires c.Valid() && |xs| > 0 && ShiftedBy(xs, ys, delta)
    ensures Over(s + delta - Center(ys), Divisor(c, ys)) == Over(s - Center(xs), Divisor(c, xs)) <==> (|xs| == 1 ==> delta == 0.0)
  {
    assert |ys| == |xs|;
    hide *;
    if |xs| > 1 { StatsShift(c, xs, ys, delta); } else { SingleStats(c, xs, ys); }
    OverEqual(s - Center(xs), s + delta - Center(ys), Divisor(c, xs));
  }

  lemma AdvantagesAt(c: Settings, rows: seq<Row>, i: nat)
    requires c.Valid() && i < |rows|
    ensures var xs := Group(rows, rows[i].id); Advantages(c, rows)[i] == Over(rows[i].score - Center(xs), Divisor(c, xs))
  {
    hide Group, Center, Divisor, Over, Settings.Valid;
  }

  lemma StatsShift(c: Settings, xs: seq<real>, ys: seq<real>, k: real)
    requires c.Valid() && |xs| > 1 && ShiftedBy(xs, ys, k)
    ensures Center(ys) == Center(xs) + k && Divisor(c, ys) == Divisor(c, xs)
  {
    hide Over, Mean, Deviation;
    MeanShift(xs, ys, k);
    DeviationShift(xs, ys, k, Mean(xs));
  }

  lemma SingleStats(c: Settings, xs: seq<real>, ys: seq<real>)
    requires c.Valid() && |xs| == |ys| <= 1
    ensures Center(xs) == Center(ys) == 0.0 && Divisor(c, ys) == Divisor(c, xs)
  {
  }

  lemma OverEqual(x: real, y: real, d: real)
    requires d > 0.0
    ensures Over(x, d) == Over(y, d) <==> x == y
  {
    var z := y - x;
    AddOver(x, z, d);
    OverSign(z, d);
  }

  lemma {:induction false} CountGroup(rows: seq<Row>, id: nat, x: real)
    ensures multiset(Group(rows, id))[x] == multiset(rows)[Row(id, x)]
  {
    if rows != [] {
      CountGroup(rows[..|rows|-1], id, x);
      assert rows == rows[..|rows|-1] + [rows[|rows|-1]];
    }
  }

  /** Reordering the rows reorders the advantages: the advantage of a row depends on the row and on
      which rows there are, not on their order. */
  lemma OrderIrrelevant(c: Settings, rows: seq<Row>, others: seq<Row>, i: nat, j: nat)
    requires c.Valid() && multiset(rows) == multiset(others)
    requires i < |rows| && j < |others| && rows[i] == others[j]
    ensures Advantages(c, rows)[i] == Advantages(c, others)[j]
  {
    var id := rows[i].id;
    var xs, ys := Group(rows, id), Group(others, id);
    forall x ensures multiset(xs)[x] == multiset(ys)[x] {
      CountGroup(rows, id, x);
      CountGroup(others, id, x);
    }
    assert multiset(xs) == multiset(ys);
    hide Group;
    StatsPermuted(c, xs, ys);
    hide Over, Divisor, Center;
  }

  lemma StatsPermuted(c: Settings, xs: seq<real>, ys: seq<real>)
    requires c.Valid() && multiset(xs) == multiset(ys)
    ensures Center(xs) == Center(ys) && Divisor(c, xs) == Divisor(c, ys)
  {
    Permuted(xs, ys, if |xs| > 0 then Mean(xs) else 0.0);
    hide Over, Deviation, Sum;
  }
}
