/** The global layer numbers the merger gives to the layers of the pipeline and virtual pipeline
    chunks, and the state dict it fills under them. A chunk is listed as its merged tensors in key
    order: `suffix` is the name without the layer number, one entry per tensor after splitting. */
module LayerNumbers {
  import opened Wrappers
  import opened Arithmetic

  /** `layer` is the number inside the chunk; None for a tensor outside the layers. */
  datatype Entry<T> = Entry(layer: Option<nat>, suffix: string, tensor: T)

  /** A key of the merged state dict. */
  datatype Key = Key(layer: Option<nat>, suffix: string)

  type Chunk<T> = seq<Entry<T>>

  // ---------- the merger ----------

  function Max(x: nat, y: nat): nat { if x > y then x else y }

  /** `layers_handled` after the chunk: the highest layer number, 0 without any. */
  function Handled<T>(es: Chunk<T>): nat {
    if es == [] then 0
    else
      var n, e := Handled(es[..|es|-1]), es[|es|-1];
      if e.layer.Some? then Max(e.layer.value, n) else n
  }

  /** `layers_cum` before chunk i. */
  function Base<T>(cs: seq<Chunk<T>>, i: nat): nat
    requires i <= |cs|
  {
    if i == 0 then 0 else Base(cs, i - 1) + Handled(cs[i - 1]) + 1
  }

  function KeyOf<T>(e: Entry<T>, base: nat): Key {
    Key(if e.layer.Some? then Some(e.layer.value + base) else None, e.suffix)
  }

  function Filled<T>(d: map<Key, T>, es: Chunk<T>, base: nat): map<Key, T> {
    if es == [] then d
    else Filled(d, es[..|es|-1], base)[KeyOf(es[|es|-1], base) := es[|es|-1].tensor]
  }

  function Merged<T>(cs: seq<Chunk<T>>, n: nat): map<Key, T>
    requires n <= |cs|
  {
    if n == 0 then map[] else Filled(Merged(cs, n - 1), cs[n - 1], Base(cs, n - 1))
  }

  /** The chunks in the order the merger visits them: virtual pipeline rank by virtual pipeline rank. */
  function Visited<T>(lists: seq<seq<Chunk<T>>>, vpp: nat): seq<Chunk<T>>
    requires forall p :: 0 <= p < |lists| ==> vpp <= |lists[p]|
  {
    if vpp == 0 then [] else Visited(lists, vpp - 1) + StageUpTo(lists, vpp - 1, |lists|)
  }

  /** Every pipeline rank holds the same number of virtual stages. */
  predicate Even<T>(lists: seq<seq<Chunk<T>>>) { |lists| > 0 && forall p :: 0 <= p < |lists| ==> |lists[p]| == |lists[0]| }

  function MergedDict<T>(lists: seq<seq<Chunk<T>>>): map<Key, T>
    requires Even(lists)
  {
    var cs := Visited(lists, |lists[0]|);
    Merged(cs, |cs|)
  }

  /** `lists[p][v]` is what pipeline rank p holds of virtual stage v. */
  method MergeStateDicts<T>(lists: seq<seq<Chunk<T>>>) returns (stateDict: map<Key, T>)
    requires Even(lists)
    ensures stateDict == MergedDict(lists)
  {
    hide *;
    stateDict := map[];
    var layersCum := 0;
    MergedNone(lists);
    for v := 0 to |lists[0]|
      invariant MergedTo(lists, v, 0, stateDict, layersCum)
    {
      for p := 0 to |lists|
        invariant MergedTo(lists, v, p, stateDict, layersCum)
      {
        MergedOne(lists, v, p, stateDict, layersCum);
        stateDict, layersCum := MergeChunk(lists[p][v], stateDict, layersCum);
      }
      MergedStage(lists, v, stateDict, layersCum);
    }
    MergedAll(lists, stateDict, layersCum);
  }

  /** The merger has dealt with v virtual stages and, of the next one, with n pipeline ranks. */
  ghost predicate MergedTo<T>(lists: seq<seq<Chunk<T>>>, v: nat, n: nat, d: map<Key, T>, cum: nat) {
    && Even(lists) && v <= |lists[0]| && n <= |lists| && (n > 0 ==> v < |lists[0]|)
    && var done := Visited(lists, v) + if n > 0 then StageUpTo(lists, v, n) else [];
       d == Merged(done, |done|) && cum == Base(done, |done|)
  }

  lemma MergedNone<T>(lists: seq<seq<Chunk<T>>>)
    requires Even(lists)
    ensures |lists| > 0 && MergedTo(lists, 0, 0, map[], 0)
  {
  }

  lemma MergedOne<T>(lists: seq<seq<Chunk<T>>>, v: nat, n: nat, d: map<Key, T>, cum: nat)
    requires MergedTo(lists, v, n, d, cum) && v < |lists[0]| && n < |lists|
    ensures v < |lists[n]| && MergedTo(lists, v, n + 1, Filled(d, lists[n][v], cum), cum + Handled(lists[n][v]) + 1)
  {
    hide Merged, Base, Filled, Handled, Visited;
    MergedNext(Visited(lists, v) + if n > 0 then StageUpTo(lists, v, n) else [], lists[n][v]);
    StageNext(lists, v, n);
  }

  lemma MergedStage<T>(lists: seq<seq<Chunk<T>>>, v: nat, d: map<Key, T>, cum: nat)
    requires MergedTo(lists, v, |lists|, d, cum)
    ensures MergedTo(lists, v + 1, 0, d, cum)
  {
    hide Merged, Base;
    var done := Visited(lists, v) + StageUpTo(lists, v, |lists|);
    assert Visited(lists, v + 1) == done;
    assert done + [] == done;
  }

  lemma MergedAll<T>(lists: seq<seq<Chunk<T>>>, d: map<Key, T>, cum: nat)
    requires Even(lists) && MergedTo(lists, |lists[0]|, 0, d, cum)
    ensures d == MergedDict(lists)
  {
    hide Merged, Base, Visited;
    var done := Visited(lists, |lists[0]|);
    assert done + [] == done;
  }

  /** What the first n pipeline ranks hold of virtual stage v. */
  function StageUpTo<T>(lists: seq<seq<Chunk<T>>>, v: nat, n: nat): (r: seq<Chunk<T>>)
    requires n <= |lists| && forall p :: 0 <= p < |lists| ==> v < |lists[p]|
    ensures |r| == n && forall p :: 0 <= p < n ==> r[p] == lists[p][v]
  {
    seq(n, p requires 0 <= p < n => lists[p][v])
  }

  lemma StageNext<T>(lists: seq<seq<Chunk<T>>>, v: nat, n: nat)
    requires n < |lists| && forall p :: 0 <= p < |lists| ==> v < |lists[p]|
    ensures Visited(lists, v) + StageUpTo(lists, v, n + 1)
         == Visited(lists, v) + (if n > 0 then StageUpTo(lists, v, n) else []) + [lists[n][v]]
  {
    hide Visited;
    assert StageUpTo(lists, v, n + 1) == StageUpTo(lists, v, n) + [lists[n][v]];
    assert n == 0 ==> StageUpTo(lists, v, n) == [];
  }

  method MergeChunk<T>(chunk: Chunk<T>, before: map<Key, T>, layersCum: nat) returns (stateDict: map<Key, T>, cum: nat)
    ensures stateDict == Filled(before, chunk, layersCum) && cum == layersCum + Handled(chunk) + 1
  {
    stateDict := before;
    var layersHandled := 0;
    for k := 0 to |chunk|
      invariant layersHandled == Handled(chunk[..k]) && stateDict == Filled(before, chunk[..k], layersCum)
    {
      assert chunk[..k + 1][..k] == chunk[..k];
      if chunk[k].layer.Some? { layersHandled := Max(chunk[k].layer.value, layersHandled); }
      stateDict := stateDict[KeyOf(chunk[k], layersCum) := chunk[k].tensor];
    }
    assert chunk[..|chunk|] == chunk;
    cum := layersCum + layersHandled + 1;
  }

  lemma {:induction false} SamePrefix<T>(cs: seq<Chunk<T>>, ds: seq<Chunk<T>>, n: nat)
    requires n <= |cs| && n <= |ds| && forall i :: 0 <= i < n ==> cs[i] == ds[i]
    ensures Base(cs, n) == Base(ds, n) && Merged(cs, n) == Merged(ds, n)
  {
    if n > 0 { SamePrefix(cs, ds, n - 1); }
  }

  lemma MergedNext<T>(cs: seq<Chunk<T>>, c: Chunk<T>)
    ensures Merged(cs + [c], |cs| + 1) == Filled(Merged(cs, |cs|), c, Base(cs, |cs|))
    ensures Base(cs + [c], |cs| + 1) == Base(cs, |cs|) + Handled(c) + 1
  {
    hide *;
    var ds := cs + [c];
    SamePrefix(ds, cs, |cs|);
    MergedStep(ds, |cs|);
  }

  lemma MergedStep<T>(cs: seq<Chunk<T>>, n: nat)
    requires n < |cs|
    ensures Merged(cs, n + 1) == Filled(Merged(cs, n), cs[n], Base(cs, n))
    ensures Base(cs, n + 1) == Base(cs, n) + Handled(cs[n]) + 1
  {
    hide Filled, Handled;
  }

  // ---------- nothing is overwritten ----------

  /** A state dict holds a key once. */
  predicate DistinctKeys<T>(es: Chunk<T>) {
    forall j, k :: 0 <= j < k < |es| ==> es[j].layer != es[k].layer || es[j].suffix != es[k].suffix
  }

  predicate AllDistinct<T>(cs: seq<Chunk<T>>) { forall i :: 0 <= i < |cs| ==> DistinctKeys(cs[i]) }

  lemma {:induction false} HandledBounds<T>(es: Chunk<T>, j: nat)
    requires j < |es| && es[j].layer.Some?
    ensures es[j].layer.value <= Handled(es)
  {
    if j < |es| - 1 { HandledBounds(es[..|es|-1], j); }
  }

  lemma {:induction false} BaseGrows<T>(cs: seq<Chunk<T>>, i: nat, k: nat)
    requires i < k <= |cs|
    ensures Base(cs, i) + Handled(cs[i]) + 1 <= Base(cs, k)
  {
    if k > i + 1 { BaseGrows(cs, i, k - 1); }
  }

  /** The layers of an earlier chunk are numbered below those of a later one. */
  lemma NumbersAscend<T>(cs: seq<Chunk<T>>, i: nat, k: nat, x: nat, y: nat)
    requires i < k < |cs| && x < |cs[i]| && y < |cs[k]| && cs[i][x].layer.Some? && cs[k][y].layer.Some?
    ensures KeyOf(cs[i][x], Base(cs, i)).layer.value < KeyOf(cs[k][y], Base(cs, k)).layer.value
  {
    HandledBounds(cs[i], x);
    BaseGrows(cs, i, k);
  }

  predicate Gives<T>(es: Chunk<T>, base: nat, x: Key) { exists j :: 0 <= j < |es| && KeyOf(es[j], base) == x }

  lemma {:induction false} FilledHas<T>(d: map<Key, T>, es: Chunk<T>, base: nat, x: Key)
    requires DistinctKeys(es)
    ensures x in Filled(d, es, base) <==> x in d || Gives(es, base, x)
    ensures !Gives(es, base, x) && x in d ==> Filled(d, es, base)[x] == d[x]
    ensures forall j :: 0 <= j < |es| && KeyOf(es[j], base) == x ==> x in Filled(d, es, base) && Filled(d, es, base)[x] == es[j].tensor
  {
    if es != [] {
      var init := es[..|es|-1];
      assert DistinctKeys(init);
      FilledHas(d, init, base, x);
      assert forall j :: 0 <= j < |init| ==> init[j] == es[j];
      if KeyOf(es[|es|-1], base) == x { assert !Gives(init, base, x); }
      assert Gives(es, base, x) <==> Gives(init, base, x) || KeyOf(es[|es|-1], base) == x;
    }
  }

  /** Every merged layer tensor is in the merged dict, under its global number: none overwrites
      another. */
  lemma {:induction false} NothingOverwritten<T>(cs: seq<Chunk<T>>, n: nat, i: nat, j: nat)
    requires AllDistinct(cs) && i < n <= |cs| && j < |cs[i]| && cs[i][j].layer.Some?
    ensures var e := cs[i][j]; var x := Key(Some(e.layer.value + Base(cs, i)), e.suffix);
            x in Merged(cs, n) && Merged(cs, n)[x] == e.tensor
  {
    var x := KeyOf(cs[i][j], Base(cs, i));
    FilledHas(Merged(cs, n - 1), cs[n - 1], Base(cs, n - 1), x);
    if i < n - 1 {
      NothingOverwritten(cs, n - 1, i, j);
      if Gives(cs[n - 1], Base(cs, n - 1), x) {
        var y :| 0 <= y < |cs[n - 1]| && KeyOf(cs[n - 1][y], Base(cs, n - 1)) == x;
        NumbersAscend(cs, i, n - 1, j, y);
      }
    }
  }

  /** And nothing else is in it. */
  lemma {:induction false} NothingElse<T>(cs: seq<Chunk<T>>, n: nat, x: Key)
    requires AllDistinct(cs) && n <= |cs| && x in Merged(cs, n)
    ensures exists i :: 0 <= i < n && Gives(cs[i], Base(cs, i), x)
    ensures exists i, j :: 0 <= i < n && 0 <= j < |cs[i]| && x.suffix == cs[i][j].suffix && (x.layer.None? <==> cs[i][j].layer.None?)
  {
    FilledHas(Merged(cs, n - 1), cs[n - 1], Base(cs, n - 1), x);
    if !Gives(cs[n - 1], Base(cs, n - 1), x) { NothingElse(cs, n - 1, x); } else { GivesFrom(cs[n - 1], Base(cs, n - 1), x); }
  }

  lemma GivesFrom<T>(es: Chunk<T>, base: nat, x: Key)
    requires Gives(es, base, x)
    ensures exists j :: 0 <= j < |es| && x.suffix == es[j].suffix && (x.layer.None? <==> es[j].layer.None?)
  {
  }

  // ---------- the numbers are 0..L-1 ----------

  /** The chunk holds exactly the local layers 0..k-1. */
  predicate Holds<T>(es: Chunk<T>, k: nat) {
    && DistinctKeys(es)
    && (forall j :: 0 <= j < |es| && es[j].layer.Some? ==> es[j].layer.value < k)
    && (forall l :: 0 <= l < k ==> HasLayer(es, l))
  }

  predicate HasLayer<T>(es: Chunk<T>, l: nat) { exists j :: 0 <= j < |es| && es[j].layer == Some(l) }

  predicate Counted<T>(cs: seq<Chunk<T>>, ks: seq<nat>) {
    |ks| == |cs| && forall i :: 0 <= i < |cs| ==> Holds(cs[i], ks[i])
  }

  function Sum(ks: seq<nat>, n: nat): nat
    requires n <= |ks|
  {
    if n == 0 then 0 else Sum(ks, n - 1) + ks[n - 1]
  }

  /** Global number l is used. */
  predicate Used<T>(cs: seq<Chunk<T>>, l: nat) {
    exists i :: 0 <= i < |cs| && UsedBy(cs, i, l)
  }

  predicate UsedBy<T>(cs: seq<Chunk<T>>, i: nat, l: nat)
    requires i < |cs|
  {
    Base(cs, i) <= l && HasLayer(cs[i], l - Base(cs, i))
  }

  lemma HandledOf<T>(es: Chunk<T>, k: nat)
    requires Holds(es, k)
    ensures Handled(es) + 1 == Max(k, 1)
  {
    HandledReached(es);
    if k > 0 {
      assert HasLayer(es, k - 1);
      var j :| 0 <= j < |es| && es[j].layer == Some(k - 1);
      HandledBounds(es, j);
    }
  }

  lemma {:induction false} HandledReached<T>(es: Chunk<T>)
    ensures Handled(es) == 0 || exists j :: 0 <= j < |es| && es[j].layer == Some(Handled(es))
  {
    if es != [] {
      var init := es[..|es|-1];
      HandledReached(init);
      if Handled(es) != 0 && Handled(es) == Handled(init) {
        var j :| 0 <= j < |init| && init[j].layer == Some(Handled(init));
        assert es[j].layer == Some(Handled(es));
      }
    }
  }

  lemma UsedRange<T>(cs: seq<Chunk<T>>, ks: seq<nat>, i: nat, l: nat)
    requires Counted(cs, ks) && i < |cs|
    ensures UsedBy(cs, i, l) <==> Base(cs, i) <= l < Base(cs, i) + ks[i]
  {
    assert Holds(cs[i], ks[i]);
    if Base(cs, i) <= l && l - Base(cs, i) < ks[i] { assert HasLayer(cs[i], l - Base(cs, i)); }
  }

  /** No chunk without layers comes before one with layers. */
  predicate NoGap(ks: seq<nat>) { forall i, k :: 0 <= i < k < |ks| && ks[k] > 0 ==> ks[i] > 0 }

  lemma {:induction false} BaseIsSum<T>(cs: seq<Chunk<T>>, ks: seq<nat>, n: nat)
    requires Counted(cs, ks) && n <= |cs|
    ensures Base(cs, n) >= Sum(ks, n)
    ensures (forall i :: 0 <= i < n ==> ks[i] > 0) <==> Base(cs, n) == Sum(ks, n)
  {
    if n > 0 {
      BaseIsSum(cs, ks, n - 1);
      HandledOf(cs[n - 1], ks[n - 1]);
    }
  }

  lemma {:induction false} SumGrows(ks: seq<nat>, i: nat, n: nat)
    requires i < n <= |ks|
    ensures Sum(ks, i) + ks[i] <= Sum(ks, n)
  {
    if i < n - 1 { SumGrows(ks, i, n - 1); }
  }

  /** Every l below the total lies in one chunk's share. */
  lemma {:induction false} InSomeShare(ks: seq<nat>, n: nat, l: nat)
    requires n <= |ks| && l < Sum(ks, n)
    ensures exists i :: 0 <= i < n && Sum(ks, i) <= l < Sum(ks, i) + ks[i]
  {
    if l < Sum(ks, n - 1) { InSomeShare(ks, n - 1, l); } else { assert Sum(ks, n - 1) <= l; }
  }

  /** The merged layer numbers are exactly 0..L-1, L the number of layers, if and only if no chunk
      without layers comes before one with layers. */
  lemma NumbersExact<T>(cs: seq<Chunk<T>>, ks: seq<nat>)
    requires Counted(cs, ks)
    ensures (forall l: nat :: Used(cs, l) <==> l < Sum(ks, |ks|)) <==> NoGap(ks)
  {
    if NoGap(ks) {
      forall l: nat ensures Used(cs, l) <==> l < Sum(ks, |ks|) { NoGapNumbers(cs, ks, l); }
    } else {
      var i, k :| 0 <= i < k < |ks| && ks[k] > 0 && ks[i] == 0;
      var last := LastWithLayers(ks, k);
      GapNumber(cs, ks, last, i);
    }
  }

  function LastWithLayers(ks: seq<nat>, k: nat): (r: nat)
    requires k < |ks| && ks[k] > 0
    ensures k <= r < |ks| && ks[r] > 0 && forall i :: r < i < |ks| ==> ks[i] == 0
    decreases |ks| - k
  {
    if j :| k < j < |ks| && ks[j] > 0 then LastWithLayers(ks, j) else k
  }

  lemma NoGapNumbers<T>(cs: seq<Chunk<T>>, ks: seq<nat>, l: nat)
    requires Counted(cs, ks) && NoGap(ks)
    ensures Used(cs, l) <==> l < Sum(ks, |ks|)
  {
    if Used(cs, l) {
      var i :| 0 <= i < |cs| && UsedBy(cs, i, l);
      UsedRange(cs, ks, i, l);
      BaseIsSum(cs, ks, i);
      SumGrows(ks, i, |ks|);
    }
    if l < Sum(ks, |ks|) {
      InSomeShare(ks, |ks|, l);
      var i :| 0 <= i < |ks| && Sum(ks, i) <= l < Sum(ks, i) + ks[i];
      BaseIsSum(cs, ks, i);
      UsedRange(cs, ks, i, l);
    }
  }

  lemma {:induction false} TrailingSum(ks: seq<nat>, i: nat, n: nat)
    requires i < n <= |ks| && forall j :: i < j < n ==> ks[j] == 0
    ensures Sum(ks, n) == Sum(ks, i) + ks[i]
  {
    if i < n - 1 { TrailingSum(ks, i, n - 1); }
  }

  /** After a gap the last number used is past the end. */
  lemma GapNumber<T>(cs: seq<Chunk<T>>, ks: seq<nat>, last: nat, gap: nat)
    requires Counted(cs, ks) && gap < last < |ks| && ks[gap] == 0 && ks[last] > 0
    requires forall j :: last < j < |ks| ==> ks[j] == 0
    ensures exists l: nat :: Used(cs, l) && l >= Sum(ks, |ks|)
  {
    BaseIsSum(cs, ks, last);
    TrailingSum(ks, last, |ks|);
    var l := Base(cs, last) + ks[last] - 1;
    UsedRange(cs, ks, last, l);
    assert Used(cs, l);
  }

  /** Without gaps a layer's global number is the number of layers before it in visiting order. */
  lemma NumbersInOrder<T>(cs: seq<Chunk<T>>, ks: seq<nat>, i: nat, j: nat)
    requires Counted(cs, ks) && NoGap(ks) && i < |cs| && j < |cs[i]| && cs[i][j].layer.Some?
    ensures KeyOf(cs[i][j], Base(cs, i)).layer == Some(Sum(ks, i) + cs[i][j].layer.value)
  {
    assert Holds(cs[i], ks[i]);
    BaseIsSum(cs, ks, i);
  }

  // ---------- from the lists of the pipeline ranks ----------

  /** The place of virtual stage v of pipeline rank p among n ranks. */
  function StagePlace(v: nat, n: nat, p: nat): nat { v * n + p }

  /** The chunks are visited stage by stage, in each stage rank by rank. */
  lemma {:induction false} VisitedAt<T>(lists: seq<seq<Chunk<T>>>, vpp: nat, v: nat, p: nat)
    requires (forall q :: 0 <= q < |lists| ==> vpp <= |lists[q]|) && v < vpp && p < |lists|
    ensures |Visited(lists, vpp)| == StagePlace(vpp, |lists|, 0)
    ensures StagePlace(v, |lists|, p) < |Visited(lists, vpp)| && Visited(lists, vpp)[StagePlace(v, |lists|, p)] == lists[p][v]
  {
    hide *;
    VisitedLength(lists, vpp - 1);
    VisitedLast(lists, vpp, p);
    StageEnd(v, vpp - 1, |lists|, p);
    if v < vpp - 1 { VisitedAt(lists, vpp - 1, v, p); }
  }

  lemma VisitedLast<T>(lists: seq<seq<Chunk<T>>>, vpp: nat, p: nat)
    requires (forall q :: 0 <= q < |lists| ==> vpp <= |lists[q]|) && vpp > 0 && p < |lists|
    ensures var front := Visited(lists, vpp - 1);
            && |Visited(lists, vpp)| == |front| + |lists| && front <= Visited(lists, vpp)
            && Visited(lists, vpp)[|front| + p] == lists[p][vpp - 1]
  {
    var stage := StageUpTo(lists, vpp - 1, |lists|);
    assert Visited(lists, vpp) == Visited(lists, vpp - 1) + stage && stage[p] == lists[p][vpp - 1];
  }

  lemma StageEnd(v: nat, w: nat, n: nat, p: nat)
    requires v <= w && p < n
    ensures StagePlace(w + 1, n, 0) == StagePlace(w, n, 0) + n
    ensures StagePlace(v, n, p) < StagePlace(w + 1, n, 0)
    ensures if v < w then StagePlace(v, n, p) < StagePlace(w, n, 0) else StagePlace(v, n, p) == StagePlace(w, n, 0) + p
  {
    assert (w + 1) * n == w * n + n && (v + 1) * n == v * n + n;
    if v < w { MulMonotone(v + 1, w, n); }
  }

  lemma {:induction false} VisitedLength<T>(lists: seq<seq<Chunk<T>>>, vpp: nat)
    requires forall q :: 0 <= q < |lists| ==> vpp <= |lists[q]|
    ensures |Visited(lists, vpp)| == StagePlace(vpp, |lists|, 0)
  {
    if vpp > 0 {
      VisitedLength(lists, vpp - 1);
      assert vpp * |lists| == (vpp - 1) * |lists| + |lists|;
    }
  }

  /** All chunks hold the local layers 0..k-1. */
  predicate AllHold<T>(cs: seq<Chunk<T>>, k: nat) { forall i :: 0 <= i < |cs| ==> Holds(cs[i], k) }

  function Product(i: nat, k: nat): nat { i * k }

  lemma {:induction false} EvenBase<T>(cs: seq<Chunk<T>>, k: nat, n: nat)
    requires AllHold(cs, k) && k > 0 && n <= |cs|
    ensures Base(cs, n) == Product(n, k)
  {
    if n > 0 {
      EvenBase(cs, k, n - 1);
      HandledOf(cs[n - 1], k);
      assert n * k == (n - 1) * k + k;
    }
  }

  /** With k layers in every chunk, layer l of virtual stage v of pipeline rank p of n gets the number
      (v * n + p) * k + l, under which the merged dict holds its tensors. */
  lemma InterleavedNumbers<T>(lists: seq<seq<Chunk<T>>>, k: nat, v: nat, p: nat, j: nat)
    requires Even(lists) && k > 0 && (forall q, u :: 0 <= q < |lists| && 0 <= u < |lists[q]| ==> Holds(lists[q][u], k))
    requires p < |lists| && v < |lists[p]| && j < |lists[p][v]| && lists[p][v][j].layer.Some?
    ensures var e := lists[p][v][j]; var x := Key(Some((v * |lists| + p) * k + e.layer.value), e.suffix);
            x in MergedDict(lists) && MergedDict(lists)[x] == e.tensor
  {
    var vpp := |lists[0]|;
    var cs := Visited(lists, vpp);
    VisitedHold(lists, k, vpp);
    VisitedAt(lists, vpp, v, p);
    var i := StagePlace(v, |lists|, p);
    hide Visited, Base, Merged, Holds;
    EvenBase(cs, k, i);
    HoldsDistinct(cs, k);
    NothingOverwritten(cs, |cs|, i, j);
  }

  lemma HoldsDistinct<T>(cs: seq<Chunk<T>>, k: nat)
    requires AllHold(cs, k)
    ensures AllDistinct(cs)
  {
    hide DistinctKeys, HasLayer;
    forall i | 0 <= i < |cs| ensures DistinctKeys(cs[i]) { assert Holds(cs[i], k); }
  }

  lemma {:induction false} VisitedHold<T>(lists: seq<seq<Chunk<T>>>, k: nat, vpp: nat)
    requires (forall q :: 0 <= q < |lists| ==> vpp <= |lists[q]|)
    requires forall q, u :: 0 <= q < |lists| && 0 <= u < |lists[q]| ==> Holds(lists[q][u], k)
    ensures AllHold(Visited(lists, vpp), k)
  {
    hide Holds;
    if vpp > 0 { VisitedHold(lists, k, vpp - 1); }
  }
}
