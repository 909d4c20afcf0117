/** Merging undoes interleaving and contiguous row sharding: when it does, and that it does. */
module TensorMergeLaws {
  import opened Wrappers
  import opened Arithmetic
  import opened Sequences
  import opened TensorMerge

  // ---------- shards, chunk by chunk ----------

  lemma {:induction false} PiecesOfJoined<T>(pss: seq<seq<seq<T>>>, n: nat, size: nat)
    requires n > 0 && size > 0 && Uniform(pss, n) && forall i :: 0 <= i < |pss| ==> Uniform(pss[i], size)
    ensures Pieces(JoinEach(pss), n) == Flatten(pss)
    decreases |pss|
  {
    if pss != [] {
      var init, last := pss[..|pss|-1], pss[|pss|-1];
      PiecesOfJoined(init, n, size);
      assert JoinEach(pss)[..|pss|-1] == JoinEach(init);
      FlattenSnoc(init, last);
      assert pss == init + [last];
      FlattenUniform(last, size);
      ChunkEven(Flatten(last), n, size);
      CutFlatten(last, size);
    }
  }

  /** The equal chunks of equal contiguous shards are the equal pieces of the whole. */
  lemma PiecesOfShards<T>(rows: seq<T>, tp: nat, n: nat, size: nat)
    requires tp > 0 && n > 0 && size > 0 && |rows| == tp * n * size
    ensures Pieces(TorchChunk(rows, tp), n) == Cut(rows, size)
  {
    MulMonotone(1, tp, n);
    CutUniform(rows, size, tp * n);
    CutJoins(rows, size);
    hide *;
    var pss := Regroup(Cut(rows, size), tp, n, size);
    PiecesOfJoined(pss, n, size);
    FlattenTwice(pss);
    ShardsOfJoined(rows, pss, tp, n, size);
  }

  /** Lists of n pieces each. */
  lemma Regroup<T>(ps: seq<seq<T>>, tp: nat, n: nat, size: nat) returns (pss: seq<seq<seq<T>>>)
    requires tp > 0 && n > 0 && |ps| == tp * n && Uniform(ps, size)
    ensures |pss| == tp && Uniform(pss, n) && Flatten(pss) == ps
    ensures forall i :: 0 <= i < |pss| ==> Uniform(pss[i], size)
  {
    pss := Cut(ps, n);
    CutUniform(ps, n, tp);
    CutJoins(ps, n);
    PiecesUniform(ps, n, tp, size);
  }

  lemma ShardsOfJoined<T>(rows: seq<T>, pss: seq<seq<seq<T>>>, tp: nat, n: nat, size: nat)
    requires tp > 0 && n > 0 && size > 0 && |pss| == tp && Uniform(pss, n)
    requires forall i :: 0 <= i < |pss| ==> Uniform(pss[i], size)
    requires Flatten(JoinEach(pss)) == rows
    ensures TorchChunk(rows, tp) == JoinEach(pss)
  {
    JoinedUniform(pss, n, size);
    MulMonotone(1, n, size);
    CutFlatten(JoinEach(pss), n * size);
    FlattenUniform(JoinEach(pss), n * size);
    ChunkEven(rows, tp, n * size);
  }

  lemma PiecesUniform<T>(ps: seq<seq<T>>, n: nat, count: nat, size: nat)
    requires n > 0 && |ps| == count * n && Uniform(ps, size)
    ensures forall i :: 0 <= i < |Cut(ps, n)| ==> Uniform(Cut(ps, n)[i], size)
  {
    forall i, j | 0 <= i < |Cut(ps, n)| && 0 <= j < |Cut(ps, n)[i]| ensures |Cut(ps, n)[i][j]| == size {
      if count > 0 {
        CutUniform(ps, n, count);
        CutAt(ps, n, count, i, j);
      }
    }
  }

  lemma JoinedUniform<T>(pss: seq<seq<seq<T>>>, n: nat, size: nat)
    requires Uniform(pss, n) && forall i :: 0 <= i < |pss| ==> Uniform(pss[i], size)
    ensures Uniform(JoinEach(pss), n * size)
  {
    forall i | 0 <= i < |pss| ensures |JoinEach(pss)[i]| == n * size { FlattenUniform(pss[i], size); }
  }

  // ---------- the two directions ----------

  /** `heads` query heads in `kvHeads` groups, each head `dim` rows. */
  predicate Model(heads: nat, kvHeads: nat, dim: nat) {
    kvHeads > 0 && heads > 0 && heads % kvHeads == 0 && dim > 0
  }

  /** Query rows of a group, all rows of a group, all rows of the fused weight. */
  function QueryRows(heads: nat, kvHeads: nat, dim: nat): nat
    requires kvHeads > 0
  {
    heads / kvHeads * dim
  }

  function GroupRows(heads: nat, kvHeads: nat, dim: nat): nat
    requires kvHeads > 0
  {
    QueryRows(heads, kvHeads, dim) + dim + dim
  }

  function FusedRows(heads: nat, kvHeads: nat, dim: nat): nat
    requires kvHeads > 0
  {
    kvHeads * GroupRows(heads, kvHeads, dim)
  }

  predicate Fused<T>(w: Qkv<T>, heads: nat, kvHeads: nat, dim: nat) {
    |w.q| == heads * dim && |w.k| == |w.v| == kvHeads * dim
  }

  lemma ModelRows(heads: nat, kvHeads: nat, dim: nat)
    requires Model(heads, kvHeads, dim)
    ensures heads / kvHeads > 0 && QueryRows(heads, kvHeads, dim) > 0
    ensures heads == kvHeads * (heads / kvHeads) && heads * dim == kvHeads * QueryRows(heads, kvHeads, dim)
    ensures GroupRows(heads, kvHeads, dim) == (heads / kvHeads + 2) * dim
  {
    var m := heads / kvHeads;
    DivMod(heads, kvHeads);
    if m <= 0 { MulMonotone(m, 0, kvHeads); }
    assert heads * dim == kvHeads * m * dim == kvHeads * (m * dim);
    MulMonotone(1, m, dim);
  }

  lemma ShapedIf<T>(w: Qkv<T>, n: nat, a: nat, b: nat)
    requires n > 0 && a > 0 && b > 0 && |w.q| == n * a && |w.k| == |w.v| == n * b
    ensures Shaped(w, n) && |w.q| / n == a && |w.k| / n == b
  {
    DivUnique(n * a, n, a, 0);
    DivUnique(n * b, n, b, 0);
    MulMonotone(1, a, n);
    MulMonotone(1, b, n);
  }

  lemma FusedShaped<T>(w: Qkv<T>, heads: nat, kvHeads: nat, dim: nat)
    requires Model(heads, kvHeads, dim) && Fused(w, heads, kvHeads, dim)
    ensures Shaped(w, kvHeads) && |w.q| / kvHeads == QueryRows(heads, kvHeads, dim) && |w.k| / kvHeads == dim
  {
    ModelRows(heads, kvHeads, dim);
    ShapedIf(w, kvHeads, QueryRows(heads, kvHeads, dim), dim);
  }

  /** Splitting the query groups gives back queries, keys and values. */
  lemma SplitGroups<T>(w: Qkv<T>, kvHeads: nat)
    requires Shaped(w, kvHeads)
    ensures SplitPieces(QueryGroups(w, kvHeads), |w.q| / kvHeads, |w.k| / kvHeads) == Some(w)
  {
    ShapedViews(w, kvHeads);
    SplitJoined(View(w.q, kvHeads), View(w.k, kvHeads), View(w.v, kvHeads), QueryGroups(w, kvHeads), |w.q| / kvHeads, |w.k| / kvHeads);
  }

  lemma SplitJoined<T>(qs: seq<seq<T>>, ks: seq<seq<T>>, vs: seq<seq<T>>, gs: seq<seq<T>>, a: nat, b: nat)
    requires |qs| == |ks| == |vs| == |gs| && Uniform(qs, a) && Uniform(ks, b) && Uniform(vs, b)
    requires forall i :: 0 <= i < |gs| ==> gs[i] == qs[i] + ks[i] + vs[i]
    ensures SplitPieces(gs, a, b) == Some(Qkv(Flatten(qs), Flatten(ks), Flatten(vs)))
  {
    hide Flatten;
    forall i | 0 <= i < |gs|
      ensures |gs[i]| == a + b + b && gs[i][0..a] == qs[i] && gs[i][a..a + b] == ks[i] && gs[i][a + b..a + b + b] == vs[i]
    {
      SplitOne(qs[i], ks[i], vs[i]);
    }
    assert Columns(gs, 0, a) == qs && Columns(gs, a, a + b) == ks && Columns(gs, a + b, a + b + b) == vs;
  }

  lemma SplitOne<T>(q: seq<T>, k: seq<T>, v: seq<T>)
    requires |k| == |v|
    ensures var g := q + k + v;
            g[0..|q|] == q && g[|q|..|q| + |k|] == k && g[|q| + |k|..|q| + |k| + |k|] == v
  {
  }

  // ---------- merging undoes converting and sharding ----------

  lemma SizesExact(heads: nat, kvHeads: nat, dim: nat, tp: nat)
    requires Model(heads, kvHeads, dim) && tp > 0 && kvHeads % tp == 0
    ensures var g := kvHeads / tp;
            && g > 0 && FusedRows(heads, kvHeads, dim) == tp * g * GroupRows(heads, kvHeads, dim)
            && SizesFor(g * GroupRows(heads, kvHeads, dim), heads, kvHeads, tp) == Some(Sizes(g, QueryRows(heads, kvHeads, dim), dim))
  {
    var m, g := heads / kvHeads, kvHeads / tp;
    ModelRows(heads, kvHeads, dim);
    DivMod(kvHeads, tp);
    if g <= 0 { MulMonotone(g, 0, tp); }
    assert g * ((m + 2) * dim) == g * dim * (m + 2);
    DivUnique(g * ((m + 2) * dim), m + 2, g * dim, 0);
    assert g * dim * m == m * dim * g;
    DivUnique(g * dim * m, g, m * dim, 0);
    assert g * dim == dim * g;
    DivUnique(g * dim, g, dim, 0);
  }

  /** Shards of a fused weight of the right size, merged: its query groups, split. */
  lemma MergedIsSplit<T>(rows: seq<T>, heads: nat, kvHeads: nat, dim: nat, tp: nat)
    requires Model(heads, kvHeads, dim) && tp > 0 && kvHeads % tp == 0 && |rows| == FusedRows(heads, kvHeads, dim)
    ensures |TorchChunk(rows, tp)| == tp && GroupRows(heads, kvHeads, dim) > 0
    ensures Merged(TorchChunk(rows, tp), heads, kvHeads)
         == SplitPieces(Cut(rows, GroupRows(heads, kvHeads, dim)), QueryRows(heads, kvHeads, dim), dim)
  {
    SizesExact(heads, kvHeads, dim, tp);
    var size, g := GroupRows(heads, kvHeads, dim), kvHeads / tp;
    assert size > 0;
    hide *;
    PiecesOfShards(rows, tp, g, size);
    ShardLength(rows, tp, g, size);
    UseSizes(TorchChunk(rows, tp), heads, kvHeads, Sizes(g, QueryRows(heads, kvHeads, dim), dim));
  }

  lemma ShardLength<T>(rows: seq<T>, tp: nat, n: nat, size: nat)
    requires tp > 0 && n > 0 && size > 0 && |rows| == tp * n * size
    ensures |TorchChunk(rows, tp)| == tp && |TorchChunk(rows, tp)[0]| == n * size
  {
    assert tp * n * size == tp * (n * size);
    MulMonotone(1, n, size);
    ChunkEven(rows, tp, n * size);
  }

  lemma UseSizes<T>(shards: seq<seq<T>>, heads: nat, kvHeads: nat, z: Sizes)
    requires |shards| > 0 && z.groups > 0 && SizesFor(|shards[0]|, heads, kvHeads, |shards|) == Some(z)
    ensures Merged(shards, heads, kvHeads) == SplitPieces(Pieces(shards, z.groups), z.a, z.b)
  {
  }

  lemma InterleaveSize<T>(w: Qkv<T>, heads: nat, kvHeads: nat, dim: nat)
    requires Model(heads, kvHeads, dim) && Fused(w, heads, kvHeads, dim)
    ensures Shaped(w, kvHeads) && |w.k| / kvHeads == dim && |w.q| / kvHeads == QueryRows(heads, kvHeads, dim)
    ensures |Interleave(w, kvHeads)| == FusedRows(heads, kvHeads, dim) && GroupRows(heads, kvHeads, dim) > 0
    ensures Cut(Interleave(w, kvHeads), GroupRows(heads, kvHeads, dim)) == QueryGroups(w, kvHeads)
  {
    FusedShaped(w, heads, kvHeads, dim);
    ShapedViews(w, kvHeads);
    var gs, size := QueryGroups(w, kvHeads), GroupRows(heads, kvHeads, dim);
    assert Uniform(gs, size);
    hide Shaped, QueryRows;
    FlattenUniform(gs, size);
    CutFlatten(gs, size);
  }

  /** Interleaving by query group, cutting into tp contiguous row shards and merging gives back
      queries, keys and values. */
  lemma MergeUndoesConvert<T>(w: Qkv<T>, heads: nat, kvHeads: nat, dim: nat, tp: nat)
    requires Model(heads, kvHeads, dim) && Fused(w, heads, kvHeads, dim) && tp > 0 && kvHeads % tp == 0
    ensures Shaped(w, kvHeads) && |TorchChunk(Interleave(w, kvHeads), tp)| > 0
    ensures Merged(TorchChunk(Interleave(w, kvHeads), tp), heads, kvHeads) == Some(w)
  {
    hide *;
    InterleaveSize(w, heads, kvHeads, dim);
    SplitGroups(w, kvHeads);
    MergedIsSplit(Interleave(w, kvHeads), heads, kvHeads, dim, tp);
  }

  /** The other way round: what the merger takes apart, the converter puts together again. */
  lemma ConvertUndoesMerge<T>(rows: seq<T>, heads: nat, kvHeads: nat, dim: nat, tp: nat)
    requires Model(heads, kvHeads, dim) && tp > 0 && kvHeads % tp == 0 && |rows| == FusedRows(heads, kvHeads, dim)
    ensures |TorchChunk(rows, tp)| > 0
    ensures var r := Merged(TorchChunk(rows, tp), heads, kvHeads);
            r.Some? && Shaped(r.value, kvHeads) && Interleave(r.value, kvHeads) == rows
  {
    var a, size := QueryRows(heads, kvHeads, dim), GroupRows(heads, kvHeads, dim);
    assert size == a + dim + dim && kvHeads > 0 && dim > 0 && kvHeads * size == |rows|;
    ModelRows(heads, kvHeads, dim);
    hide *;
    MergedIsSplit(rows, heads, kvHeads, dim, tp);
    CutUniform(rows, size, kvHeads);
    CutJoins(rows, size);
    JoinSplit(Cut(rows, size), a, dim);
  }

  /** Splitting groups and interleaving the result. */
  lemma JoinSplit<T>(gs: seq<seq<T>>, a: nat, b: nat)
    requires a > 0 && b > 0 && gs != [] && Uniform(gs, a + b + b)
    ensures var r := SplitPieces(gs, a, b);
            r.Some? && Shaped(r.value, |gs|) && Interleave(r.value, |gs|) == Flatten(gs)
  {
    hide *;
    WideEnough(gs, a, b);
    var qs, ks, vs := Columns(gs, 0, a), Columns(gs, a, a + b), Columns(gs, a + b, a + b + b);
    var w := Qkv(Flatten(qs), Flatten(ks), Flatten(vs));
    ColumnsShaped(w, qs, ks, vs, a, b);
    GroupsFromViews(w, gs, qs, ks, vs, a, b);
  }

  lemma WideEnough<T>(gs: seq<seq<T>>, a: nat, b: nat)
    requires Uniform(gs, a + b + b)
    ensures forall i :: 0 <= i < |gs| ==> |gs[i]| == a + b + b
    ensures var qs, ks, vs := Columns(gs, 0, a), Columns(gs, a, a + b), Columns(gs, a + b, a + b + b);
            && SplitPieces(gs, a, b) == Some(Qkv(Flatten(qs), Flatten(ks), Flatten(vs)))
            && Uniform(qs, a) && Uniform(ks, b) && Uniform(vs, b)
            && forall i :: 0 <= i < |gs| ==> qs[i] + ks[i] + vs[i] == gs[i]
  {
    hide Flatten;
    forall i | 0 <= i < |gs| ensures gs[i][0..a] + gs[i][a..a + b] + gs[i][a + b..a + b + b] == gs[i] { JoinOne(gs[i], a, b); }
  }

  lemma ColumnsShaped<T>(w: Qkv<T>, qs: seq<seq<T>>, ks: seq<seq<T>>, vs: seq<seq<T>>, a: nat, b: nat)
    requires a > 0 && b > 0 && |qs| == |ks| == |vs| > 0 && Uniform(qs, a) && Uniform(ks, b) && Uniform(vs, b)
    requires w == Qkv(Flatten(qs), Flatten(ks), Flatten(vs))
    ensures Shaped(w, |qs|) && |w.q| / |qs| == a && |w.k| / |qs| == b
    ensures Cut(w.q, a) == qs && Cut(w.k, b) == ks && Cut(w.v, b) == vs
  {
    hide *;
    FlattenUniform(qs, a);
    FlattenUniform(ks, b);
    FlattenUniform(vs, b);
    ShapedIf(w, |qs|, a, b);
    CutFlatten(qs, a);
    CutFlatten(ks, b);
    CutFlatten(vs, b);
  }

  lemma GroupsFromViews<T>(w: Qkv<T>, gs: seq<seq<T>>, qs: seq<seq<T>>, ks: seq<seq<T>>, vs: seq<seq<T>>, a: nat, b: nat)
    requires Shaped(w, |gs|) && |w.q| / |gs| == a > 0 && |w.k| / |gs| == b > 0
    requires Cut(w.q, a) == qs && Cut(w.k, b) == ks && Cut(w.v, b) == vs
    requires |qs| == |ks| == |vs| == |gs| && forall i :: 0 <= i < |gs| ==> qs[i] + ks[i] + vs[i] == gs[i]
    ensures Interleave(w, |gs|) == Flatten(gs)
  {
    ViewIsCut(w, |gs|, a, b);
    hide Cut, View, Flatten, Shaped;
    assert QueryGroups(w, |gs|) == gs;
  }

  lemma JoinOne<T>(g: seq<T>, a: nat, b: nat)
    requires |g| == a + b + b
    ensures g[0..a] + g[a..a + b] + g[a + b..a + b + b] == g
  {
  }

  /** Row j of query group i, as the converter's views place it. */
  lemma InterleaveAt<T>(w: Qkv<T>, kvHeads: nat, a: nat, b: nat, i: nat, j: nat)
    requires Shaped(w, kvHeads) && a == |w.q| / kvHeads && b == |w.k| / kvHeads
    requires i < kvHeads && j < a + b + b
    ensures var r, at := Interleave(w, kvHeads), Position(i, a + b + b, j);
            && at < |r|
            && (j < a ==> Position(i, a, j) < |w.q| && r[at] == w.q[Position(i, a, j)])
            && (a <= j < a + b ==> Position(i, b, j - a) < |w.k| && r[at] == w.k[Position(i, b, j - a)])
            && (a + b <= j ==> Position(i, b, j - a - b) < |w.v| && r[at] == w.v[Position(i, b, j - a - b)])
  {
    hide *;
    InterleaveGroups(w, kvHeads, a, b, i);
    JoinedAt(QueryGroups(w, kvHeads), Cut(w.q, a)[i], Cut(w.k, b)[i], Cut(w.v, b)[i], i, j);
    if j < a {
      CutAt(w.q, a, kvHeads, i, j);
    } else if j < a + b {
      CutAt(w.k, b, kvHeads, i, j - a);
    } else {
      CutAt(w.v, b, kvHeads, i, j - a - b);
    }
  }

  lemma InterleaveGroups<T>(w: Qkv<T>, kvHeads: nat, a: nat, b: nat, i: nat)
    requires Shaped(w, kvHeads) && a == |w.q| / kvHeads && b == |w.k| / kvHeads && i < kvHeads
    ensures a > 0 && b > 0 && |w.q| == kvHeads * a && |w.k| == |w.v| == kvHeads * b
    ensures |Cut(w.q, a)| == |Cut(w.k, b)| == |Cut(w.v, b)| == kvHeads
    ensures |Cut(w.q, a)[i]| == a && |Cut(w.k, b)[i]| == |Cut(w.v, b)[i]| == b
    ensures var gs := QueryGroups(w, kvHeads);
            && Interleave(w, kvHeads) == Flatten(gs) && Uniform(gs, a + b + b) && |gs| == kvHeads
            && gs[i] == Cut(w.q, a)[i] + Cut(w.k, b)[i] + Cut(w.v, b)[i]
  {
    ShapedViews(w, kvHeads);
    ViewIsCut(w, kvHeads, a, b);
  }

  lemma ViewIsCut<T>(w: Qkv<T>, n: nat, a: nat, b: nat)
    requires Shaped(w, n) && a == |w.q| / n && b == |w.k| / n
    ensures a > 0 && b > 0 && View(w.q, n) == Cut(w.q, a) && View(w.k, n) == Cut(w.k, b) && View(w.v, n) == Cut(w.v, b)
  {
    DivMod(|w.q|, n);
    DivMod(|w.k|, n);
  }

  lemma JoinedAt<T>(gs: seq<seq<T>>, x: seq<T>, y: seq<T>, z: seq<T>, i: nat, j: nat)
    requires Uniform(gs, |x| + |y| + |z|) && i < |gs| && gs[i] == x + y + z && j < |x| + |y| + |z|
    ensures var r, at := Flatten(gs), Position(i, |x| + |y| + |z|, j);
            at < |r| && r[at] == if j < |x| then x[j] else if j < |x| + |y| then y[j - |x|] else z[j - |x| - |y|]
  {
    FlattenAt(gs, |x| + |y| + |z|, i, j);
    PickAt(x, y, z, j);
  }

  lemma PickAt<T>(x: seq<T>, y: seq<T>, z: seq<T>, j: nat)
    requires j < |x| + |y| + |z|
    ensures (x + y + z)[j] == if j < |x| then x[j] else if j < |x| + |y| then y[j - |x|] else z[j - |x| - |y|]
  {
  }

  // ---------- exactly when tp divides the key-value heads ----------

  /** A split takes more than the query rows of the first group, or not all of the chunk. */
  predicate Misses(sizes: Option<Sizes>, per: nat, a: nat) {
    sizes.Some? && sizes.value.groups > 0 ==>
      sizes.value.a > a || (per + sizes.value.groups - 1) / sizes.value.groups > sizes.value.a + sizes.value.b + sizes.value.b
  }

  /** Some shards come out different: too few whole groups fit a shard. */
  lemma SizesTooLarge(heads: nat, kvHeads: nat, dim: nat, tp: nat, per: nat)
    requires Model(heads, kvHeads, dim) && tp > 0 && kvHeads % tp != 0 && tp * per == FusedRows(heads, kvHeads, dim)
    ensures Misses(SizesFor(per, heads, kvHeads, tp), per, QueryRows(heads, kvHeads, dim))
  {
    var m := heads / kvHeads;
    var sizes := SizesFor(per, heads, kvHeads, tp);
    ModelRows(heads, kvHeads, dim);
    if sizes.Some? {
      var g, s, r := kvHeads / tp, per / (m + 2), kvHeads % tp;
      DivMod(per, m + 2);
      DivMod(kvHeads, tp);
      assert per == s * (m + 2) && kvHeads == g * tp + r;
      Surplus(tp, s, kvHeads, g, r, dim, m);
      TooLarge(g, s, m, dim);
    }
  }

  /** A shard holds more key rows than its whole groups account for. */
  lemma Surplus(tp: nat, s: nat, kvHeads: nat, g: nat, r: nat, dim: nat, m: nat)
    requires tp * (s * (m + 2)) == kvHeads * ((m + 2) * dim) && kvHeads == g * tp + r && 0 < r && dim > 0 && tp > 0
    ensures s >= g * dim + 1
  {
    assert tp * (s * (m + 2)) == (tp * s) * (m + 2);
    assert kvHeads * ((m + 2) * dim) == (kvHeads * dim) * (m + 2);
    Cancel(tp * s, kvHeads * dim, m + 2);
    assert kvHeads * dim == g * dim * tp + r * dim;
    MulMonotone(1, r, dim);
    assert s * tp > g * dim * tp;
    if s <= g * dim { MulMonotone(s, g * dim, tp); }
  }

  lemma Cancel(x: int, y: int, w: nat)
    requires x * w == y * w && w > 0
    ensures x == y
  {
    if x < y { MulMonotone(x + 1, y, w); }
    if x > y { MulMonotone(y + 1, x, w); }
  }

  lemma TooLarge(g: nat, s: nat, m: nat, dim: nat)
    requires g > 0 && m > 0 && dim > 0 && s >= g * dim + 1
    ensures var a, b := s * m / g, s / g; a > m * dim || (s * (m + 2) + g - 1) / g > a + b + b
  {
    var a, e := s * m / g, s - g * dim;
    DivMod(s * m, g);
    assert s * m == g * (m * dim) + e * m;
    if a <= m * dim {
      assert a == m * dim && e * m < g by {
        MulMonotone(0, m, e);
        QuotientAtMost(s * m, g, m * dim, e * m);
      }
      MulMonotone(1, m, e);
      DivUnique(s, g, dim, e);
      MoreThanFits(g, s, m + 2, dim, e);
      assert (m + 2) * dim == m * dim + dim + dim;
    }
  }

  /** e more rows than g groups of dim need make a chunk larger. */
  lemma MoreThanFits(g: nat, s: nat, k: nat, dim: nat, e: nat)
    requires g > 0 && k > 0 && e > 0 && s == g * dim + e
    ensures (s * k + g - 1) / g > k * dim
  {
    var c := (s * k + g - 1) / g;
    RoundedUp(s * k, g);
    assert s * k == (k * dim) * g + e * k;
    MulMonotone(1, k, e);
    if c <= k * dim { MulMonotone(c, k * dim, g); }
  }

  lemma QuotientAtMost(x: nat, g: nat, q: nat, rest: nat)
    requires g > 0 && x == g * q + rest && x / g <= q
    ensures x / g == q && rest < g
  {
    var p := x / g;
    DivMod(x, g);
    assert x < p * g + g;
    MulMonotone(p, q, g);
    assert (p + 1) * g == p * g + g;
    if p < q { MulMonotone(p + 1, q, g); }
  }

  /** The marked weight: query rows 0, key rows 1, value rows 2. */
  function Marked(heads: nat, kvHeads: nat, dim: nat): Qkv<nat> {
    Qkv(seq(heads * dim, _ => 0), seq(kvHeads * dim, _ => 1), seq(kvHeads * dim, _ => 2))
  }

  lemma SplitFirst<T>(ps: seq<seq<T>>, a: nat, b: nat, w: Qkv<T>)
    requires ps != [] && SplitPieces(ps, a, b) == Some(w)
    ensures |ps[0]| == a + b + b && |w.q| >= a && w.q[..a] == ps[0][..a]
  {
    assert Columns(ps, 0, a)[0] == ps[0][0..a];
  }

  lemma FirstPiece<T>(tpData: seq<seq<T>>, n: nat)
    requires n > 0 && tpData != [] && tpData[0] != []
    ensures var ps, c := Pieces(tpData, n), (|tpData[0]| + n - 1) / n;
            c > 0 && ps != [] && ps[0] == if |tpData[0]| <= c then tpData[0] else tpData[0][..c]
  {
    RoundedUp(|tpData[0]|, n);
    PiecesPrefix(tpData, n, 0);
    assert tpData[..0] == [];
    assert Pieces(tpData[..1], n)[0] == TorchChunk(tpData[0], n)[0];
  }

  /** With tp not dividing the key-value heads the marked weight does not come back, wherever the
      shards are equally long. */
  lemma MarkedIsLost(heads: nat, kvHeads: nat, dim: nat, tp: nat, per: nat)
    requires Model(heads, kvHeads, dim) && tp > 0 && kvHeads % tp != 0 && tp * per == FusedRows(heads, kvHeads, dim)
    ensures Restorable(heads, kvHeads, dim, tp, Marked(heads, kvHeads, dim))
    ensures !Restores(heads, kvHeads, dim, tp, Marked(heads, kvHeads, dim))
  {
    var w, a := Marked(heads, kvHeads, dim), QueryRows(heads, kvHeads, dim);
    MarkedShards(heads, kvHeads, dim, tp, per);
    SizesTooLarge(heads, kvHeads, dim, tp, per);
    MarkedDiffers(TorchChunk(Interleave(w, kvHeads), tp), heads, kvHeads, dim, tp, Interleave(w, kvHeads), a);
    hide Interleave, TorchChunk, Merged, FusedRows, QueryRows, Marked, Shaped;
  }

  lemma MarkedShards(heads: nat, kvHeads: nat, dim: nat, tp: nat, per: nat)
    requires Model(heads, kvHeads, dim) && tp > 0 && tp * per == FusedRows(heads, kvHeads, dim)
    ensures var w, a := Marked(heads, kvHeads, dim), QueryRows(heads, kvHeads, dim);
            && Fused(w, heads, kvHeads, dim) && Shaped(w, kvHeads) && a < |Interleave(w, kvHeads)| && Interleave(w, kvHeads)[a] == 1
            && var rows, shards := Interleave(w, kvHeads), TorchChunk(Interleave(w, kvHeads), tp);
               && |shards| == tp && 0 < per <= |rows| && |shards[0]| == per && shards[0] == rows[..per]
  {
    var w, a := Marked(heads, kvHeads, dim), QueryRows(heads, kvHeads, dim);
    InterleaveSize(w, heads, kvHeads, dim);
    MarkedAt(w, heads, kvHeads, dim, a);
    hide Interleave, Marked, Model, Shaped, QueryRows;
    var rows := Interleave(w, kvHeads);
    MulMonotone(1, GroupRows(heads, kvHeads, dim), kvHeads);
    if per <= 0 { MulMonotone(per, 0, tp); }
    ChunkEven(rows, tp, per);
    MulMonotone(1, tp, per);
    CutStart(rows, per);
  }

  /** The row after the first query rows is a key row. */
  lemma MarkedAt(w: Qkv<nat>, heads: nat, kvHeads: nat, dim: nat, a: nat)
    requires Model(heads, kvHeads, dim) && w == Marked(heads, kvHeads, dim) && Shaped(w, kvHeads)
    requires a == |w.q| / kvHeads && dim == |w.k| / kvHeads
    ensures a < |Interleave(w, kvHeads)| && Interleave(w, kvHeads)[a] == 1
  {
    InterleaveAt(w, kvHeads, a, dim, 0, a);
    hide Interleave;
  }

  lemma MarkedDiffers(shards: seq<seq<nat>>, heads: nat, kvHeads: nat, dim: nat, tp: nat, rows: seq<nat>, a: nat)
    requires |shards| == tp > 0 && 0 < |shards[0]| <= |rows| && shards[0] == rows[..|shards[0]|]
    requires a < |rows| && rows[a] == 1
    requires Misses(SizesFor(|shards[0]|, heads, kvHeads, tp), |shards[0]|, a)
    ensures Merged(shards, heads, kvHeads) != Some(Marked(heads, kvHeads, dim))
  {
    hide SizesFor, SplitPieces, Pieces;
    var w := Marked(heads, kvHeads, dim);
    if Merged(shards, heads, kvHeads) == Some(w) {
      var z := SizesFor(|shards[0]|, heads, kvHeads, tp).value;
      FirstPieceTooLong(shards, z, w, a);
    }
  }

  lemma CutStart<T>(s: seq<T>, n: nat)
    requires n > 0 && |s| >= n
    ensures Cut(s, n)[0] == s[..n]
  {
  }

  /** A first chunk that does not end with the first query group cannot be split into the original. */
  lemma FirstPieceTooLong<T>(shards: seq<seq<T>>, z: Sizes, w: Qkv<T>, a: nat)
    requires z.groups > 0 && shards != [] && shards[0] != []
    requires SplitPieces(Pieces(shards, z.groups), z.a, z.b) == Some(w)
    requires z.a > a || (|shards[0]| + z.groups - 1) / z.groups > z.a + z.b + z.b
    ensures a < |w.q| && a < |shards[0]| && w.q[a] == shards[0][a]
  {
    hide *;
    FirstPiece(shards, z.groups);
    var p := Pieces(shards, z.groups);
    SplitFirst(p, z.a, z.b, w);
    CeilingBelow(|shards[0]|, z.groups);
    SamePrefix(shards[0], (|shards[0]| + z.groups - 1) / z.groups, p[0], w.q, z.a, a);
  }

  lemma SamePrefix<T>(s: seq<T>, c: nat, p: seq<T>, q: seq<T>, n: nat, a: nat)
    requires c <= |s| && p == (if |s| <= c then s else s[..c])
    requires n <= |p| && n <= |q| && q[..n] == p[..n] && (n > a || c > |p|)
    ensures a < |q| && a < |s| && q[a] == s[a]
  {
    assert q[..n][a] == p[..n][a];
  }

  lemma CeilingBelow(x: nat, n: nat)
    requires x > 0 && n > 0
    ensures (x + n - 1) / n <= x
  {
    DivMod(x + n - 1, n);
    var q := (x + n - 1) / n;
    MulMonotone(1, n, x);
    assert (x + 1) * n == n * x + n;
    if q >= x + 1 { MulMonotone(x + 1, q, n); }
  }

  predicate Restorable(heads: nat, kvHeads: nat, dim: nat, tp: nat, w: Qkv<nat>) {
    Model(heads, kvHeads, dim) && Fused(w, heads, kvHeads, dim) && Shaped(w, kvHeads) && tp > 0
    && |TorchChunk(Interleave(w, kvHeads), tp)| > 0
  }

  predicate Restores(heads: nat, kvHeads: nat, dim: nat, tp: nat, w: Qkv<nat>)
    requires Restorable(heads, kvHeads, dim, tp, w)
  {
    Merged(TorchChunk(Interleave(w, kvHeads), tp), heads, kvHeads) == Some(w)
  }

  /** The merger gives back every weight if and only if tp divides the number of key-value heads, for
      every number of shards into which the fused rows can be cut equally. */
  lemma MergeExact(heads: nat, kvHeads: nat, dim: nat, tp: nat, per: nat)
    requires Model(heads, kvHeads, dim) && tp > 0 && tp * per == FusedRows(heads, kvHeads, dim)
    ensures (forall w | Restorable(heads, kvHeads, dim, tp, w) :: Restores(heads, kvHeads, dim, tp, w)) <==> kvHeads % tp == 0
  {
    if kvHeads % tp == 0 {
      forall w | Restorable(heads, kvHeads, dim, tp, w) ensures Restores(heads, kvHeads, dim, tp, w) {
        MergeUndoesConvert(w, heads, kvHeads, dim, tp);
      }
    } else {
      MarkedIsLost(heads, kvHeads, dim, tp, per);
    }
  }

  // ---------- exactly when the merger raises ----------

  /** The assertions on heads and rows, at least one query group per rank, and key rows that divide into
      the groups. */
  predicate Mergeable(rows: nat, heads: nat, kvHeads: nat, tp: nat)
    requires tp > 0
  {
    && kvHeads > 0 && heads % kvHeads == 0 && rows % (heads / kvHeads + 2) == 0
    && kvHeads / tp > 0 && (rows / (heads / kvHeads + 2)) % (kvHeads / tp) == 0
  }

  /** Sizes that make up a chunk of the rows. */
  predicate SizesFit(z: Sizes, rows: nat, m: nat, kv: nat) {
    z.groups > 0 && rows == kv * (m + 2) && z.a == Quotient(kv * m, z.groups) && z.b == Quotient(kv, z.groups)
  }

  lemma SizesAre(rows: nat, heads: nat, kvHeads: nat, tp: nat)
    requires tp > 0
    ensures var z := SizesFor(rows, heads, kvHeads, tp);
            && (z.Some? ==>
                  && kvHeads > 0 && heads % kvHeads == 0 && rows % (heads / kvHeads + 2) == 0 && kvHeads / tp == z.value.groups > 0
                  && SizesFit(z.value, rows, heads / kvHeads, rows / (heads / kvHeads + 2)))
            && (z.None? ==> !Mergeable(rows, heads, kvHeads, tp))
  {
    if kvHeads > 0 { DivMod(rows, heads / kvHeads + 2); }
  }

  lemma EvenSizes(z: Sizes, rows: nat, m: nat, kv: nat)
    requires SizesFit(z, rows, m, kv) && kv % z.groups == 0
    ensures var size := z.a + z.b + z.b; rows == z.groups * size && (rows > 0 ==> size > 0)
  {
    var g, e := z.groups, kv / z.groups;
    DivMod(kv, g);
    assert kv == e * g;
    assert kv * m == (e * m) * g;
    DivUnique(kv * m, g, e * m, 0);
    DivUnique(kv, g, e, 0);
    assert z.a + z.b + z.b == e * (m + 2);
    assert kv * (m + 2) == g * (e * (m + 2));
  }

  lemma OddSizes(z: Sizes, rows: nat, m: nat, kv: nat)
    requires SizesFit(z, rows, m, kv) && kv % z.groups != 0
    ensures rows > 0 && (rows + z.groups - 1) / z.groups > z.a + z.b + z.b
  {
    var g, c, size := z.groups, (rows + z.groups - 1) / z.groups, z.a + z.b + z.b;
    DivMod(kv * m, g);
    DivMod(kv, g);
    RoundedUp(rows, g);
    assert size * g == z.a * g + z.b * g + z.b * g;
    assert kv * (m + 2) == kv * m + kv + kv;
    assert kv > 0;
    assert rows > 0 by { MulMonotone(1, m + 2, kv); }
    if c <= size { MulMonotone(c, size, g); }
  }

  lemma {:induction false} PiecesSized<T>(tpData: seq<seq<T>>, n: nat, size: nat)
    requires n > 0 && forall i :: 0 <= i < |tpData| ==> Uniform(TorchChunk(tpData[i], n), size)
    ensures Uniform(Pieces(tpData, n), size)
  {
    hide TorchChunk;
    if tpData != [] { PiecesSized(tpData[..|tpData|-1], n, size); }
  }

  lemma ChunkSized<T>(s: seq<T>, n: nat, size: nat)
    requires n > 0 && |s| == n * size && (|s| > 0 ==> size > 0)
    ensures Uniform(TorchChunk(s, n), size)
  {
    if s == [] {
      if size > 0 { MulMonotone(1, n, size); }
    } else {
      ChunkEven(s, n, size);
    }
  }

  lemma SplitsIf<T>(ps: seq<seq<T>>, a: nat, b: nat)
    ensures SplitPieces(ps, a, b).Some? <==> Uniform(ps, a + b + b)
  {
  }

  /** Shards of equal length are merged without raising exactly if the conditions hold. */
  lemma MergeRaises<T>(tpData: seq<seq<T>>, heads: nat, kvHeads: nat, rows: nat)
    requires |tpData| > 0 && Uniform(tpData, rows)
    ensures Merged(tpData, heads, kvHeads).Some? <==> Mergeable(rows, heads, kvHeads, |tpData|)
  {
    var tp := |tpData|;
    var z := SizesFor(rows, heads, kvHeads, tp);
    SizesAre(rows, heads, kvHeads, tp);
    hide SizesFor, SizesFit, SplitPieces, Pieces;
    assert |tpData[0]| == rows;
    if z.Some? {
      UseSizes(tpData, heads, kvHeads, z.value);
      SplitsIf(Pieces(tpData, z.value.groups), z.value.a, z.value.b);
      MergesIf(tpData, z.value, rows, heads / kvHeads, rows / (heads / kvHeads + 2));
    }
  }

  lemma MergesIf<T>(tpData: seq<seq<T>>, z: Sizes, rows: nat, m: nat, kv: nat)
    requires |tpData| > 0 && Uniform(tpData, rows) && SizesFit(z, rows, m, kv)
    ensures z.groups > 0
    ensures Uniform(Pieces(tpData, z.groups), z.a + z.b + z.b) <==> kv % z.groups == 0
  {
    hide *;
    FitsGroups(z, rows, m, kv);
    if kv % z.groups == 0 { EvenMerges(tpData, z, rows, m, kv); } else { OddFails(tpData, z, rows, m, kv); }
  }

  lemma FitsGroups(z: Sizes, rows: nat, m: nat, kv: nat)
    requires SizesFit(z, rows, m, kv)
    ensures z.groups > 0
  {
  }

  lemma EvenMerges<T>(tpData: seq<seq<T>>, z: Sizes, rows: nat, m: nat, kv: nat)
    requires Uniform(tpData, rows) && SizesFit(z, rows, m, kv) && z.groups > 0 && kv % z.groups == 0
    ensures Uniform(Pieces(tpData, z.groups), z.a + z.b + z.b)
  {
    hide *;
    var size := z.a + z.b + z.b;
    EvenSizes(z, rows, m, kv);
    ChunksSized(tpData, z.groups, size, rows);
    PiecesSized(tpData, z.groups, size);
  }

  lemma ChunksSized<T>(tpData: seq<seq<T>>, n: nat, size: nat, rows: nat)
    requires Uniform(tpData, rows) && n > 0 && rows == n * size && (rows > 0 ==> size > 0)
    ensures forall i :: 0 <= i < |tpData| ==> Uniform(TorchChunk(tpData[i], n), size)
  {
    hide TorchChunk;
    forall i | 0 <= i < |tpData| ensures Uniform(TorchChunk(tpData[i], n), size) { ChunkSized(tpData[i], n, size); }
  }

  lemma OddFails<T>(tpData: seq<seq<T>>, z: Sizes, rows: nat, m: nat, kv: nat)
    requires |tpData| > 0 && Uniform(tpData, rows) && SizesFit(z, rows, m, kv) && z.groups > 0 && kv % z.groups != 0
    ensures !Uniform(Pieces(tpData, z.groups), z.a + z.b + z.b)
  {
    hide *;
    OddSizes(z, rows, m, kv);
    FirstLong(tpData, z.groups, rows);
    TooLong(Pieces(tpData, z.groups), z.a + z.b + z.b);
  }

  /** The first piece has the rounded-up length. */
  lemma FirstLong<T>(tpData: seq<seq<T>>, n: nat, rows: nat)
    requires |tpData| > 0 && Uniform(tpData, rows) && n > 0 && rows > 0
    ensures var ps := Pieces(tpData, n); ps != [] && |ps[0]| == (rows + n - 1) / n
  {
    assert |tpData[0]| == rows;
    hide Pieces;
    FirstPiece(tpData, n);
    CeilingBelow(rows, n);
  }

  lemma TooLong<T>(ps: seq<seq<T>>, size: nat)
    requires ps != [] && |ps[0]| > size
    ensures !Uniform(ps, size)
  {
  }
}
