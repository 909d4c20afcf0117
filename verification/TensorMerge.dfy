/** Merging the tensor-parallel shards of a Megatron checkpoint, against the layouts in which the
    fused attention and feed-forward weights are written. A row is opaque; the rows of a bias are
    its elements. */
module TensorMerge {
  import opened Wrappers
  import opened Arithmetic
  import opened Sequences

  datatype Qkv<T> = Qkv(q: seq<T>, k: seq<T>, v: seq<T>)

  // ---------- the layout ----------

  /** `view([n, |s| / n, -1])`. */
  function View<T>(s: seq<T>, n: nat): seq<seq<T>>
    requires n > 0 && |s| >= n
  {
    DivMod(|s|, n);
    Cut(s, |s| / n)
  }

  /** One query group after the other: its query rows, its key rows, its value rows. */
  function Interleave<T>(w: Qkv<T>, kvHeads: nat): seq<T>
    requires Shaped(w, kvHeads)
  {
    Flatten(QueryGroups(w, kvHeads))
  }

  function QueryGroups<T>(w: Qkv<T>, kvHeads: nat): seq<seq<T>>
    requires Shaped(w, kvHeads)
  {
    ShapedViews(w, kvHeads);
    seq(kvHeads, i requires 0 <= i < kvHeads => View(w.q, kvHeads)[i] + View(w.k, kvHeads)[i] + View(w.v, kvHeads)[i])
  }

  predicate Shaped<T>(w: Qkv<T>, kvHeads: nat) {
    && kvHeads > 0 && |w.k| == |w.v| >= kvHeads && |w.q| >= kvHeads
    && |w.k| == kvHeads * (|w.k| / kvHeads) && |w.q| == kvHeads * (|w.q| / kvHeads)
  }

  lemma ViewUniform<T>(s: seq<T>, n: nat)
    requires n > 0 && |s| >= n && |s| == n * (|s| / n)
    ensures |View(s, n)| == n && Uniform(View(s, n), |s| / n) && Flatten(View(s, n)) == s
  {
    DivMod(|s|, n);
    CutUniform(s, |s| / n, n);
    CutJoins(s, |s| / n);
  }

  lemma ShapedViews<T>(w: Qkv<T>, kvHeads: nat)
    requires Shaped(w, kvHeads)
    ensures |View(w.q, kvHeads)| == |View(w.k, kvHeads)| == |View(w.v, kvHeads)| == kvHeads
    ensures Uniform(View(w.q, kvHeads), |w.q| / kvHeads)
    ensures Uniform(View(w.k, kvHeads), |w.k| / kvHeads) && Uniform(View(w.v, kvHeads), |w.k| / kvHeads)
    ensures Flatten(View(w.q, kvHeads)) == w.q && Flatten(View(w.k, kvHeads)) == w.k && Flatten(View(w.v, kvHeads)) == w.v
  {
    ViewUniform(w.q, kvHeads);
    ViewUniform(w.k, kvHeads);
    ViewUniform(w.v, kvHeads);
  }

  // ---------- the merger ----------

  /** The columns `lo..hi` of all pieces, one after the other. */
  function Columns<T>(ps: seq<seq<T>>, lo: nat, hi: nat): (r: seq<seq<T>>)
    requires lo <= hi && forall i :: 0 <= i < |ps| ==> hi <= |ps[i]|
    ensures |r| == |ps| && forall i :: 0 <= i < |r| ==> r[i] == ps[i][lo..hi]
  {
    seq(|ps|, i requires 0 <= i < |ps| => ps[i][lo..hi])
  }

  /** All shards cut into n chunks each. */
  function Pieces<T>(tpData: seq<seq<T>>, n: nat): seq<seq<T>>
    requires n > 0
  {
    if tpData == [] then [] else Pieces(tpData[..|tpData|-1], n) + TorchChunk(tpData[|tpData|-1], n)
  }

  function SplitPieces<T>(ps: seq<seq<T>>, a: nat, b: nat): Option<Qkv<T>> {
    if !Uniform(ps, a + b + b) then None
    else Some(Qkv(Flatten(Columns(ps, 0, a)), Flatten(Columns(ps, a, a + b)), Flatten(Columns(ps, a + b, a + b + b))))
  }

  /** Chunks per shard, and rows of q and of k and v in each of them. */
  datatype Sizes = Sizes(groups: nat, a: nat, b: nat)

  function Quotient(x: nat, y: nat): nat
    requires y > 0
  {
    x / y
  }

  /** The sizes the merger derives from the first shard; None where it raises. */
  function SizesFor(rows: nat, heads: nat, kvHeads: nat, tp: nat): (r: Option<Sizes>)
    requires tp > 0
    ensures r.Some? ==> r.value.groups > 0
  {
    if kvHeads == 0 || heads % kvHeads != 0 then None
    else
      var numQPerKv := Quotient(heads, kvHeads);
      if rows % (numQPerKv + 2) != 0 then None
      else
        var kvSizePerTp, groups := Quotient(rows, numQPerKv + 2), Quotient(kvHeads, tp);
        if groups == 0 then None else Some(Sizes(groups, Quotient(kvSizePerTp * numQPerKv, groups), Quotient(kvSizePerTp, groups)))
  }

  /** What the merger returns for the shards of a fused attention weight; None where it raises. */
  function Merged<T>(tpData: seq<seq<T>>, heads: nat, kvHeads: nat): Option<Qkv<T>>
    requires |tpData| > 0
  {
    match SizesFor(|tpData[0]|, heads, kvHeads, |tpData|)
    case None => None
    case Some(z) => SplitPieces(Pieces(tpData, z.groups), z.a, z.b)
  }

  method MergeQkv<T>(tpData: seq<seq<T>>, heads: nat, kvHeads: nat) returns (r: Option<Qkv<T>>)
    requires |tpData| > 0
    ensures r == Merged(tpData, heads, kvHeads)
  {
    hide SizesFor, SplitPieces, Pieces;
    var sizes := SizesFor(|tpData[0]|, heads, kvHeads, |tpData|);
    if sizes.None? { return None; }
    var groups, a, b := sizes.value.groups, sizes.value.a, sizes.value.b;
    assert Merged(tpData, heads, kvHeads) == SplitPieces(Pieces(tpData, groups), a, b);
    hide *;
    var qs: seq<seq<T>>, ks: seq<seq<T>>, vs: seq<seq<T>> := [], [], [];
    SplitNone<T>(a, b);
    PiecesEnds(tpData, groups);
    for i := 0 to |tpData|
      invariant SplitInto(Pieces(tpData[..i], groups), a, b, qs, ks, vs)
    {
      var chunks := TorchChunk(tpData[i], groups);
      ghost var done := Pieces(tpData[..i], groups);
      PiecesPrefix(tpData, groups, i);
      assert done + chunks[..0] == done;
      for j := 0 to |chunks|
        invariant SplitInto(done + chunks[..j], a, b, qs, ks, vs)
      {
        assert (done + chunks)[|done| + j] == chunks[j];
        assert done + chunks[..j] + [chunks[j]] == done + chunks[..j + 1];
        if |chunks[j]| != a + b + b {
          SplitFails(Pieces(tpData, groups), a, b, |done| + j);
          return None;
        }
        SplitNext(done + chunks[..j], a, b, qs, ks, vs, chunks[j]);
        qs, ks, vs := qs + [chunks[j][..a]], ks + [chunks[j][a..a + b]], vs + [chunks[j][a + b..]];
      }
      assert chunks[..|chunks|] == chunks;
    }
    assert tpData[..|tpData|] == tpData;
    SplitDone(Pieces(tpData, groups), a, b, qs, ks, vs);
    return Some(Qkv(Flatten(qs), Flatten(ks), Flatten(vs)));
  }

  /** What the three lists hold once the pieces `ps` are split. */
  ghost predicate SplitInto<T>(ps: seq<seq<T>>, a: nat, b: nat, qs: seq<seq<T>>, ks: seq<seq<T>>, vs: seq<seq<T>>) {
    Uniform(ps, a + b + b) && qs == Columns(ps, 0, a) && ks == Columns(ps, a, a + b) && vs == Columns(ps, a + b, a + b + b)
  }

  lemma SplitNone<T>(a: nat, b: nat)
    ensures SplitInto<T>([], a, b, [], [], [])
  {
  }

  lemma SplitNext<T>(ps: seq<seq<T>>, a: nat, b: nat, qs: seq<seq<T>>, ks: seq<seq<T>>, vs: seq<seq<T>>, p: seq<T>)
    requires SplitInto(ps, a, b, qs, ks, vs) && |p| == a + b + b
    ensures SplitInto(ps + [p], a, b, qs + [p[..a]], ks + [p[a..a + b]], vs + [p[a + b..]])
  {
    assert p[a + b..] == p[a + b..a + b + b];
  }

  lemma SplitFails<T>(ps: seq<seq<T>>, a: nat, b: nat, i: nat)
    requires i < |ps| && |ps[i]| != a + b + b
    ensures SplitPieces(ps, a, b) == None
  {
  }

  lemma SplitDone<T>(ps: seq<seq<T>>, a: nat, b: nat, qs: seq<seq<T>>, ks: seq<seq<T>>, vs: seq<seq<T>>)
    requires SplitInto(ps, a, b, qs, ks, vs)
    ensures SplitPieces(ps, a, b) == Some(Qkv(Flatten(qs), Flatten(ks), Flatten(vs)))
  {
  }

  lemma PiecesEnds<T>(tpData: seq<seq<T>>, n: nat)
    requires n > 0
    ensures Pieces(tpData[..0], n) == []
  {
    assert tpData[..0] == [];
  }

  /** The chunks of shard i follow those of the shards before it. */
  lemma {:induction false} PiecesPrefix<T>(tpData: seq<seq<T>>, n: nat, i: nat)
    requires n > 0 && i < |tpData|
    ensures Pieces(tpData[..i + 1], n) == Pieces(tpData[..i], n) + TorchChunk(tpData[i], n)
    ensures Pieces(tpData[..i + 1], n) <= Pieces(tpData, n)
    decreases |tpData|
  {
    hide TorchChunk;
    assert tpData[..i + 1][..i] == tpData[..i] && tpData[..i + 1][i] == tpData[i];
    if i == |tpData| - 1 {
      assert tpData[..i + 1] == tpData;
    } else {
      var front := tpData[..|tpData| - 1];
      PiecesPrefix(front, n, i);
      assert front[..i + 1] == tpData[..i + 1];
      assert Pieces(tpData, n) == Pieces(front, n) + TorchChunk(tpData[|tpData|-1], n);
    }
  }
}
