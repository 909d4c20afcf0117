/** The fused gate and up projections: how the Megatron loader and the converter lay them out, and
    what the merger makes of tensor-parallel shards of either. */
module GateUpMerge {
  import opened Wrappers
  import opened Arithmetic
  import opened Sequences
  import opened TensorMerge

  datatype GateUp<T> = GateUp(gate: seq<T>, up: seq<T>)

  /** The h-th half of each shard. */
  function Halves<T>(tpData: seq<seq<T>>, h: nat): (r: seq<seq<T>>)
    requires h < 2 && AllHalve(tpData)
    ensures |r| == |tpData| && forall i :: 0 <= i < |r| ==> r[i] == TorchChunk(tpData[i], 2)[h]
  {
    seq(|tpData|, i requires 0 <= i < |tpData| => TorchChunk(tpData[i], 2)[h])
  }

  predicate AllHalve<T>(tpData: seq<seq<T>>) { forall i :: 0 <= i < |tpData| ==> |TorchChunk(tpData[i], 2)| == 2 }

  /** What the merger returns; None where unpacking `chunk(2)` raises. */
  function Merged<T>(tpData: seq<seq<T>>): Option<GateUp<T>> {
    if AllHalve(tpData) then Some(GateUp(Flatten(Halves(tpData, 0)), Flatten(Halves(tpData, 1)))) else None
  }

  method MergeGateUp<T>(tpData: seq<seq<T>>) returns (r: Option<GateUp<T>>)
    ensures r == Merged(tpData)
  {
    var gates: seq<seq<T>>, ups: seq<seq<T>> := [], [];
    for i := 0 to |tpData|
      invariant AllHalve(tpData[..i]) && gates == Halves(tpData[..i], 0) && ups == Halves(tpData[..i], 1)
    {
      var pieces := TorchChunk(tpData[i], 2);
      if |pieces| != 2 { return None; }
      gates, ups := gates + [pieces[0]], ups + [pieces[1]];
    }
    assert tpData[..|tpData|] == tpData;
    return Some(GateUp(Flatten(gates), Flatten(ups)));
  }

  /** The merger raises exactly on a shard of a single row. */
  lemma HalvesUnless<T>(s: seq<T>)
    ensures |TorchChunk(s, 2)| == 2 <==> |s| != 1
  {
    if |s| >= 2 {
      var size := (|s| + 1) / 2;
      assert size < |s| <= size + size;
      assert |Cut(s[size..], size)| == 1;
    }
  }

  // ---------- the loader's layout ----------

  /** The first row of slice i. */
  function Offset(i: nat, m: nat): nat { i * m }

  /** Block i of the fused weight: the i-th slice of gate above the i-th slice of up. */
  function Blocks<T>(gate: seq<T>, up: seq<T>, tp: nat, m: nat): (r: seq<seq<T>>)
    requires |gate| >= Offset(tp, m) && |up| >= Offset(tp, m)
    ensures |r| == tp
    decreases tp
  {
    if tp == 0 then []
    else
      OffsetNext(tp - 1, tp, m);
      Blocks(gate, up, tp - 1, m) + [Block(gate, up, Offset(tp - 1, m), m)]
  }

  /** The loader's loop. If tp divides the intermediate size the buffer ends up as blocks only, and
      cutting it into tp shards and merging those gives gate and up again; rows left over otherwise
      are not written. */
  method FuseGateUp<T>(gate: seq<T>, up: seq<T>, tp: nat, fused: array<T>)
    requires tp > 0 && |gate| == |up| && fused.Length == 2 * |gate|
    modifies fused
    ensures Written(fused[..], old(fused[..]), gate, up, tp, Quotient(|gate|, tp))
    ensures gate != [] && |gate| % tp == 0 ==> Merged(TorchChunk(fused[..], tp)) == Some(GateUp(gate, up))
  {
    var m := Quotient(|gate|, tp);
    OffsetFits(|gate|, tp);
    ghost var before := fused[..];
    WrittenNone(before, gate, up, m);
    hide *;
    for i := 0 to tp
      invariant Written(fused[..], before, gate, up, i, m)
    {
      BlockTurn(fused[..], before, gate, up, i, tp, m);
      CopyRows(Block(gate, up, Offset(i, m), m), fused, 2 * Offset(i, m));
    }
    if gate != [] && |gate| % tp == 0 { MergeUndoesLoop(fused[..], before, gate, up, tp); }
  }

  function Block<T>(gate: seq<T>, up: seq<T>, lo: nat, m: nat): (r: seq<T>)
    requires lo + m <= |gate| && lo + m <= |up|
    ensures |r| == m + m
  {
    gate[lo..lo + m] + up[lo..lo + m]
  }

  lemma OffsetFits(n: nat, tp: nat)
    requires tp > 0
    ensures Offset(tp, Quotient(n, tp)) <= n
  {
    DivMod(n, tp);
  }

  lemma WrittenNone<T>(before: seq<T>, gate: seq<T>, up: seq<T>, m: nat)
    requires |gate| == |up| && |before| == 2 * |gate|
    ensures Written(before, before, gate, up, 0, m)
  {
    assert before[0..] == before;
  }

  method CopyRows<T>(src: seq<T>, dst: array<T>, at: nat)
    requires at + |src| <= dst.Length
    modifies dst
    ensures dst[..] == Replaced(old(dst[..]), at, src)
  {
    ghost var before := dst[..];
    for j := 0 to |src|
      invariant dst[..] == Replaced(before, at, src[..j])
    {
      ReplacedNext(before, at, src, j);
      dst[at + j] := src[j];
    }
    assert src[..|src|] == src;
  }

  function Replaced<T>(s: seq<T>, at: nat, src: seq<T>): seq<T>
    requires at + |src| <= |s|
  {
    s[..at] + src + s[at + |src|..]
  }

  lemma ReplacedNext<T>(s: seq<T>, at: nat, src: seq<T>, j: nat)
    requires at + |src| <= |s| && j < |src|
    ensures Replaced(s, at, src[..j])[at + j := src[j]] == Replaced(s, at, src[..j + 1])
  {
  }

  /** The first n blocks are in place, the rest of the buffer is as it was. */
  ghost predicate Written<T>(now: seq<T>, before: seq<T>, gate: seq<T>, up: seq<T>, n: nat, m: nat) {
    && |gate| == |up| && |before| == 2 * |gate| && Offset(n, m) <= |gate|
    && now == Flatten(Blocks(gate, up, n, m)) + before[2 * Offset(n, m)..]
  }

  lemma {:induction false} BlocksLength<T>(gate: seq<T>, up: seq<T>, n: nat, m: nat)
    requires |gate| >= Offset(n, m) && |up| >= Offset(n, m)
    ensures Uniform(Blocks(gate, up, n, m), m + m) && |Flatten(Blocks(gate, up, n, m))| == 2 * Offset(n, m)
  {
    if n > 0 {
      OffsetNext(n - 1, n, m);
      var bs := Blocks(gate, up, n - 1, m);
      BlocksLength(gate, up, n - 1, m);
      FlattenSnoc(bs, Block(gate, up, Offset(n - 1, m), m));
      assert Blocks(gate, up, n, m) == bs + [Block(gate, up, Offset(n - 1, m), m)];
    }
  }

  lemma OffsetNext(i: nat, tp: nat, m: nat)
    requires i < tp
    ensures Offset(i + 1, m) == Offset(i, m) + m <= Offset(tp, m)
  {
    MulMonotone(i + 1, tp, m);
    assert (i + 1) * m == i * m + m;
  }

  lemma BlockTurn<T>(now: seq<T>, before: seq<T>, gate: seq<T>, up: seq<T>, i: nat, tp: nat, m: nat)
    requires Written(now, before, gate, up, i, m) && i < tp && Offset(tp, m) <= |gate|
    ensures var lo := Offset(i, m);
            && lo + m <= |gate| && |now| == |before| == 2 * |gate|
            && Written(Replaced(now, 2 * lo, Block(gate, up, lo, m)), before, gate, up, i + 1, m)
  {
    var lo := Offset(i, m);
    OffsetNext(i, tp, m);
    BlocksLength(gate, up, i, m);
    var block := Block(gate, up, lo, m);
    assert Blocks(gate, up, i + 1, m) == Blocks(gate, up, i, m) + [block];
    FlattenSnoc(Blocks(gate, up, i, m), block);
    hide *;
    BlockPlaced(now, Flatten(Blocks(gate, up, i, m)), block, before);
  }

  lemma BlockPlaced<T>(now: seq<T>, head: seq<T>, block: seq<T>, before: seq<T>)
    requires |head| + |block| <= |before| && now == head + before[|head|..]
    ensures Replaced(now, |head|, block) == (head + block) + before[|head| + |block|..]
  {
  }

  // ---------- what merging undoes ----------

  /** The loader's layout, cut into tp contiguous shards and merged, is gate and up again. */
  lemma MergeUndoesFuse<T>(w: GateUp<T>, tp: nat, m: nat)
    requires tp > 0 && m > 0 && |w.gate| == |w.up| == tp * m
    ensures Merged(TorchChunk(Flatten(Blocks(w.gate, w.up, tp, m)), tp)) == Some(w)
  {
    var bs := Blocks(w.gate, w.up, tp, m);
    BlocksLength(w.gate, w.up, tp, m);
    assert |Flatten(bs)| == tp * (m + m);
    ChunkEven(Flatten(bs), tp, m + m);
    CutFlatten(bs, m + m);
    BlockHalves(w.gate, w.up, tp, m);
    assert w.gate[..tp * m] == w.gate && w.up[..tp * m] == w.up;
  }

  /** What the loader's loop leaves in the buffer, cut into shards and merged. */
  lemma MergeUndoesLoop<T>(now: seq<T>, before: seq<T>, gate: seq<T>, up: seq<T>, tp: nat)
    requires tp > 0 && gate != [] && |gate| % tp == 0 && Written(now, before, gate, up, tp, Quotient(|gate|, tp))
    ensures Merged(TorchChunk(now, tp)) == Some(GateUp(gate, up))
  {
    var m := Quotient(|gate|, tp);
    EvenSlices(|gate|, tp);
    assert before[|before|..] == [];
    assert now == Flatten(Blocks(gate, up, tp, m));
    hide *;
    MergeUndoesFuse(GateUp(gate, up), tp, m);
  }

  lemma EvenSlices(n: nat, tp: nat)
    requires tp > 0 && n > 0 && n % tp == 0
    ensures Quotient(n, tp) > 0 && n == tp * Quotient(n, tp) && Offset(tp, Quotient(n, tp)) == n
  {
    DivMod(n, tp);
    if Quotient(n, tp) <= 0 { MulMonotone(Quotient(n, tp), 0, tp); }
  }

  lemma {:induction false} BlockHalves<T>(gate: seq<T>, up: seq<T>, n: nat, m: nat)
    requires m > 0 && |gate| >= Offset(n, m) && |up| >= Offset(n, m)
    ensures var bs := Blocks(gate, up, n, m);
            AllHalve(bs) && Flatten(Halves(bs, 0)) == gate[..Offset(n, m)] && Flatten(Halves(bs, 1)) == up[..Offset(n, m)]
  {
    if n > 0 {
      OffsetNext(n - 1, n, m);
      BlockHalves(gate, up, n - 1, m);
      var lo := Offset(n - 1, m);
      var bs, g, u := Blocks(gate, up, n - 1, m), gate[lo..lo + m], up[lo..lo + m];
      assert Blocks(gate, up, n, m) == bs + [g + u];
      hide *;
      ChunkPair(g, u);
      HalvesSnoc(bs, g, u);
      PrefixGrows(gate, lo, m);
      PrefixGrows(up, lo, m);
    }
  }

  lemma PrefixGrows<T>(s: seq<T>, lo: nat, m: nat)
    requires lo + m <= |s|
    ensures s[..lo] + s[lo..lo + m] == s[..lo + m]
  {
  }

  lemma HalvesSnoc<T>(bs: seq<seq<T>>, g: seq<T>, u: seq<T>)
    requires AllHalve(bs) && TorchChunk(g + u, 2) == [g, u]
    ensures AllHalve(bs + [g + u])
    ensures Flatten(Halves(bs + [g + u], 0)) == Flatten(Halves(bs, 0)) + g
    ensures Flatten(Halves(bs + [g + u], 1)) == Flatten(Halves(bs, 1)) + u
  {
    hide TorchChunk, Flatten;
    FlattenSnoc(Halves(bs, 0), g);
    FlattenSnoc(Halves(bs, 1), u);
    assert Halves(bs + [g + u], 0) == Halves(bs, 0) + [g] && Halves(bs + [g + u], 1) == Halves(bs, 1) + [u];
  }

  lemma ChunkPair<T>(g: seq<T>, u: seq<T>)
    requires |g| == |u| > 0
    ensures TorchChunk(g + u, 2) == [g, u]
  {
    var ps := [g, u];
    FlattenSnoc([g], u);
    FlattenSnoc([], g);
    assert [g] + [u] == ps && [] + [g] == [g];
    ChunkEven(g + u, 2, |g|);
    CutFlatten(ps, |g|);
  }

  // ---------- the converter's layout ----------

  predicate Restores(w: GateUp<nat>, tp: nat)
    requires tp > 0
  {
    Merged(TorchChunk(w.gate + w.up, tp)) == Some(w)
  }

  predicate Fused(w: GateUp<nat>, tp: nat, m: nat) { |w.gate| == |w.up| == tp * m }

  /** The converter writes all of gate above all of up. Cut into tp contiguous shards this comes back
      from the merger, for all weights, if and only if there is one shard. */
  lemma ContiguousExact(tp: nat, m: nat)
    requires tp > 0 && m > 0
    ensures (forall w | Fused(w, tp, m) :: Restores(w, tp)) <==> tp == 1
  {
    if tp == 1 {
      forall w | Fused(w, tp, m) ensures Restores(w, tp) { OneShard(w, m); }
    } else {
      MarkedIsLost(tp, m);
    }
  }

  lemma OneShard(w: GateUp<nat>, m: nat)
    requires m > 0 && Fused(w, 1, m)
    ensures Restores(w, 1)
  {
    MergeUndoesFuse(w, 1, m);
    OneBlock(w.gate, w.up, m);
  }

  lemma OneBlock(gate: seq<nat>, up: seq<nat>, m: nat)
    requires |gate| == |up| == 1 * m
    ensures Flatten(Blocks(gate, up, 1, m)) == gate + up
  {
    assert Blocks(gate, up, 0, m) == [] && gate[0 * m..1 * m] == gate && up[0 * m..1 * m] == up;
    FlattenSnoc([], gate + up);
    hide Flatten;
    assert Blocks(gate, up, 1, m) == [] + [gate + up];
  }

  /** With gate rows 0 and up rows 1 the last shard holds only up rows, half of which are taken for
      gate rows. */
  lemma MarkedIsLost(tp: nat, m: nat)
    requires tp > 1 && m > 0
    ensures exists w :: Fused(w, tp, m) && !Restores(w, tp)
  {
    var w := GateUp(Rows(tp * m, 0), Rows(tp * m, 1));
    assert Fused(w, tp, m);
    var shards := TorchChunk(w.gate + w.up, tp);
    hide *;
    LastShard(w, tp, m);
    assert shards[tp - 1][0] == 1;
    if Restores(w, tp) {
      RestoresMeans(w, tp);
      LastGate(shards, w);
    }
  }

  function Rows(n: nat, v: nat): (r: seq<nat>)
    ensures |r| == n && forall x :: x in r ==> x == v
  {
    seq(n, _ => v)
  }

  lemma RestoresMeans(w: GateUp<nat>, tp: nat)
    requires tp > 0 && Restores(w, tp)
    ensures Merged(TorchChunk(w.gate + w.up, tp)) == Some(w)
  {
  }

  /** The last of several shards is taken from up. */
  lemma LastShard(w: GateUp<nat>, tp: nat, m: nat)
    requires tp > 1 && m > 0 && Fused(w, tp, m)
    ensures var shards := TorchChunk(w.gate + w.up, tp);
            |shards| == tp && |shards[tp - 1]| > 1 && shards[tp - 1][0] in w.up
  {
    var rows := w.gate + w.up;
    var at := Position(tp - 1, m + m, 0);
    LastStart(tp, m);
    hide Fused, Position;
    ChunkEven(rows, tp, m + m);
    CutAt(rows, m + m, tp, tp - 1, 0);
    assert rows[at] == w.up[at - |w.gate|];
  }

  lemma LastStart(tp: nat, m: nat)
    requires tp > 1
    ensures Position(tp - 1, m + m, 0) >= tp * m && tp * m + tp * m == tp * (m + m)
  {
    MulMonotone(2, tp, m);
    assert (tp - 1) * (m + m) == tp * m + tp * m - (m + m);
  }

  lemma LastGate(shards: seq<seq<nat>>, w: GateUp<nat>)
    requires |shards| > 0 && |shards[|shards|-1]| > 1 && Merged(shards) == Some(w)
    ensures shards[|shards|-1][0] in w.gate
  {
    var last := |shards| - 1;
    RoundedUp(|shards[last]|, 2);
    CutStart(shards[last], (|shards[last]| + 1) / 2);
    FlattenMember(Halves(shards, 0), last, shards[last][0]);
  }

  lemma CutStart<T>(s: seq<T>, n: nat)
    requires n > 0 && s != []
    ensures Cut(s, n)[0] != [] && Cut(s, n)[0][0] == s[0]
  {
  }
}
