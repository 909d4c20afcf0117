/** What the bucket packing of the senders guarantees, for every list of tensors and bucket size. */
module PackingLaws {
  import opened Buckets
  import opened Sequences

  // ---------- what a receiver makes of a bucket ----------

  /** Python slicing `data[lo : lo + n]`, which stops at the end of the buffer. */
  function Slice(data: seq<byte>, lo: nat, n: nat): seq<byte> {
    if lo + n <= |data| then data[lo..lo + n] else if lo <= |data| then data[lo..] else []
  }

  function Read(data: seq<byte>, m: Meta): Weight {
    Weight(m.name, m.shape, m.dtype, Slice(data, m.offset, m.Size()))
  }

  /** The tensors a receiver yields from one bucket, in the order of the metadata dict. */
  function Yields(b: Bucket): (ws: seq<Weight>)
    ensures |ws| == |b.meta|
  {
    seq(|b.meta|, i requires 0 <= i < |b.meta| => Read(b.data, b.meta[i]))
  }

  function AllYields(bs: seq<Bucket>): seq<Weight> {
    if bs == [] then [] else Yields(bs[0]) + AllYields(bs[1..])
  }

  function TotalBytes(bs: seq<Bucket>): nat {
    if bs == [] then 0 else |bs[0].data| + TotalBytes(bs[1..])
  }

  function WeightBytes(ws: seq<Weight>): nat {
    if ws == [] then 0 else |ws[0].data| + WeightBytes(ws[1..])
  }

  predicate Fits(ws: seq<Weight>, size: nat) { forall w <- ws :: |w.data| <= size }

  predicate AllValid(ws: seq<Weight>) { forall w <- ws :: w.Valid() }

  // ---------- the transfer completes exactly when every tensor fits ----------

  lemma {:induction false} PackOkIffFits(ws: seq<Weight>, size: nat, data: seq<byte>, meta: seq<Meta>)
    ensures PackFrom(ws, size, data, meta).ok <==> Fits(ws, size)
  {
    if ws != [] {
      var w := ws[0];
      assert forall x :: x in ws <==> x == w || x in ws[1..];
      if |data| + |w.data| <= size {
        PackOkIffFits(ws[1..], size, data + w.data, MetaPut(meta, Entry(w, |data|)));
      } else if |w.data| <= size {
        PackOkIffFits(ws[1..], size, w.data, [Entry(w, 0)]);
      }
    }
  }

  /** The same buckets, but for the flag of the last one. */
  function Unfinished(bs: seq<Bucket>): seq<Bucket>
    requires bs != []
  {
    bs[..|bs|-1] + [bs[|bs|-1].(last := false)]
  }

  lemma {:induction false} PackStops(ws: seq<Weight>, size: nat, data: seq<byte>, meta: seq<Meta>, i: nat)
    requires i < |ws| && Fits(ws[..i], size) && |ws[i].data| > size
    ensures PackFrom(ws[..i], size, data, meta).sent != []
    ensures PackFrom(ws, size, data, meta) == Packing(Unfinished(PackFrom(ws[..i], size, data, meta).sent), false)
  {
    if i == 0 {
      assert ws[..0] == [];
    } else {
      var w, more := ws[0], ws[1..];
      assert ws[..i][0] == w && ws[..i][1..] == more[..i - 1] && w in ws[..i] && more[i - 1] == ws[i];
      assert Fits(more[..i - 1], size) by { assert forall x <- more[..i - 1] :: x in ws[..i]; }
      if |data| + |w.data| <= size {
        PackStops(more, size, data + w.data, MetaPut(meta, Entry(w, |data|)), i - 1);
      } else {
        PackStops(more, size, w.data, [Entry(w, 0)], i - 1);
        UnfinishedCons(Bucket(data, meta, false), PackFrom(more[..i - 1], size, w.data, [Entry(w, 0)]).sent);
      }
    }
  }

  lemma UnfinishedCons(b: Bucket, bs: seq<Bucket>)
    requires bs != []
    ensures Unfinished([b] + bs) == [b] + Unfinished(bs)
  {
  }

  /** A transfer that fails has sent what the tensors before the first oversized one make up, the bucket
      under construction included, without flagging any bucket as the last. */
  lemma PackFails(ws: seq<Weight>, size: nat, i: nat)
    requires i < |ws| && Fits(ws[..i], size) && |ws[i].data| > size
    ensures Pack(ws[..i], size).sent != [] && Pack(ws, size) == Packing(Unfinished(Pack(ws[..i], size).sent), false)
  {
    PackStops(ws, size, [], [], i);
  }

  // ---------- shape of the buckets ----------

  predicate WellPacked(bs: seq<Bucket>, size: nat) {
    && |bs| >= 1
    && (forall i :: 0 <= i < |bs| ==> |bs[i].data| <= size && (bs[i].last <==> i == |bs| - 1))
    && (forall i :: 0 <= i < |bs| - 1 ==> |bs[i].data| > 0 && |bs[i].data| + |bs[i+1].data| > size)
  }

  lemma {:induction false} PackShape(ws: seq<Weight>, size: nat, data: seq<byte>, meta: seq<Meta>)
    requires Fits(ws, size) && |data| <= size
    ensures var bs := PackFrom(ws, size, data, meta).sent;
            WellPacked(bs, size) && data <= bs[0].data && TotalBytes(bs) == |data| + WeightBytes(ws)
  {
    if ws != [] {
      var w := ws[0];
      if |data| + |w.data| <= size {
        PackShape(ws[1..], size, data + w.data, MetaPut(meta, Entry(w, |data|)));
      } else {
        PackShape(ws[1..], size, w.data, [Entry(w, 0)]);
        assert w in ws;
        hide PackFrom;
        FlushShape(Bucket(data, meta, false), PackFrom(ws[1..], size, w.data, [Entry(w, 0)]).sent, size);
      }
    }
  }

  /** A bucket sent before well packed ones, because the first tensor of those did not fit. */
  lemma FlushShape(b: Bucket, rest: seq<Bucket>, size: nat)
    requires WellPacked(rest, size) && 0 < |b.data| <= size < |b.data| + |rest[0].data| && !b.last
    ensures WellPacked([b] + rest, size) && TotalBytes([b] + rest) == |b.data| + TotalBytes(rest)
  {
    var bs := [b] + rest;
    assert bs[1..] == rest && forall i :: 1 <= i < |bs| ==> bs[i] == rest[i-1];
  }

  /** Consecutive buckets together exceed the bucket size, so at least half the space is used. */
  lemma {:induction false} HalfFull(bs: seq<Bucket>, size: nat, pairs: nat)
    requires WellPacked(bs, size) && 1 <= pairs && 2 * pairs <= |bs|
    ensures pairs * size < TotalBytes(bs)
  {
    var rest := bs[2..];
    assert bs[1..][1..] == rest;
    assert TotalBytes(bs) == |bs[0].data| + |bs[1].data| + TotalBytes(rest);
    if pairs >= 2 {
      HalfFull(rest, size, pairs - 1);
      assert pairs * size == (pairs - 1) * size + size;
    }
  }

  /** The buckets of a completed transfer: bounded, non-empty but for the final one, only the final
      one flagged, no two neighbours mergeable, every byte sent once, and hence not many of them. */
  lemma PackingBounds(ws: seq<Weight>, size: nat)
    requires Fits(ws, size)
    ensures var bs := Pack(ws, size).sent;
            && WellPacked(bs, size)
            && TotalBytes(bs) == WeightBytes(ws)
            && (|bs| >= 2 ==> (|bs| / 2) * size < WeightBytes(ws))
  {
    PackShape(ws, size, [], []);
    if |Pack(ws, size).sent| >= 2 { HalfFull(Pack(ws, size).sent, size, |Pack(ws, size).sent| / 2); }
  }

  // ---------- which weights share a bucket ----------

  function Bytes(g: seq<Weight>): seq<byte> {
    if g == [] then [] else Bytes(g[..|g|-1]) + g[|g|-1].data
  }

  /** The metadata dict after the weights of `g` were placed one behind the other. */
  function MetaOf(g: seq<Weight>): seq<Meta> {
    if g == [] then []
    else var p := g[..|g|-1]; MetaPut(MetaOf(p), Entry(g[|g|-1], |Bytes(p)|))
  }

  /** Greedy grouping by size alone: what a caller can compute from the tensor list beforehand. */
  function GroupFrom(ws: seq<Weight>, size: nat, g: seq<Weight>): seq<seq<Weight>> {
    if ws == [] then [g]
    else if |Bytes(g)| + |ws[0].data| <= size then GroupFrom(ws[1..], size, g + [ws[0]])
    else [g] + GroupFrom(ws[1..], size, [ws[0]])
  }

  function Groups(ws: seq<Weight>, size: nat): seq<seq<Weight>> { GroupFrom(ws, size, []) }

  predicate DistinctNames(g: seq<Weight>) {
    forall i, j :: 0 <= i < j < |g| ==> g[i].name != g[j].name
  }

  lemma BytesAppend(g: seq<Weight>, w: Weight)
    ensures Bytes(g + [w]) == Bytes(g) + w.data
    ensures MetaOf(g + [w]) == MetaPut(MetaOf(g), Entry(w, |Bytes(g)|))
  {
    assert (g + [w])[..|g|] == g;
  }

  lemma {:induction false} GroupsFlatten(ws: seq<Weight>, size: nat, g: seq<Weight>)
    ensures Flatten(GroupFrom(ws, size, g)) == g + ws
  {
    if ws == [] {
      assert Flatten([g]) == g + Flatten([]);
    } else if |Bytes(g)| + |ws[0].data| <= size {
      GroupsFlatten(ws[1..], size, g + [ws[0]]);
      assert g + [ws[0]] + ws[1..] == g + ws;
    } else {
      GroupsFlatten(ws[1..], size, [ws[0]]);
      assert [ws[0]] + ws[1..] == ws;
      assert ([g] + GroupFrom(ws[1..], size, [ws[0]]))[1..] == GroupFrom(ws[1..], size, [ws[0]]);
    }
  }

  predicate SameBucket(b: Bucket, g: seq<Weight>) { b.data == Bytes(g) && b.meta == MetaOf(g) }

  predicate SameBuckets(bs: seq<Bucket>, gs: seq<seq<Weight>>) {
    |bs| == |gs| && forall i :: 0 <= i < |bs| ==> SameBucket(bs[i], gs[i])
  }

  lemma SameBucketsCons(b: Bucket, bs: seq<Bucket>, g: seq<Weight>, gs: seq<seq<Weight>>)
    requires SameBucket(b, g) && SameBuckets(bs, gs)
    ensures SameBuckets([b] + bs, [g] + gs)
  {
  }

  /** Each bucket holds exactly the bytes and the dict of its group. */
  lemma {:induction false} PackIsGrouped(ws: seq<Weight>, size: nat, data: seq<byte>, meta: seq<Meta>, g: seq<Weight>)
    requires Fits(ws, size) && data == Bytes(g) && meta == MetaOf(g)
    ensures SameBuckets(PackFrom(ws, size, data, meta).sent, GroupFrom(ws, size, g))
  {
    if ws != [] {
      var w := ws[0];
      hide Bytes, MetaOf, MetaPut;
      if |data| + |w.data| <= size {
        BytesAppend(g, w);
        PackIsGrouped(ws[1..], size, data + w.data, MetaPut(meta, Entry(w, |data|)), g + [w]);
      } else {
        SingleBucket(w);
        PackIsGrouped(ws[1..], size, w.data, [Entry(w, 0)], [w]);
        SameBucketsCons(Bucket(data, meta, false), PackFrom(ws[1..], size, w.data, [Entry(w, 0)]).sent,
                        g, GroupFrom(ws[1..], size, [w]));
      }
    }
  }

  lemma SingleBucket(w: Weight)
    ensures Bytes([w]) == w.data && MetaOf([w]) == [Entry(w, 0)]
  {
    EmptyBucket();
    hide *;
    BytesAppend([], w);
    assert [] + [w] == [w] && [] + w.data == w.data;
    PutFirst(Entry(w, 0));
  }

  lemma EmptyBucket()
    ensures Bytes([]) == [] && MetaOf([]) == []
  {
  }

  lemma PutFirst(m: Meta)
    ensures MetaPut([], m) == [m]
  {
  }

  // ---------- names: when a dict holds one entry per weight ----------

  function Names(meta: seq<Meta>): set<string> {
    if meta == [] then {} else {meta[0].name} + Names(meta[1..])
  }

  function WeightNames(g: seq<Weight>): set<string> {
    if g == [] then {} else WeightNames(g[..|g|-1]) + {g[|g|-1].name}
  }

  lemma {:induction false} MetaPutLength(meta: seq<Meta>, m: Meta)
    ensures Names(MetaPut(meta, m)) == Names(meta) + {m.name}
    ensures m.name !in Names(meta) ==> MetaPut(meta, m) == meta + [m]
    ensures m.name in Names(meta) ==> |MetaPut(meta, m)| == |meta|
  {
    if meta != [] {
      if meta[0].name == m.name {
        assert ([m] + meta[1..])[1..] == meta[1..];
      } else {
        MetaPutLength(meta[1..], m);
        var r := MetaPut(meta[1..], m);
        assert ([meta[0]] + r)[1..] == r;
        assert [meta[0]] + (meta[1..] + [m]) == meta + [m];
      }
    }
  }

  lemma {:induction false} WeightNamesMember(g: seq<Weight>, n: string)
    ensures n in WeightNames(g) <==> exists i :: 0 <= i < |g| && g[i].name == n
  {
    if g != [] {
      var p := g[..|g|-1];
      WeightNamesMember(p, n);
      assert forall i :: 0 <= i < |p| ==> p[i] == g[i];
      if n in WeightNames(p) {
        var i :| 0 <= i < |p| && p[i].name == n;
        assert g[i].name == n;
      }
    }
  }

  lemma DistinctStep(g: seq<Weight>)
    requires g != []
    ensures var p := g[..|g|-1];
            DistinctNames(g) <==> DistinctNames(p) && g[|g|-1].name !in WeightNames(p)
  {
    var p, n := g[..|g|-1], g[|g|-1].name;
    assert forall i :: 0 <= i < |p| ==> p[i] == g[i];
    WeightNamesMember(p, n);
  }

  lemma {:induction false} MetaOfNames(g: seq<Weight>)
    ensures Names(MetaOf(g)) == WeightNames(g)
    ensures |MetaOf(g)| <= |g|
    ensures |MetaOf(g)| == |g| <==> DistinctNames(g)
  {
    if g != [] {
      var p, w := g[..|g|-1], g[|g|-1];
      MetaOfNames(p);
      MetaPutLength(MetaOf(p), Entry(w, |Bytes(p)|));
      DistinctStep(g);
    }
  }

  /** With distinct names every weight keeps its own entry, at the offset where its bytes start:
      the tensors of a bucket are contiguous and disjoint. */
  lemma {:induction false} MetaOfDistinct(g: seq<Weight>, i: nat)
    requires DistinctNames(g) && i < |g|
    ensures |MetaOf(g)| == |g| && MetaOf(g)[i] == Entry(g[i], |Bytes(g[..i])|)
    ensures Bytes(g[..i]) + g[i].data <= Bytes(g)
  {
    var p, w := g[..|g|-1], g[|g|-1];
    DistinctStep(g);
    MetaOfNames(p);
    MetaPutLength(MetaOf(p), Entry(w, |Bytes(p)|));
    if i < |p| {
      MetaOfDistinct(p, i);
      assert p[..i] == g[..i] && p[i] == g[i];
    }
  }

  lemma ReadEntry(data: seq<byte>, before: seq<byte>, w: Weight)
    requires w.Valid() && before + w.data <= data
    ensures Read(data, Entry(w, |before|)) == w
  {
    var hi := |before| + |w.data|;
    assert data[..hi] == before + w.data;
    assert data[|before|..hi] == data[..hi][|before|..];
  }

  lemma YieldAt(b: Bucket, g: seq<Weight>, i: nat)
    requires AllValid(g) && DistinctNames(g) && i < |g|
    requires b.data == Bytes(g) && b.meta == MetaOf(g)
    ensures i < |Yields(b)| && Yields(b)[i] == g[i]
  {
    MetaOfDistinct(g, i);
    ReadEntry(b.data, Bytes(g[..i]), g[i]);
  }

  /** One bucket gives its weights back exactly when their names are distinct. */
  lemma {:induction false} BucketRoundTrip(b: Bucket, g: seq<Weight>)
    requires AllValid(g) && b.data == Bytes(g) && b.meta == MetaOf(g)
    ensures Yields(b) == g <==> DistinctNames(g)
    ensures |Yields(b)| <= |g| && (|Yields(b)| == |g| <==> DistinctNames(g))
  {
    MetaOfNames(g);
    if DistinctNames(g) {
      forall i: nat | i < |g| { YieldAt(b, g, i); }
    }
  }

  /** Entry i reads the bytes of tensor i at its offset. */
  lemma {:induction false} EntryRead(b: Bucket, g: seq<Weight>, i: nat)
    requires AllValid(g) && DistinctNames(g) && i < |g| && b.meta == MetaOf(g) && |b.data| == |Bytes(g)| && Yields(b) == g
    ensures var at := |Bytes(g[..i])|; at + |g[i].data| <= |b.data| && b.data[at..at + |g[i].data|] == g[i].data
  {
    MetaOfDistinct(g, i);
    assert g[i] in g && g[i].Valid();
    assert Yields(b)[i] == Read(b.data, b.meta[i]);
    hide Bytes, MetaOf, Yields, AllValid, DistinctNames;
  }

  lemma {:induction false} ReadsPrefix(b: Bucket, g: seq<Weight>, n: nat)
    requires AllValid(g) && DistinctNames(g) && n <= |g| && b.meta == MetaOf(g) && |b.data| == |Bytes(g)| && Yields(b) == g
    ensures |Bytes(g[..n])| <= |b.data| && b.data[..|Bytes(g[..n])|] == Bytes(g[..n])
  {
    hide AllValid, DistinctNames, MetaOf, Yields, Bytes;
    if n == 0 {
      NoBytes(g);
    } else {
      ReadsPrefix(b, g, n - 1);
      EntryRead(b, g, n - 1);
      BytesPrefix(g, n - 1);
      JoinSlices(b.data, |Bytes(g[..n - 1])|, |g[n - 1].data|);
    }
  }

  lemma JoinSlices(d: seq<byte>, at: nat, n: nat)
    requires at + n <= |d|
    ensures d[..at] + d[at..at + n] == d[..at + n]
  {
  }

  lemma NoBytes(g: seq<Weight>)
    ensures Bytes(g[..0]) == []
  {
  }

  lemma {:induction false} BytesPrefix(g: seq<Weight>, i: nat)
    requires i < |g|
    ensures Bytes(g[..i + 1]) == Bytes(g[..i]) + g[i].data
  {
    BytesAppend(g[..i], g[i]);
    assert g[..i] + [g[i]] == g[..i + 1];
  }

  /** Reading all tensors of distinct names right means that the bytes are right. */
  lemma {:induction false} YieldsDetermine(b: Bucket, g: seq<Weight>)
    requires AllValid(g) && DistinctNames(g) && b.meta == MetaOf(g) && |b.data| == |Bytes(g)| && Yields(b) == g
    ensures b.data == Bytes(g)
  {
    ReadsPrefix(b, g, |g|);
    hide *;
    assert g[..|g|] == g;
  }

  lemma {:induction false} AllRoundTrip(bs: seq<Bucket>, gs: seq<seq<Weight>>)
    requires AllValid(Flatten(gs))
    requires SameBuckets(bs, gs)
    ensures |AllYields(bs)| <= |Flatten(gs)|
    ensures AllYields(bs) == Flatten(gs) <==> forall g <- gs :: DistinctNames(g)
    ensures |AllYields(bs)| == |Flatten(gs)| ==> forall g <- gs :: DistinctNames(g)
  {
    if bs != [] {
      assert AllValid(gs[0]) by { assert forall w <- gs[0] :: w in Flatten(gs); }
      assert AllValid(Flatten(gs[1..])) by { assert forall w <- Flatten(gs[1..]) :: w in Flatten(gs); }
      BucketRoundTrip(bs[0], gs[0]);
      AllRoundTrip(bs[1..], gs[1..]);
      assert forall g :: g in gs <==> g == gs[0] || g in gs[1..];
    }
  }

  /** The receivers get back exactly the tensors that were sent, in order, if and only if no two
      tensors of equal name are packed into the same bucket. */
  lemma PackRoundTrip(ws: seq<Weight>, size: nat)
    requires Fits(ws, size) && AllValid(ws)
    ensures AllYields(Pack(ws, size).sent) == ws <==> forall g <- Groups(ws, size) :: DistinctNames(g)
  {
    PackIsGrouped(ws, size, [], [], []);
    GroupsFlatten(ws, size, []);
    assert [] + ws == ws;
    AllRoundTrip(Pack(ws, size).sent, Groups(ws, size));
  }

  // ---------- buckets in buffers ----------

  /** Writes `d` over `m` starting at `at`. */
  function Overlay(m: seq<byte>, at: nat, d: seq<byte>): seq<byte>
    requires at + |d| <= |m|
  {
    m[..at] + d + m[at + |d|..]
  }

  lemma OverlayGrows(d: seq<byte>, m: seq<byte>, got: nat, n: nat)
    requires got + n <= |d| && got + n <= |m| && d[..got] <= m
    ensures d[..got + n] <= Overlay(m, got, d[got..got + n])
  {
    assert d[..got + n] == d[..got] + d[got..got + n];
  }

  /** Reading a tensor out of a buffer that begins with the bucket. */
  lemma ReadPrefix(d: seq<byte>, mem: seq<byte>, m: Meta)
    requires d <= mem && m.offset + m.Size() <= |d|
    ensures Read(mem, m) == Read(d, m)
  {
    assert mem[m.offset..m.offset + m.Size()] == mem[..|d|][m.offset..m.offset + m.Size()];
  }

  lemma {:induction false} AllYieldsAppend(bs: seq<Bucket>, b: Bucket)
    ensures AllYields(bs + [b]) == AllYields(bs) + Yields(b)
  {
    if bs == [] {
      assert [] + [b] == [b] && [b][1..] == [];
    } else {
      AllYieldsAppend(bs[1..], b);
      assert (bs + [b])[1..] == bs[1..] + [b];
    }
  }

  lemma {:induction false} AllYieldsSplit(bs: seq<Bucket>, k: nat)
    requires k < |bs|
    ensures AllYields(bs) == AllYields(bs[..k]) + Yields(bs[k]) + AllYields(bs[k + 1..])
  {
    if k == 0 {
      assert bs[..0] == [];
    } else {
      var first, front, behind := Yields(bs[0]), AllYields(bs[1..][..k - 1]), AllYields(bs[k + 1..]);
      assert bs[..k][0] == bs[0] && bs[..k][1..] == bs[1..][..k - 1] && bs[1..][k..] == bs[k + 1..];
      assert AllYields(bs[..k]) == first + front && AllYields(bs) == first + AllYields(bs[1..]);
      AllYieldsSplit(bs[1..], k - 1);
      hide *;
      Assoc(first, front, Yields(bs[k]));
      Assoc(first, front + Yields(bs[k]), behind);
    }
  }

  /** A bucket fits the buffer, only the final one is flagged, and its tensors lie inside it. */
  predicate BucketOk(bs: seq<Bucket>, size: nat, k: nat)
    requires k < |bs|
  {
    && |bs[k].data| <= size
    && (bs[k].last <==> k == |bs| - 1)
    && forall m <- bs[k].meta :: m.offset + m.Size() <= |bs[k].data|
  }

  lemma {:induction false} MetaPutMember(meta: seq<Meta>, m: Meta, x: Meta)
    requires x in MetaPut(meta, m)
    ensures x == m || x in meta
  {
    if meta != [] && meta[0].name != m.name && x != meta[0] { MetaPutMember(meta[1..], m, x); }
  }

  lemma {:induction false} MetaInside(g: seq<Weight>)
    requires AllValid(g)
    ensures forall m <- MetaOf(g) :: m.offset + m.Size() <= |Bytes(g)|
  {
    if g != [] {
      var p, w := g[..|g|-1], g[|g|-1];
      assert AllValid(p) by { assert forall x <- p :: x in g; }
      MetaInside(p);
      assert w in g && w.Valid();
      var e := Entry(w, |Bytes(p)|);
      assert e.Size() == |w.data|;
      forall m | m in MetaOf(g) ensures m.offset + m.Size() <= |Bytes(g)| {
        MetaPutMember(MetaOf(p), e, m);
      }
    }
  }

  /** Buckets as the packing makes them are fit for a transfer. */
  lemma PackedBucketsOk(ws: seq<Weight>, size: nat)
    requires Fits(ws, size) && AllValid(ws)
    ensures var bs := Pack(ws, size).sent; |bs| >= 1 && forall k :: 0 <= k < |bs| ==> BucketOk(bs, size, k)
  {
    var bs, gs := Pack(ws, size).sent, Groups(ws, size);
    PackingBounds(ws, size);
    PackIsGrouped(ws, size, [], [], []);
    GroupsFlatten(ws, size, []);
    forall k | 0 <= k < |bs| ensures BucketOk(bs, size, k) {
      assert SameBucket(bs[k], gs[k]);
      assert AllValid(gs[k]) by {
        forall w: Weight | w in gs[k] ensures w.Valid() { FlattenMember(gs, k, w); }
      }
      MetaInside(gs[k]);
    }
  }

  /** Bucket k holds the tensors of group k. */
  lemma PackedGroup(ws: seq<Weight>, size: nat, k: nat)
    requires Fits(ws, size) && AllValid(ws) && k < |Pack(ws, size).sent|
    ensures var b, gs := Pack(ws, size).sent[k], Groups(ws, size);
            k < |gs| && b.data == Bytes(gs[k]) && b.meta == MetaOf(gs[k]) && AllValid(gs[k]) && gs[k] in gs
  {
    var bs, gs := Pack(ws, size).sent, Groups(ws, size);
    PackIsGrouped(ws, size, [], [], []);
    GroupsFlatten(ws, size, []);
    assert SameBucket(bs[k], gs[k]);
    forall w: Weight | w in gs[k] ensures w.Valid() { FlattenMember(gs, k, w); }
  }

  // ---------- the size of a tensor ----------

  /** The elements of a tensor are as many as the product of its dimensions. */
  lemma {:induction false} NumelProduct(shape: seq<nat>, more: seq<nat>, n: nat)
    ensures Numel([n]) == n
    ensures Numel(shape + more) == Numel(shape) * Numel(more)
  {
    assert [n][1..] == [];
    if shape == [] {
      assert shape + more == more;
    } else {
      NumelProduct(shape[1..], more, n);
      assert (shape + more)[0] == shape[0] && (shape + more)[1..] == shape[1..] + more;
      var x, y, z := shape[0], Numel(shape[1..]), Numel(more);
      assert x * (y * z) == (x * y) * z;
    }
  }
}
