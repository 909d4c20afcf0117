/** Dicts keyed by tensor name, as the buckets are: a known name keeps its place and takes the new
    tensor. What a bucket gives back when names are repeated in it. */
module NamedDict {
  import opened Buckets
  import opened PackingLaws

  /** `d[name] = tensor`: a dict in insertion order, one entry per name. */
  function Put(d: seq<Weight>, w: Weight): seq<Weight> {
    if d == [] then [w] else if d[0].name == w.name then [w] + d[1..] else [d[0]] + Put(d[1..], w)
  }

  function DictOf(g: seq<Weight>): seq<Weight> {
    if g == [] then [] else Put(DictOf(g[..|g|-1]), g[|g|-1])
  }

  // ---------- what the dict of a list holds ----------

  /** No later tensor of the list has the name of the i-th. */
  predicate LastNamed(g: seq<Weight>, i: nat) { i < |g| && forall j :: i < j < |g| ==> g[j].name != g[i].name }

  /** Name m appears in the list before name n does. */
  predicate Precedes(g: seq<Weight>, m: string, n: string) {
    exists a :: 0 <= a < |g| && g[a].name == m && forall b :: 0 <= b <= a ==> g[b].name != n
  }

  predicate Comes(g: seq<Weight>, w: Weight) { exists i :: 0 <= i < |g| && LastNamed(g, i) && g[i] == w }

  /** For each name the last tensor that has it, in the order in which the names first appear. */
  predicate Keyed(d: seq<Weight>, g: seq<Weight>) {
    && (forall i :: 0 <= i < |g| && LastNamed(g, i) ==> g[i] in d)
    && (forall k :: 0 <= k < |d| ==> Comes(g, d[k]))
    && (forall k, l :: 0 <= k < l < |d| ==> Precedes(g, d[k].name, d[l].name))
  }

  lemma {:induction false} PutIs(d: seq<Weight>, w: Weight) returns (j: nat)
    ensures j <= |d| && (forall k :: 0 <= k < j ==> d[k].name != w.name)
    ensures if j < |d| then d[j].name == w.name && Put(d, w) == d[j := w] else Put(d, w) == d + [w]
  {
    if d == [] || d[0].name == w.name {
      j := 0;
    } else {
      var i := PutIs(d[1..], w);
      j := i + 1;
      assert d == [d[0]] + d[1..];
    }
  }

  lemma PrecedesMore(g: seq<Weight>, w: Weight, m: string, n: string)
    requires Precedes(g, m, n)
    ensures Precedes(g + [w], m, n)
  {
    var a :| 0 <= a < |g| && g[a].name == m && forall b :: 0 <= b <= a ==> g[b].name != n;
    var h := g + [w];
    assert h[a].name == m && forall b :: 0 <= b <= a ==> h[b] == g[b];
  }

  lemma LastMore(g: seq<Weight>, w: Weight, i: nat)
    ensures i < |g| ==> (LastNamed(g + [w], i) <==> LastNamed(g, i) && g[i].name != w.name)
    ensures LastNamed(g + [w], |g|) && (g + [w])[|g|] == w
  {
    var h := g + [w];
    assert forall j :: 0 <= j < |g| ==> h[j] == g[j];
    assert h[|g|] == w;
  }

  lemma ComesMore(g: seq<Weight>, w: Weight, x: Weight)
    requires Comes(g, x) && x.name != w.name
    ensures Comes(g + [w], x)
  {
    var i :| 0 <= i < |g| && LastNamed(g, i) && g[i] == x;
    LastMore(g, w, i);
    assert (g + [w])[i] == x;
  }

  /** Every name of the list has a last tensor. */
  lemma {:induction false} HasLast(g: seq<Weight>, i: nat) returns (j: nat)
    requires i < |g|
    ensures LastNamed(g, j) && g[j].name == g[i].name
    decreases |g| - i
  {
    if k :| i < k < |g| && g[k].name == g[i].name { j := HasLast(g, k); } else { j := i; }
  }

  lemma ReplaceKeyed(d: seq<Weight>, g: seq<Weight>, w: Weight, j: nat)
    requires Keyed(d, g) && j < |d| && d[j].name == w.name
    ensures Keyed(d[j := w], g + [w])
  {
    var e, h := d[j := w], g + [w];
    hide Precedes, Comes, LastNamed;
    forall k | 0 <= k < |d| && k != j ensures d[k].name != w.name { KeyedApart(d, g, k, j); }
    forall i | 0 <= i < |h| && LastNamed(h, i) ensures h[i] in e {
      LastMore(g, w, i);
      LastIn(h, i);
      if i < |g| {
        assert g[i] in d && h[i] == g[i];
        var k :| 0 <= k < |d| && d[k] == g[i];
        assert e[k] == d[k];
      } else {
        assert e[j] == w == h[i];
      }
    }
    forall k | 0 <= k < |e| ensures Comes(h, e[k]) {
      if k == j { LastComes(g, w); } else { ComesMore(g, w, d[k]); }
    }
    forall k, l | 0 <= k < l < |e| ensures Precedes(h, e[k].name, e[l].name) {
      assert e[k].name == d[k].name && e[l].name == d[l].name;
      PrecedesMore(g, w, d[k].name, d[l].name);
    }
  }

  lemma LastIn(g: seq<Weight>, i: nat)
    requires LastNamed(g, i)
    ensures i < |g|
  {
  }

  lemma LastComes(g: seq<Weight>, w: Weight)
    ensures Comes(g + [w], w)
  {
    LastMore(g, w, |g|);
  }

  /** The names of the dict are distinct. */
  lemma KeyedApart(d: seq<Weight>, g: seq<Weight>, k: nat, l: nat)
    requires Keyed(d, g) && k < |d| && l < |d| && k != l
    ensures d[k].name != d[l].name
  {
    hide Comes, LastNamed;
    assert Precedes(g, d[if k < l then k else l].name, d[if k < l then l else k].name);
  }

  lemma AppendKeyed(d: seq<Weight>, g: seq<Weight>, w: Weight)
    requires Keyed(d, g) && forall k :: 0 <= k < |d| ==> d[k].name != w.name
    ensures Keyed(d + [w], g + [w])
  {
    var e, h := d + [w], g + [w];
    NewName(d, g, w.name);
    hide Precedes, Comes, LastNamed;
    forall i | 0 <= i < |h| && LastNamed(h, i) ensures h[i] in e {
      LastMore(g, w, i);
      LastIn(h, i);
      if i < |g| { assert g[i] in d && h[i] == g[i]; } else { assert e[|d|] == w == h[i]; }
    }
    forall k | 0 <= k < |e| ensures Comes(h, e[k]) {
      if k == |d| { LastComes(g, w); } else { ComesMore(g, w, d[k]); }
    }
    forall k, l | 0 <= k < l < |e| ensures Precedes(h, e[k].name, e[l].name) {
      if l < |d| { PrecedesMore(g, w, d[k].name, d[l].name); } else { PrecedesNew(g, w, d[k]); }
    }
  }

  lemma NewName(d: seq<Weight>, g: seq<Weight>, n: string)
    requires Keyed(d, g) && forall k :: 0 <= k < |d| ==> d[k].name != n
    ensures forall i :: 0 <= i < |g| ==> g[i].name != n
  {
    hide Precedes, Comes, LastNamed;
    forall i | 0 <= i < |g| ensures g[i].name != n {
      var j := HasLast(g, i);
      LastIn(g, j);
      assert g[j] in d;
    }
  }

  lemma PrecedesNew(g: seq<Weight>, w: Weight, x: Weight)
    requires Comes(g, x) && forall i :: 0 <= i < |g| ==> g[i].name != w.name
    ensures Precedes(g + [w], x.name, w.name)
  {
    var a :| 0 <= a < |g| && LastNamed(g, a) && g[a] == x;
    var h := g + [w];
    assert h[a].name == x.name && forall b :: 0 <= b <= a ==> h[b] == g[b];
  }

  /** The dict of a list holds for each name the last tensor, at the place of the first. */
  lemma {:induction false} DictKeyed(g: seq<Weight>)
    ensures Keyed(DictOf(g), g)
  {
    if g != [] {
      var p, w := g[..|g|-1], g[|g|-1];
      DictKeyed(p);
      assert g == p + [w];
      var d := DictOf(p);
      assert DictOf(g) == Put(d, w);
      hide Keyed, Put, DictOf;
      var j := PutIs(d, w);
      if j < |d| { ReplaceKeyed(d, p, w, j); } else { AppendKeyed(d, p, w); }
    }
  }

  // ---------- what a bucket gives back ----------

  function ReadAll(data: seq<byte>, meta: seq<Meta>): (r: seq<Weight>)
    ensures |r| == |meta| && forall i :: 0 <= i < |r| ==> r[i] == Read(data, meta[i])
  {
    seq(|meta|, i requires 0 <= i < |meta| => Read(data, meta[i]))
  }

  lemma {:induction false} ReadPut(data: seq<byte>, meta: seq<Meta>, m: Meta)
    ensures ReadAll(data, MetaPut(meta, m)) == Put(ReadAll(data, meta), Read(data, m))
  {
    hide Slice;
    if meta != [] {
      var all := ReadAll(data, meta);
      assert all[0].name == meta[0].name && all[1..] == ReadAll(data, meta[1..]);
      if meta[0].name != m.name { ReadPut(data, meta[1..], m); }
    }
  }

  predicate Within(meta: seq<Meta>, n: nat) { forall i :: 0 <= i < |meta| ==> meta[i].offset + meta[i].Size() <= n }

  lemma {:induction false} PutWithin(meta: seq<Meta>, m: Meta, n: nat)
    requires Within(meta, n) && m.offset + m.Size() <= n
    ensures Within(MetaPut(meta, m), n)
  {
    if meta != [] && meta[0].name != m.name { PutWithin(meta[1..], m, n); }
  }

  /** Reading the entries of a packed list gives its dict. */
  lemma {:induction false} ReadsDict(g: seq<Weight>)
    requires AllValid(g)
    ensures ReadAll(Bytes(g), MetaOf(g)) == DictOf(g) && Within(MetaOf(g), |Bytes(g)|)
  {
    if g != [] {
      var p, w := g[..|g|-1], g[|g|-1];
      assert g == p + [w] && AllValid(p) by { assert forall x <- p :: x in g; }
      assert w in g;
      ReadsDict(p);
      var data, meta, m := Bytes(g), MetaOf(p), Entry(w, |Bytes(p)|);
      assert data == Bytes(p) + w.data && MetaOf(g) == MetaPut(meta, m) && DictOf(g) == Put(DictOf(p), w);
      hide Bytes, MetaOf, MetaPut, Put, DictOf, AllValid;
      Longer(Bytes(p), w.data, meta);
      ReadEntry(data, Bytes(p), w);
      ReadPut(data, meta, m);
      WithinMore(meta, |Bytes(p)|, |data|);
      PutWithin(meta, m, |data|);
    }
  }

  lemma WithinMore(meta: seq<Meta>, n: nat, n': nat)
    requires Within(meta, n) && n <= n'
    ensures Within(meta, n')
  {
  }

  lemma Longer(d: seq<byte>, e: seq<byte>, meta: seq<Meta>)
    requires Within(meta, |d|)
    ensures ReadAll(d + e, meta) == ReadAll(d, meta)
  {
    hide Read;
    forall i | 0 <= i < |meta| ensures Read(d + e, meta[i]) == Read(d, meta[i]) { ReadPrefix(d, d + e, meta[i]); }
  }

  /** A bucket gives back its dict: where names are repeated, the last tensor of a name, at the place of
      the first, and nothing of the others. */
  lemma BucketKeyed(b: Bucket, g: seq<Weight>)
    requires AllValid(g) && SameBucket(b, g)
    ensures Yields(b) == DictOf(g) && Keyed(Yields(b), g)
  {
    hide Bytes, MetaOf, DictOf, Keyed, AllValid, Read;
    ReadsDict(g);
    DictKeyed(g);
    assert Yields(b) == ReadAll(b.data, b.meta);
  }

  /** So does every bucket of a transfer. */
  lemma PackKeyed(ws: seq<Weight>, size: nat, k: nat)
    requires Fits(ws, size) && AllValid(ws) && k < |Pack(ws, size).sent|
    ensures k < |Groups(ws, size)| && Keyed(Yields(Pack(ws, size).sent[k]), Groups(ws, size)[k])
  {
    hide *;
    PackedGroup(ws, size, k);
    SameIs(Pack(ws, size).sent[k], Groups(ws, size)[k]);
    BucketKeyed(Pack(ws, size).sent[k], Groups(ws, size)[k]);
  }

  lemma SameIs(b: Bucket, g: seq<Weight>)
    requires b.data == Bytes(g) && b.meta == MetaOf(g)
    ensures SameBucket(b, g)
  {
  }
}
