/** Padding, chunking, joining and unpadding of batches. All tensors of a batch are cut alike, and so
    are all its object arrays: a batch is a list of tensor rows and a list of array rows, either of
    which may be absent. */
module BatchAlgebra {
  import opened Wrappers
  import opened Arithmetic
  import opened Sequences

  datatype Batch<R, A> = Batch(tensors: Option<seq<R>>, arrays: Option<seq<A>>) {
    /** What the constructor checks. */
    predicate Consistent() { tensors.Some? && arrays.Some? ==> |tensors.value| == |arrays.value| }

    function Len(): nat {
      if tensors.Some? then |tensors.value| else if arrays.Some? then |arrays.value| else 0
    }
  }

  datatype Row<R, A> = Row(tensor: Option<R>, item: Option<A>)

  function Rows<R, A>(d: Batch<R, A>): (r: seq<Row<R, A>>)
    requires d.Consistent()
    ensures |r| == d.Len()
  {
    seq(d.Len(), i requires 0 <= i < d.Len() =>
      Row(if d.tensors.Some? then Some(d.tensors.value[i]) else None, if d.arrays.Some? then Some(d.arrays.value[i]) else None))
  }

  /** `d[:n]` for n up to the length. */
  function Take<R, A>(d: Batch<R, A>, n: nat): Batch<R, A>
    requires d.Consistent() && n <= d.Len()
  {
    Batch(if d.tensors.Some? then Some(d.tensors.value[..n]) else None, if d.arrays.Some? then Some(d.arrays.value[..n]) else None)
  }

  // ---------- concat ----------

  function Present<T>(os: seq<Option<seq<T>>>): seq<seq<T>> {
    if os == [] then []
    else Present(os[..|os|-1]) + if os[|os|-1].Some? then [os[|os|-1].value] else []
  }

  function TensorsOf<R, A>(ds: seq<Batch<R, A>>): (r: seq<Option<seq<R>>>)
    ensures |r| == |ds| && forall i :: 0 <= i < |r| ==> r[i] == ds[i].tensors
  {
    seq(|ds|, i requires 0 <= i < |ds| => ds[i].tensors)
  }

  function ArraysOf<R, A>(ds: seq<Batch<R, A>>): (r: seq<Option<seq<A>>>)
    ensures |r| == |ds| && forall i :: 0 <= i < |r| ==> r[i] == ds[i].arrays
  {
    seq(|ds|, i requires 0 <= i < |ds| => ds[i].arrays)
  }

  predicate AllSome<T>(os: seq<Option<T>>) { forall i :: 0 <= i < |os| ==> os[i].Some? }
  predicate AllNone<T>(os: seq<Option<T>>) { forall i :: 0 <= i < |os| ==> os[i].None? }

  /** Tensors are joined if the first batch has any, and dropped if it has none; array keys must all
      be known from the first batch. None where it raises. */
  function Concat<R, A>(ds: seq<Batch<R, A>>): Option<Batch<R, A>> {
    if ds == [] then None
    else
      var ts, as_ := TensorsOf(ds), ArraysOf(ds);
      if (ts[0].Some? && !AllSome(ts)) || (as_[0].None? && !AllNone(as_)) then None
      else
        var d := Batch(if ts[0].Some? then Some(Flatten(Present(ts))) else None,
                       if as_[0].Some? then Some(Flatten(Present(as_))) else None);
        if d.Consistent() then Some(d) else None
  }

  /** Batches with the same parts. */
  predicate Alike<R, A>(ds: seq<Batch<R, A>>, tensors: bool, arrays: bool) {
    forall i :: 0 <= i < |ds| ==> ds[i].Consistent() && ds[i].tensors.Some? == tensors && ds[i].arrays.Some? == arrays
  }

  lemma AlikeConsistent<R, A>(ds: seq<Batch<R, A>>, tensors: bool, arrays: bool)
    requires Alike(ds, tensors, arrays)
    ensures forall i :: 0 <= i < |ds| ==> ds[i].Consistent()
  {
  }

  function AllRows<R, A>(ds: seq<Batch<R, A>>): seq<Row<R, A>>
    requires forall i :: 0 <= i < |ds| ==> ds[i].Consistent()
  {
    if ds == [] then [] else AllRows(ds[..|ds|-1]) + Rows(ds[|ds|-1])
  }

  function Joined<R, A>(ds: seq<Batch<R, A>>, tensors: bool, arrays: bool): Batch<R, A> {
    Batch(if tensors then Some(Flatten(Present(TensorsOf(ds)))) else None,
          if arrays then Some(Flatten(Present(ArraysOf(ds)))) else None)
  }

  lemma {:induction false} JoinedRows<R, A>(ds: seq<Batch<R, A>>, tensors: bool, arrays: bool)
    requires Alike(ds, tensors, arrays)
    ensures Joined(ds, tensors, arrays).Consistent() && Rows(Joined(ds, tensors, arrays)) == AllRows(ds)
  {
    if ds != [] {
      var init, last := ds[..|ds|-1], ds[|ds|-1];
      JoinedRows(init, tensors, arrays);
      assert TensorsOf(ds)[..|ds|-1] == TensorsOf(init) && ArraysOf(ds)[..|ds|-1] == ArraysOf(init);
      assert last == ds[|ds|-1];
      if tensors { FlattenSnoc(Present(TensorsOf(init)), last.tensors.value); }
      if arrays { FlattenSnoc(Present(ArraysOf(init)), last.arrays.value); }
      JoinedSnoc(Joined(init, tensors, arrays), last, Joined(ds, tensors, arrays));
    }
  }

  lemma JoinedSnoc<R, A>(d: Batch<R, A>, e: Batch<R, A>, r: Batch<R, A>)
    requires d.Consistent() && e.Consistent()
    requires d.tensors.Some? == e.tensors.Some? == r.tensors.Some? && d.arrays.Some? == e.arrays.Some? == r.arrays.Some?
    requires d.tensors.Some? ==> r.tensors.value == d.tensors.value + e.tensors.value
    requires d.arrays.Some? ==> r.arrays.value == d.arrays.value + e.arrays.value
    ensures r.Consistent() && Rows(r) == Rows(d) + Rows(e)
  {
  }

  /** Joining batches with the same parts succeeds and appends their rows. */
  lemma ConcatRows<R, A>(ds: seq<Batch<R, A>>, tensors: bool, arrays: bool)
    requires ds != [] && Alike(ds, tensors, arrays)
    ensures Concat(ds).Some? && Concat(ds).value.Consistent() && Rows(Concat(ds).value) == AllRows(ds)
    ensures Concat(ds).value.tensors.Some? == tensors && Concat(ds).value.arrays.Some? == arrays
  {
    JoinedRows(ds, tensors, arrays);
    assert ds[0].tensors.Some? == tensors && ds[0].arrays.Some? == arrays;
  }

  /** A batch is known by its rows and by which parts it has. */
  lemma RowsDetermine<R, A>(d: Batch<R, A>, e: Batch<R, A>)
    requires d.Consistent() && e.Consistent() && d.tensors.Some? == e.tensors.Some? && d.arrays.Some? == e.arrays.Some?
    ensures Rows(d) == Rows(e) <==> d == e
  {
    if Rows(d) == Rows(e) {
      assert d.Len() == |Rows(d)| == e.Len();
      forall i | 0 <= i < d.Len()
        ensures d.tensors.Some? ==> d.tensors.value[i] == e.tensors.value[i]
        ensures d.arrays.Some? ==> d.arrays.value[i] == e.arrays.value[i]
      {
        assert Rows(d)[i] == Rows(e)[i];
      }
      assert d.tensors.Some? ==> |d.tensors.value| == d.Len() && |e.tensors.value| == e.Len() && d.tensors.value == e.tensors.value;
      assert d.arrays.Some? ==> |d.arrays.value| == d.Len() && |e.arrays.value| == e.Len() && d.arrays.value == e.arrays.value;
    }
  }

  lemma {:induction false} PresentLens<R, A>(ds: seq<Batch<R, A>>)
    requires forall i :: 0 <= i < |ds| ==> ds[i].Consistent() && ds[i].tensors.Some?
    ensures var t, a := |Flatten(Present(TensorsOf(ds)))|, |Flatten(Present(ArraysOf(ds)))|;
            a <= t && (a == t <==> forall i :: 0 <= i < |ds| ==> ds[i].arrays.Some? || ds[i].Len() == 0)
  {
    NoneLen<R, A>();
    hide Flatten, Present;
    if ds != [] {
      var init, d := ds[..|ds|-1], ds[|ds|-1];
      PresentLens(init);
      PresentNext(init, d);
      assert ds == init + [d];
      assert forall i :: 0 <= i < |init| ==> ds[i] == init[i];
    }
  }

  lemma NoneLen<R, A>()
    ensures |Flatten(Present(TensorsOf<R, A>([])))| == 0 && |Flatten(Present(ArraysOf<R, A>([])))| == 0
  {
  }

  lemma PresentNext<R, A>(ds: seq<Batch<R, A>>, d: Batch<R, A>)
    ensures |Flatten(Present(TensorsOf(ds + [d])))| == |Flatten(Present(TensorsOf(ds)))| + if d.tensors.Some? then |d.tensors.value| else 0
    ensures |Flatten(Present(ArraysOf(ds + [d])))| == |Flatten(Present(ArraysOf(ds)))| + if d.arrays.Some? then |d.arrays.value| else 0
  {
    assert TensorsOf(ds + [d]) == TensorsOf(ds) + [d.tensors] && ArraysOf(ds + [d]) == ArraysOf(ds) + [d.arrays];
    PresentSnoc(TensorsOf(ds), d.tensors);
    PresentSnoc(ArraysOf(ds), d.arrays);
  }

  lemma PresentSnoc<T>(os: seq<Option<seq<T>>>, o: Option<seq<T>>)
    ensures |Flatten(Present(os + [o]))| == |Flatten(Present(os))| + if o.Some? then |o.value| else 0
  {
    assert (os + [o])[..|os|] == os;
    if o.Some? { FlattenSnoc(Present(os), o.value); } else { assert Present(os) + [] == Present(os); }
  }

  /** Joining batches fails exactly for none; if the first has tensors and another has none; if the first
      has no arrays and another has some; or if both are joined and a batch that is not empty lacks arrays. */
  lemma ConcatFails<R, A>(ds: seq<Batch<R, A>>)
    requires forall i :: 0 <= i < |ds| ==> ds[i].Consistent()
    ensures Concat(ds).Some? <==>
              && ds != []
              && (ds[0].tensors.Some? ==> forall i :: 0 <= i < |ds| ==> ds[i].tensors.Some?)
              && (ds[0].arrays.None? ==> forall i :: 0 <= i < |ds| ==> ds[i].arrays.None?)
              && (ds[0].tensors.Some? && ds[0].arrays.Some? ==> forall i :: 0 <= i < |ds| ==> ds[i].arrays.Some? || ds[i].Len() == 0)
  {
    if ds != [] {
      var ts, as_ := TensorsOf(ds), ArraysOf(ds);
      hide Flatten, Present;
      assert forall i :: 0 <= i < |ds| ==> ts[i] == ds[i].tensors && as_[i] == ds[i].arrays;
      if AllSome(ts) { PresentLens(ds); }
    }
  }

  // ---------- pad and unpad ----------

  /** The first n elements of s repeated for ever. */
  function Cycle<T>(s: seq<T>, n: nat): (r: seq<T>)
    requires |s| > 0
    ensures |r| == n && forall i :: 0 <= i < n ==> r[i] == s[i % |s|]
  {
    seq(n, i requires 0 <= i < n => s[i % |s|])
  }

  /** Row i of the padded batch is row i modulo the length. An empty batch is returned as it is. */
  method Pad<R, A>(d: Batch<R, A>, divisor: nat) returns (padded: Batch<R, A>, padSize: nat)
    requires d.Consistent() && divisor > 0
    ensures padded.Consistent() && padded.tensors.Some? == d.tensors.Some? && padded.arrays.Some? == d.arrays.Some?
    ensures padSize < divisor && padded.Len() == d.Len() + padSize && padded.Len() % divisor == 0
    ensures d.Len() == 0 ==> padded == d
    ensures d.Len() > 0 ==> Rows(padded) == Cycle(Rows(d), d.Len() + padSize)
  {
    if d.Len() % divisor == 0 {
      if d.Len() > 0 { CycleOnce(Rows(d)); }
      return d, 0;
    }
    padSize := divisor - d.Len() % divisor;
    PadFits(d.Len(), divisor);
    hide *;
    var paddingProtos: seq<Batch<R, A>> := [];
    var remaining: nat := padSize;
    PadStart(d, remaining);
    while remaining > 0
      invariant remaining <= padSize && PaddedBy([d] + paddingProtos, d, padSize - remaining, remaining)
    {
      var take := if remaining < d.Len() then remaining else d.Len();
      PadTurn([d] + paddingProtos, d, padSize - remaining, remaining, take);
      assert [d] + paddingProtos + [Take(d, take)] == [d] + (paddingProtos + [Take(d, take)]);
      paddingProtos := paddingProtos + [Take(d, take)];
      remaining := remaining - take;
    }
    PadEnd([d] + paddingProtos, d, padSize);
    padded := Concat([d] + paddingProtos).value;
  }

  /** The batches collected so far hold `padded` rows beyond those of d. */
  ghost predicate PaddedBy<R, A>(ds: seq<Batch<R, A>>, d: Batch<R, A>, padded: nat, remaining: nat) {
    && d.Consistent() && d.Len() > 0 && ds != [] && Alike(ds, d.tensors.Some?, d.arrays.Some?)
    && AllRows(ds) == Cycle(Rows(d), d.Len() + padded)
    && (remaining > 0 ==> padded % d.Len() == 0)
  }

  lemma PadFits(n: nat, divisor: nat)
    requires divisor > 0 && n % divisor != 0
    ensures n > 0 && (n + (divisor - n % divisor)) % divisor == 0 && 0 < divisor - n % divisor < divisor
  {
    DivMod(n, divisor);
    var q := n / divisor;
    assert (q + 1) * divisor == q * divisor + divisor;
    DivUnique((q + 1) * divisor, divisor, q + 1, 0);
  }

  lemma CycleOnce<T>(s: seq<T>)
    requires |s| > 0
    ensures Cycle(s, |s|) == s
  {
    forall i | 0 <= i < |s| ensures i % |s| == i { DivUnique(i, |s|, 0, i); }
  }

  lemma WrapsAround(n: nat, k: nat, j: nat)
    requires n > 0 && k % n == 0 && j <= n
    ensures (n + k + j) % n == if j < n then j else 0
    ensures j == n ==> (k + j) % n == 0
  {
    DivMod(k, n);
    var q := k / n;
    assert (q + 1) * n == q * n + n && (q + 2) * n == q * n + n + n;
    if j < n {
      DivUnique(n + k + j, n, q + 1, j);
    } else {
      DivUnique(n + k + j, n, q + 2, 0);
      DivUnique(k + j, n, q + 1, 0);
    }
  }

  /** A cycle that ends at the end of s goes on with the beginning of s. */
  lemma CycleMore<T>(s: seq<T>, k: nat, take: nat)
    requires |s| > 0 && k % |s| == 0 && take <= |s|
    ensures Cycle(s, |s| + k) + s[..take] == Cycle(s, |s| + k + take)
    ensures take == |s| ==> (k + take) % |s| == 0
  {
    WrapsAround(|s|, k, take);
    var l, r := Cycle(s, |s| + k) + s[..take], Cycle(s, |s| + k + take);
    forall i | 0 <= i < |s| + k + take ensures l[i] == r[i] {
      if i >= |s| + k { WrapsAround(|s|, k, i - |s| - k); }
    }
  }

  lemma PadStart<R, A>(d: Batch<R, A>, remaining: nat)
    requires d.Consistent() && d.Len() > 0
    ensures PaddedBy([d] + [], d, 0, remaining)
  {
    var ds := [d] + [];
    assert ds[..0] == [] && ds == [d];
    assert AllRows(ds) == AllRows(ds[..0]) + Rows(d) == Rows(d);
    CycleOnce(Rows(d));
    DivUnique(0, d.Len(), 0, 0);
  }

  lemma TakeRows<R, A>(d: Batch<R, A>, n: nat)
    requires d.Consistent() && n <= d.Len()
    ensures Take(d, n).Consistent() && Rows(Take(d, n)) == Rows(d)[..n]
  {
  }

  lemma PadTurn<R, A>(ds: seq<Batch<R, A>>, d: Batch<R, A>, padded: nat, remaining: nat, take: nat)
    requires PaddedBy(ds, d, padded, remaining) && remaining > 0
    requires take == if remaining < d.Len() then remaining else d.Len()
    ensures d.Consistent() && 0 < take <= d.Len() && PaddedBy(ds + [Take(d, take)], d, padded + take, remaining - take)
  {
    TakeRows(d, take);
    CycleMore(Rows(d), padded, take);
    var es := ds + [Take(d, take)];
    assert es[..|es|-1] == ds;
    hide Cycle, Rows;
    assert AllRows(es) == AllRows(ds) + Rows(Take(d, take));
  }

  lemma PadEnd<R, A>(ds: seq<Batch<R, A>>, d: Batch<R, A>, padded: nat)
    requires PaddedBy(ds, d, padded, 0)
    ensures Concat(ds).Some? && Concat(ds).value.Consistent() && d.Consistent() && d.Len() > 0
    ensures var r := Concat(ds).value;
            && Rows(r) == Cycle(Rows(d), d.Len() + padded) && r.Len() == d.Len() + padded
            && r.tensors.Some? == d.tensors.Some? && r.arrays.Some? == d.arrays.Some?
  {
    ConcatRows(ds, d.tensors.Some?, d.arrays.Some?);
  }

  /** `data[:-padSize]`, and all of it for no padding. */
  function Unpad<R, A>(d: Batch<R, A>, padSize: nat): Batch<R, A>
    requires d.Consistent()
  {
    if padSize == 0 then d else Take(d, if padSize <= d.Len() then d.Len() - padSize else 0)
  }

  // ---------- chunk ----------

  /** `np.array_split` at the sums of the sizes: the last piece takes what is left. */
  function SplitAt<T>(s: seq<T>, sizes: seq<nat>): seq<seq<T>>
    decreases |sizes|
  {
    if |sizes| <= 1 || sizes[0] > |s| then [s] else [s[..sizes[0]]] + SplitAt(s[sizes[0]..], sizes[1..])
  }

  /** `np.array_split` into n nearly equal pieces, the longer ones first. */
  function NearlyEqual<T>(s: seq<T>, q: nat, longer: nat, n: nat): (r: seq<seq<T>>)
    requires n > 0 && longer < n && |s| == Rest(q, longer, n)
    ensures |r| == n && Flatten(r) == s
    decreases n
  {
    if n == 1 then
      assert Flatten([s]) == s by { FlattenSnoc([], s); assert [] + [s] == [s]; }
      [s]
    else
      var size := if longer > 0 then q + 1 else q;
      RestTurn(q, longer, n);
      var rest := NearlyEqual(s[size..], q, if longer > 0 then longer - 1 else 0, n - 1);
      assert ([s[..size]] + rest)[1..] == rest;
      [s[..size]] + rest
  }

  function Rest(q: nat, longer: nat, n: nat): nat { n * q + longer }

  lemma RestTurn(q: nat, longer: nat, n: nat)
    requires n > 0 && longer < n
    ensures Rest(q, longer, n) == (if longer > 0 then q + 1 else q) + Rest(q, if longer > 0 then longer - 1 else 0, n - 1)
  {
    assert n * q == (n - 1) * q + q;
  }

  function SizesOf<T>(ps: seq<seq<T>>): (r: seq<nat>)
    ensures |r| == |ps| && forall i :: 0 <= i < |r| ==> r[i] == |ps[i]|
  {
    seq(|ps|, i requires 0 <= i < |ps| => |ps[i]|)
  }

  function ArraySplit<T>(s: seq<T>, n: nat): (r: seq<seq<T>>)
    requires n > 0
    ensures |r| == n && Flatten(r) == s
  {
    DivMod(|s|, n);
    NearlyEqual(s, |s| / n, |s| % n, n)
  }

  /** The pieces of the arrays: where the tensors were cut, if there are any. */
  function ArrayPieces<R, A>(d: Batch<R, A>, n: nat): seq<seq<A>>
    requires n > 0 && d.arrays.Some?
  {
    if d.tensors.Some? then SplitAt(d.arrays.value, SizesOf(TorchChunk(d.tensors.value, n))) else ArraySplit(d.arrays.value, n)
  }

  /** Unless padding is enabled the length must be divisible; and there must be n pieces. */
  predicate Chunkable<R, A>(d: Batch<R, A>, n: nat, paddingEnabled: bool)
    requires n > 0
  {
    && (paddingEnabled || d.Len() % n == 0)
    && (d.tensors.Some? ==> |TorchChunk(d.tensors.value, n)| == n)
  }

  function Piece<R, A>(d: Batch<R, A>, ts: seq<seq<R>>, as_: seq<seq<A>>, i: nat): Batch<R, A>
    requires (d.tensors.Some? ==> i < |ts|) && (d.arrays.Some? ==> i < |as_|)
  {
    Batch(if d.tensors.Some? then Some(ts[i]) else None, if d.arrays.Some? then Some(as_[i]) else None)
  }

  /** None exactly where the length or the number of pieces does not fit; otherwise n batches with
      the rows of d in order. */
  method Chunk<R, A>(d: Batch<R, A>, n: nat, paddingEnabled: bool) returns (r: Option<seq<Batch<R, A>>>)
    requires d.Consistent() && n > 0
    ensures r.Some? <==> (paddingEnabled || d.Len() % n == 0) && (d.tensors.Some? && d.Len() > 0 ==> LeavesOne(d.Len(), n))
    ensures r.Some? ==> |r.value| == n && Alike(r.value, d.tensors.Some?, d.arrays.Some?) && AllRows(r.value) == Rows(d)
    ensures r.Some? && d.Len() % n == 0 && (d.tensors.Some? || d.arrays.Some?) ==> EachLen(r.value, d.Len() / n)
    ensures r.Some? && (d.tensors.Some? || d.arrays.Some?) ==>
              forall i :: 0 <= i < n ==> r.value[i].Len() == if d.tensors.Some? then ChunkLen(d.Len(), n, i) else SplitLen(d.Len(), n, i)
  {
    ChunkableExact(d, n, paddingEnabled);
    if !paddingEnabled && d.Len() % n != 0 { return None; }
    var ts: seq<seq<R>>, as_: seq<seq<A>> := [], [];
    if d.tensors.Some? {
      ts := TorchChunk(d.tensors.value, n);
      TorchChunkPieces(d.tensors.value, n);
    }
    if d.arrays.Some? {
      as_ := ArrayPieces(d, n);
      PiecesAligned(d, n);
      if |as_| != n { return None; }
    }
    if d.tensors.Some? && |ts| < n { return None; }
    ghost var even := d.Len() % n == 0;
    if even { PiecesEven(d, n); }
    hide *;
    var output: seq<Batch<R, A>> := [];
    for i := 0 to n
      invariant |output| == i && Made(d, ts, as_, output)
    {
      MadeNext(d, ts, as_, output);
      output := output + [Piece(d, ts, as_, i)];
    }
    PiecesRows(d, ts, as_, output);
    if even && (d.tensors.Some? || d.arrays.Some?) { PiecesLen(d, ts, as_, output, d.Len() / n); }
    if d.tensors.Some? || d.arrays.Some? { PieceLens(d, n, ts, as_, output); }
    return Some(output);
  }

  /** The rows of piece i of `torch.chunk`: the rounded-up share, until nothing is left. */
  function ChunkLen(len: nat, n: nat, i: nat): nat
    requires n > 0
  {
    Left(len, (len + n - 1) / n, i)
  }

  function Left(len: nat, size: nat, i: nat): nat { if i * size + size <= len then size else if i * size <= len then len - i * size else 0 }

  /** The entries of piece i of `np.array_split`: the rounded-down share, one more in the first pieces. */
  function SplitLen(len: nat, n: nat, i: nat): nat
    requires n > 0
  {
    len / n + if i < len % n then 1 else 0
  }

  lemma {:induction false} CutLen<T>(s: seq<T>, size: nat, i: nat)
    requires size > 0 && i < |Cut(s, size)|
    ensures |Cut(s, size)[i]| == Left(|s|, size, i)
    decreases |s|
  {
    if |s| > size && i > 0 {
      CutLen(s[size..], size, i - 1);
      assert i * size == (i - 1) * size + size;
    }
  }

  lemma TorchChunkLen<T>(s: seq<T>, n: nat, i: nat)
    requires n > 0 && i < |TorchChunk(s, n)|
    ensures |TorchChunk(s, n)[i]| == ChunkLen(|s|, n, i)
  {
    if s == [] {
      DivUnique(n - 1, n, 0, n - 1);
    } else {
      RoundedUp(|s|, n);
      CutLen(s, (|s| + n - 1) / n, i);
    }
  }

  lemma {:induction false} NearlyEqualLen<T>(s: seq<T>, q: nat, longer: nat, n: nat, i: nat)
    requires n > 0 && longer < n && |s| == Rest(q, longer, n) && i < n
    ensures |NearlyEqual(s, q, longer, n)[i]| == q + if i < longer then 1 else 0
    decreases n
  {
    if n == 1 {
      assert Rest(q, 0, 1) == q;
    } else {
      RestTurn(q, longer, n);
      if i > 0 { NearlyEqualLen(s[if longer > 0 then q + 1 else q..], q, if longer > 0 then longer - 1 else 0, n - 1, i - 1); }
    }
  }

  lemma ArraySplitLen<T>(s: seq<T>, n: nat, i: nat)
    requires n > 0 && i < n
    ensures |ArraySplit(s, n)[i]| == SplitLen(|s|, n, i)
  {
    DivMod(|s|, n);
    NearlyEqualLen(s, |s| / n, |s| % n, n, i);
  }

  lemma PieceLens<R, A>(d: Batch<R, A>, n: nat, ts: seq<seq<R>>, as_: seq<seq<A>>, output: seq<Batch<R, A>>)
    requires d.Consistent() && n > 0 && Made(d, ts, as_, output) && |output| == n && (d.tensors.Some? || d.arrays.Some?)
    requires d.tensors.Some? ==> ts == TorchChunk(d.tensors.value, n)
    requires d.arrays.Some? ==> as_ == ArrayPieces(d, n)
    ensures forall i :: 0 <= i < n ==> output[i].Len() == if d.tensors.Some? then ChunkLen(d.Len(), n, i) else SplitLen(d.Len(), n, i)
  {
    hide TorchChunk, ArraySplit, ChunkLen, SplitLen;
    forall i | 0 <= i < n
      ensures output[i].Len() == if d.tensors.Some? then ChunkLen(d.Len(), n, i) else SplitLen(d.Len(), n, i)
    {
      if d.tensors.Some? { TorchChunkLen(d.tensors.value, n, i); } else { ArraySplitLen(d.arrays.value, n, i); }
    }
  }

  /** The rounded-up share of the pieces before the last one leaves something for that. */
  predicate LeavesOne(len: nat, n: nat)
    requires n > 0
  {
    (n - 1) * ((len + n - 1) / n) < len
  }

  lemma ChunkableExact<R, A>(d: Batch<R, A>, n: nat, paddingEnabled: bool)
    requires d.Consistent() && n > 0
    ensures Chunkable(d, n, paddingEnabled)
       <==> (paddingEnabled || d.Len() % n == 0) && (d.tensors.Some? && d.Len() > 0 ==> LeavesOne(d.Len(), n))
  {
    hide TorchChunk;
    if d.tensors.Some? { TorchChunkPieces(d.tensors.value, n); }
  }

  predicate EachLen<R, A>(ds: seq<Batch<R, A>>, q: nat) { forall i :: 0 <= i < |ds| ==> ds[i].Len() == q }

  /** The first pieces, each with its share of tensors and arrays. */
  ghost predicate Made<R, A>(d: Batch<R, A>, ts: seq<seq<R>>, as_: seq<seq<A>>, output: seq<Batch<R, A>>) {
    && (d.tensors.Some? ==> |output| <= |ts|) && (d.arrays.Some? ==> |output| <= |as_|)
    && forall k :: 0 <= k < |output| ==> output[k] == Piece(d, ts, as_, k)
  }

  lemma MadeNext<R, A>(d: Batch<R, A>, ts: seq<seq<R>>, as_: seq<seq<A>>, output: seq<Batch<R, A>>)
    requires Made(d, ts, as_, output) && (d.tensors.Some? ==> |output| < |ts|) && (d.arrays.Some? ==> |output| < |as_|)
    ensures Made(d, ts, as_, output + [Piece(d, ts, as_, |output|)])
  {
  }

  lemma PiecesLen<R, A>(d: Batch<R, A>, ts: seq<seq<R>>, as_: seq<seq<A>>, output: seq<Batch<R, A>>, q: nat)
    requires Made(d, ts, as_, output) && (d.tensors.Some? || d.arrays.Some?)
    requires d.tensors.Some? ==> |ts| == |output| && Uniform(ts, q)
    requires d.tensors.None? ==> |as_| == |output| && Uniform(as_, q)
    ensures EachLen(output, q)
  {
  }

  lemma {:induction false} EmptyPieces<T>(n: nat)
    ensures Flatten<T>(seq(n, _ => [])) == []
  {
    if n > 0 {
      EmptyPieces<T>(n - 1);
      var ps: seq<seq<T>> := seq(n, _ => []);
      assert ps[1..] == seq(n - 1, _ => []);
    }
  }

  lemma {:induction false} CutCount<T>(s: seq<T>, size: nat, n: nat)
    requires size > 0 && s != []
    ensures |Cut(s, size)| <= n <==> |s| <= n * size
    decreases |s|
  {
    if |s| > size {
      if n > 0 {
        CutCount(s[size..], size, n - 1);
        assert n * size == (n - 1) * size + size;
      }
    } else if n > 0 {
      MulMonotone(1, n, size);
    }
  }

  /** `torch.chunk` joins to the whole and gives at most n pieces. It gives n of them exactly if the
      rounded-up size leaves something for the last one. */
  lemma TorchChunkPieces<T>(s: seq<T>, n: nat)
    requires n > 0
    ensures Flatten(TorchChunk(s, n)) == s && 1 <= |TorchChunk(s, n)| <= n
    ensures |TorchChunk(s, n)| == n <==> s == [] || (n - 1) * ((|s| + n - 1) / n) < |s|
  {
    if s == [] {
      EmptyPieces<T>(n);
    } else {
      RoundedUp(|s|, n);
      var size := (|s| + n - 1) / n;
      assert TorchChunk(s, n) == Cut(s, size);
      hide *;
      CutJoins(s, size);
      assert size * n == n * size;
      CutCount(s, size, n);
      CutCount(s, size, n - 1);
    }
  }

  lemma {:induction false} SplitAligned<T, U>(s: seq<T>, ps: seq<seq<U>>)
    requires ps != [] && |s| == |Flatten(ps)|
    ensures var r := SplitAt(s, SizesOf(ps));
            && |r| == |ps| && Flatten(r) == s && forall i :: 0 <= i < |ps| ==> |r[i]| == |ps[i]|
    decreases |ps|
  {
    var sizes := SizesOf(ps);
    if |ps| == 1 {
      assert ps[1..] == [] && |Flatten(ps)| == |ps[0]|;
      FlattenSnoc([], s);
      assert [] + [s] == [s];
    } else {
      assert sizes[1..] == SizesOf(ps[1..]);
      SplitAligned(s[sizes[0]..], ps[1..]);
      var rest := SplitAt(s[sizes[0]..], sizes[1..]);
      assert ([s[..sizes[0]]] + rest)[1..] == rest;
      forall i | 0 <= i < |ps| ensures |SplitAt(s, sizes)[i]| == |ps[i]| {
        if i > 0 { assert ps[1..][i - 1] == ps[i]; }
      }
    }
  }

  lemma {:induction false} NearlyEqualUniform<T>(s: seq<T>, q: nat, n: nat)
    requires n > 0 && |s| == Rest(q, 0, n)
    ensures Uniform(NearlyEqual(s, q, 0, n), q)
  {
    if n > 1 {
      RestTurn(q, 0, n);
      NearlyEqualUniform(s[q..], q, n - 1);
    } else {
      assert Rest(q, 0, 1) == q;
    }
  }

  /** Tensors and arrays are cut at the same places. */
  lemma PiecesAligned<R, A>(d: Batch<R, A>, n: nat)
    requires d.Consistent() && n > 0 && d.arrays.Some?
    ensures var as_ := ArrayPieces(d, n);
            && Flatten(as_) == d.arrays.value
            && (d.tensors.None? ==> |as_| == n)
            && (d.tensors.Some? ==> Aligned(TorchChunk(d.tensors.value, n), as_))
  {
    if d.tensors.Some? {
      TorchChunkPieces(d.tensors.value, n);
      SplitAligned(d.arrays.value, TorchChunk(d.tensors.value, n));
    }
  }

  predicate Aligned<R, A>(ts: seq<seq<R>>, as_: seq<seq<A>>) {
    |ts| == |as_| && forall i :: 0 <= i < |ts| ==> |ts[i]| == |as_[i]|
  }

  lemma {:induction false} PresentAll<T>(os: seq<Option<seq<T>>>, ps: seq<seq<T>>)
    requires |os| == |ps| && forall i :: 0 <= i < |os| ==> os[i] == Some(ps[i])
    ensures Present(os) == ps
  {
    if os != [] { PresentAll(os[..|os|-1], ps[..|ps|-1]); }
  }

  lemma PiecesRows<R, A>(d: Batch<R, A>, ts: seq<seq<R>>, as_: seq<seq<A>>, output: seq<Batch<R, A>>)
    requires d.Consistent() && Made(d, ts, as_, output)
    requires d.tensors.Some? ==> |ts| == |output| && Flatten(ts) == d.tensors.value
    requires d.arrays.Some? ==> |as_| == |output| && Flatten(as_) == d.arrays.value
    requires d.tensors.Some? && d.arrays.Some? ==> Aligned(ts, as_)
    ensures Alike(output, d.tensors.Some?, d.arrays.Some?) && AllRows(output) == Rows(d)
  {
    JoinedRows(output, d.tensors.Some?, d.arrays.Some?);
    hide Flatten, Rows, AllRows;
    if d.tensors.Some? { PresentAll(TensorsOf(output), ts); }
    if d.arrays.Some? { PresentAll(ArraysOf(output), as_); }
    assert Joined(output, d.tensors.Some?, d.arrays.Some?) == d;
  }

  lemma PiecesEven<R, A>(d: Batch<R, A>, n: nat)
    requires d.Consistent() && n > 0 && d.Len() % n == 0
    ensures Chunkable(d, n, false)
    ensures d.tensors.Some? ==> Uniform(TorchChunk(d.tensors.value, n), d.Len() / n)
    ensures d.tensors.None? && d.arrays.Some? ==> Uniform(ArrayPieces(d, n), d.Len() / n)
  {
    DivMod(d.Len(), n);
    var q := d.Len() / n;
    if d.tensors.Some? && d.Len() > 0 {
      if q <= 0 { MulMonotone(q, 0, n); }
      assert n * q == q * n;
      ChunkEven(d.tensors.value, n, q);
    } else if d.tensors.Some? {
      DivUnique(0, n, 0, 0);
    } else if d.arrays.Some? {
      NearlyEqualUniform(d.arrays.value, q, n);
    }
  }

  // ---------- padded dispatch ----------

  function MapRows<T, U>(g: T -> U, s: seq<T>): (r: seq<U>)
    ensures |r| == |s| && forall i :: 0 <= i < |s| ==> r[i] == g(s[i])
  {
    seq(|s|, i requires 0 <= i < |s| => g(s[i]))
  }

  /** The worker treats each row by itself: row i of its output is g of row i of its input. */
  ghost predicate RowWise<R(!new), A(!new), S, B>(f: Batch<R, A> -> Batch<S, B>, g: Row<R, A> -> Row<S, B>, tensors: bool, arrays: bool) {
    forall d: Batch<R, A> :: d.Consistent() ==> WorkedOn(d, f(d), g, tensors, arrays)
  }

  ghost predicate WorkedOn<R, A, S, B>(d: Batch<R, A>, e: Batch<S, B>, g: Row<R, A> -> Row<S, B>, tensors: bool, arrays: bool)
    requires d.Consistent()
  {
    e.Consistent() && e.tensors.Some? == tensors && e.arrays.Some? == arrays && Rows(e) == MapRows(g, Rows(d))
  }

  /** Padding, chunking over the workers, joining their outputs and unpadding: the same as letting one
      worker have the whole batch, for every batch and every number of workers. */
  method PaddedDispatch<R(!new), A(!new), S, B>(d: Batch<R, A>, workers: nat, f: Batch<R, A> -> Batch<S, B>,
                                    ghost g: Row<R, A> -> Row<S, B>, ghost tensors: bool, ghost arrays: bool)
      returns (out: Batch<S, B>)
    requires d.Consistent() && workers > 0 && RowWise(f, g, tensors, arrays)
    ensures out.Consistent() && Rows(out) == MapRows(g, Rows(d))
  {
    hide *;
    var padded, padSize := Pad(d, workers);
    PaddedStart(d, padded, padSize);
    PiecesEven(padded, workers);
    ChunkableExact(padded, workers, false);
    var chunks := Chunk(padded, workers, false);
    var outs: seq<Batch<S, B>> := [];
    MappedNone(chunks.value, f);
    for i := 0 to |chunks.value|
      invariant Mapped(chunks.value, outs, f) && |outs| == i
    {
      MappedNext(chunks.value, outs, f);
      outs := outs + [f(chunks.value[i])];
    }
    AlikeConsistent(chunks.value, padded.tensors.Some?, padded.arrays.Some?);
    AllMapped(chunks.value, outs, f, g, tensors, arrays);
    ConcatRows(outs, tensors, arrays);
    out := Unpad(Concat(outs).value, padSize);
    UnpaddedRows(d, padded, padSize, Concat(outs).value, g);
  }

  lemma PaddedStart<R, A>(d: Batch<R, A>, padded: Batch<R, A>, padSize: nat)
    requires d.Consistent() && padded.Consistent() && padded.Len() == d.Len() + padSize
    requires if d.Len() == 0 then padded == d else Rows(padded) == Cycle(Rows(d), d.Len() + padSize)
    ensures Rows(padded)[..d.Len()] == Rows(d)
  {
    if d.Len() > 0 {
      forall i | 0 <= i < d.Len() ensures i % d.Len() == i { DivUnique(i, d.Len(), 0, i); }
    }
  }

  ghost predicate Mapped<R, A, S, B>(ds: seq<Batch<R, A>>, outs: seq<Batch<S, B>>, f: Batch<R, A> -> Batch<S, B>) {
    |outs| <= |ds| && forall k :: 0 <= k < |outs| ==> outs[k] == f(ds[k])
  }

  lemma MappedNone<R, A, S, B>(ds: seq<Batch<R, A>>, f: Batch<R, A> -> Batch<S, B>)
    ensures Mapped(ds, [], f)
  {
  }

  lemma MappedNext<R, A, S, B>(ds: seq<Batch<R, A>>, outs: seq<Batch<S, B>>, f: Batch<R, A> -> Batch<S, B>)
    requires Mapped(ds, outs, f) && |outs| < |ds|
    ensures Mapped(ds, outs + [f(ds[|outs|])], f)
  {
  }

  lemma MapAppend<T, U>(g: T -> U, x: seq<T>, y: seq<T>)
    ensures MapRows(g, x + y) == MapRows(g, x) + MapRows(g, y)
  {
  }

  lemma {:induction false} AllMapped<R(!new), A(!new), S, B>(ds: seq<Batch<R, A>>, outs: seq<Batch<S, B>>, f: Batch<R, A> -> Batch<S, B>,
                                                 g: Row<R, A> -> Row<S, B>, tensors: bool, arrays: bool)
    requires RowWise(f, g, tensors, arrays) && Mapped(ds, outs, f) && |outs| == |ds|
    requires forall i :: 0 <= i < |ds| ==> ds[i].Consistent()
    ensures Alike(outs, tensors, arrays) && AllRows(outs) == MapRows(g, AllRows(ds))
    decreases |ds|
  {
    if ds != [] {
      var n := |ds| - 1;
      AllMapped(ds[..n], outs[..n], f, g, tensors, arrays);
      assert ds[n].Consistent() && outs[n] == f(ds[n]);
      assert WorkedOn(ds[n], f(ds[n]), g, tensors, arrays);
      assert Alike(outs, tensors, arrays) by {
        forall i | 0 <= i < |outs| ensures outs[i].Consistent() && outs[i].tensors.Some? == tensors && outs[i].arrays.Some? == arrays {
          if i < n { assert outs[..n][i] == outs[i]; }
        }
      }
      hide Rows, RowWise, Mapped, MapRows;
      MapAppend(g, AllRows(ds[..n]), Rows(ds[n]));
    }
  }

  lemma UnpaddedRows<R, A, S, B>(d: Batch<R, A>, padded: Batch<R, A>, padSize: nat, joined: Batch<S, B>, g: Row<R, A> -> Row<S, B>)
    requires d.Consistent() && padded.Consistent() && joined.Consistent() && padded.Len() == d.Len() + padSize
    requires Rows(padded)[..d.Len()] == Rows(d) && Rows(joined) == MapRows(g, Rows(padded))
    ensures Unpad(joined, padSize).Consistent() && Rows(Unpad(joined, padSize)) == MapRows(g, Rows(d))
  {
    assert joined.Len() == padded.Len();
    TakeRows(joined, d.Len());
    assert Rows(joined)[..joined.Len()] == Rows(joined);
    forall i | 0 <= i < d.Len() ensures Rows(joined)[i] == MapRows(g, Rows(d))[i] {
      assert Rows(padded)[..d.Len()][i] == Rows(padded)[i];
    }
  }

  /** With padding enabled the divisibility check is skipped, and a batch can fail to be chunked:
      5 rows do not give 4 chunks. */
  lemma PaddingEnabledIsNotEnough(d: Batch<int, int>)
    requires d.tensors.Some? && |d.tensors.value| == 5
    ensures !Chunkable(d, 4, true)
  {
    TorchChunkPieces(d.tensors.value, 4);
  }
}
