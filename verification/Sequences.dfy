/** Cutting sequences into pieces and joining pieces: `chunk`, `split`, `cat` along the first
    dimension. */
module Sequences {
  import opened Arithmetic

  function Flatten<T>(gs: seq<seq<T>>): seq<T> {
    if gs == [] then [] else gs[0] + Flatten(gs[1..])
  }

  lemma {:induction false} FlattenMember<T>(gs: seq<seq<T>>, k: nat, w: T)
    requires k < |gs| && w in gs[k]
    ensures w in Flatten(gs)
  {
    if k > 0 { FlattenMember(gs[1..], k - 1, w); }
  }

  lemma Assoc<T>(x: seq<T>, y: seq<T>, z: seq<T>)
    ensures (x + y) + z == x + (y + z)
  {
  }

  lemma HeadTail<T>(s: seq<T>)
    requires s != []
    ensures s == [s[0]] + s[1..]
  {
  }

  lemma InJoined<T>(x: seq<T>, y: seq<T>, w: T)
    ensures w in x + y <==> w in x || w in y
  {
  }

  lemma FlattenCons<T>(x: seq<T>, xs: seq<seq<T>>)
    ensures Flatten([x] + xs) == x + Flatten(xs)
  {
    assert ([x] + xs)[1..] == xs;
  }

  lemma {:induction false} FlattenAppend<T>(xs: seq<seq<T>>, ys: seq<seq<T>>)
    ensures Flatten(xs + ys) == Flatten(xs) + Flatten(ys)
  {
    if xs == [] {
      assert xs + ys == ys;
    } else {
      FlattenAppend(xs[1..], ys);
      assert (xs + ys)[1..] == xs[1..] + ys && (xs + ys)[0] == xs[0];
      Assoc(xs[0], Flatten(xs[1..]), Flatten(ys));
    }
  }

  lemma FlattenSnoc<T>(xs: seq<seq<T>>, y: seq<T>)
    ensures Flatten(xs + [y]) == Flatten(xs) + y
  {
    FlattenAppend(xs, [y]);
    assert [y][1..] == [];
  }

  /** All pieces have the same length. */
  predicate Uniform<T>(ps: seq<seq<T>>, n: nat) { forall i :: 0 <= i < |ps| ==> |ps[i]| == n }

  lemma {:induction false} FlattenUniform<T>(ps: seq<seq<T>>, n: nat)
    requires Uniform(ps, n)
    ensures |Flatten(ps)| == |ps| * n
  {
    if ps != [] {
      FlattenUniform(ps[1..], n);
      assert |ps| * n == (|ps| - 1) * n + n;
    }
  }

  /** Where element j of piece i ends up when pieces of length n are joined. */
  function Position(i: nat, n: nat, j: nat): nat { i * n + j }

  lemma {:induction false} FlattenAt<T>(ps: seq<seq<T>>, n: nat, i: nat, j: nat)
    requires Uniform(ps, n) && i < |ps| && j < n
    ensures Position(i, n, j) < |Flatten(ps)| && Flatten(ps)[Position(i, n, j)] == ps[i][j]
  {
    if i > 0 {
      FlattenAt(ps[1..], n, i - 1, j);
      assert (i - 1) * n + n == i * n;
    }
  }

  /** Pieces of n elements, the last one possibly shorter. */
  function Cut<T>(s: seq<T>, n: nat): (ps: seq<seq<T>>)
    requires n > 0
    ensures |ps| >= 1
    decreases |s|
  {
    if |s| <= n then [s] else [s[..n]] + Cut(s[n..], n)
  }

  /** Joining what was cut gives back the sequence. */
  lemma {:induction false} CutJoins<T>(s: seq<T>, n: nat)
    requires n > 0
    ensures Flatten(Cut(s, n)) == s
    decreases |s|
  {
    if |s| <= n {
      assert Flatten([s]) == s + Flatten([]);
    } else {
      CutJoins(s[n..], n);
      assert Cut(s, n)[1..] == Cut(s[n..], n);
    }
  }

  /** Cutting what was joined from equal pieces gives back the pieces. */
  lemma {:induction false} CutFlatten<T>(ps: seq<seq<T>>, n: nat)
    requires n > 0 && ps != [] && Uniform(ps, n)
    ensures Cut(Flatten(ps), n) == ps
  {
    if |ps| == 1 {
      assert ps == [ps[0]] && ps[1..] == [] && Flatten(ps) == ps[0];
    } else {
      FlattenUniform(ps[1..], n);
      MulMonotone(1, |ps| - 1, n);
      CutFlatten(ps[1..], n);
      assert |Flatten(ps[1..])| >= n && Uniform(ps[1..], n);
      assert Flatten(ps)[..n] == ps[0] && Flatten(ps)[n..] == Flatten(ps[1..]);
      assert ps == [ps[0]] + ps[1..];
    }
  }

  lemma {:induction false} CutUniform<T>(s: seq<T>, n: nat, count: nat)
    requires n > 0 && count > 0 && |s| == count * n
    ensures |Cut(s, n)| == count && Uniform(Cut(s, n), n)
    decreases count
  {
    if count > 1 {
      assert count * n == (count - 1) * n + n;
      MulMonotone(1, count - 1, n);
      CutUniform(s[n..], n, count - 1);
    }
  }

  lemma CutAt<T>(s: seq<T>, n: nat, count: nat, i: nat, j: nat)
    requires n > 0 && |s| == count * n && i < count && j < n
    ensures |Cut(s, n)| == count && Uniform(Cut(s, n), n)
    ensures Position(i, n, j) < |s| && Cut(s, n)[i][j] == s[Position(i, n, j)]
  {
    CutUniform(s, n, count);
    CutJoins(s, n);
    FlattenAt(Cut(s, n), n, i, j);
  }

  /** `torch.chunk(s, n)`: pieces of the rounded-up size, so that there may be fewer than n of them. */
  function TorchChunk<T>(s: seq<T>, n: nat): seq<seq<T>>
    requires n > 0
  {
    if s == [] then seq(n, _ => [])
    else
      var size := (|s| + n - 1) / n;
      RoundedUp(|s|, n);
      Cut(s, size)
  }

  lemma RoundedUp(x: nat, n: nat)
    requires n > 0
    ensures x > 0 ==> (x + n - 1) / n > 0
    ensures (x + n - 1) / n * n >= x
  {
    DivMod(x + n - 1, n);
    var q := (x + n - 1) / n;
    if x > 0 && q <= 0 { MulMonotone(q, 0, n); }
  }

  lemma RoundedUpExact(count: nat, n: nat)
    requires n > 0
    ensures (count * n + n - 1) / n == count
  {
    DivUnique(count * n + n - 1, n, count, n - 1);
  }

  /** A length divisible by n is cut into n equal pieces. */
  lemma ChunkEven<T>(s: seq<T>, n: nat, size: nat)
    requires n > 0 && size > 0 && |s| == n * size
    ensures TorchChunk(s, n) == Cut(s, size) && |Cut(s, size)| == n && Uniform(Cut(s, size), size)
  {
    MulMonotone(1, n, size);
    RoundedUpExact(size, n);
    assert size * n == n * size;
    CutUniform(s, size, n);
  }

  /** Joins the pieces group by group. */
  function JoinEach<T>(pss: seq<seq<seq<T>>>): (r: seq<seq<T>>)
    ensures |r| == |pss| && forall i :: 0 <= i < |pss| ==> r[i] == Flatten(pss[i])
  {
    seq(|pss|, i requires 0 <= i < |pss| => Flatten(pss[i]))
  }

  lemma {:induction false} FlattenTwice<T>(pss: seq<seq<seq<T>>>)
    ensures Flatten(JoinEach(pss)) == Flatten(Flatten(pss))
  {
    if pss != [] {
      FlattenTwice(pss[1..]);
      FlattenAppend(pss[0], Flatten(pss[1..]));
      assert JoinEach(pss)[1..] == JoinEach(pss[1..]);
    }
  }
}
