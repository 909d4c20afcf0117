/** How the Kimi engine deals tensors out to the trainer ranks and orders the broadcasts of the
    buckets the receivers fetch. */
module KimiBucketing {
  import opened Buckets
  import opened Sequences
  import opened PackingLaws
  import opened NamedDict
  import opened Arithmetic

  // ---------- dealing out and grouping ----------

  /** The tensors rank `rank` of `world` keeps: those at positions congruent to it. */
  function Mine(ts: seq<Weight>, world: nat, rank: nat, start: nat): seq<Weight>
    requires world > 0
  {
    if ts == [] then []
    else (if start % world == rank then [ts[0]] else []) + Mine(ts[1..], world, rank, start + 1)
  }

  /** Greedy grouping by size: a tensor that does not fit closes the bucket, unless it is empty. */
  function GroupsOf(ts: seq<Weight>, limit: nat, g: seq<Weight>): seq<seq<Weight>> {
    if ts == [] then (if g == [] then [] else [g])
    else if |Bytes(g)| + |ts[0].data| > limit && g != [] then [g] + GroupsOf(ts[1..], limit, [ts[0]])
    else GroupsOf(ts[1..], limit, g + [ts[0]])
  }

  function Dicts(gs: seq<seq<Weight>>): seq<seq<Weight>> {
    seq(|gs|, i requires 0 <= i < |gs| => DictOf(gs[i]))
  }

  /** The generator: an invalid limit raises an error before anything is yielded. */
  method NamedTensorBuckets(ts: seq<Weight>, limit: int, world: nat, rank: nat)
    returns (buckets: seq<seq<Weight>>, ok: bool)
    requires world > 0
    ensures ok <==> limit > 0
    ensures ok ==> buckets == Dicts(GroupsOf(Mine(ts, world, rank, 0), limit, []))
  {
    buckets := [];
    if limit <= 0 { return buckets, false; }
    ok := true;
    var current, size := [], 0;
    ghost var g: seq<Weight> := [];
    assert ts[0..] == ts && [] + Dealt(ts, limit, world, rank, 0, []) == Dealt(ts, limit, world, rank, 0, []);
    ghost var all := Dealt(ts, limit, world, rank, 0, []);
    assert all == Dicts(GroupsOf(Mine(ts, world, rank, 0), limit, []));
    hide Dealt, Mine, GroupsOf, Dicts;
    for i := 0 to |ts|
      invariant current == DictOf(g) && size == |Bytes(g)| && (current == [] <==> g == [])
      invariant buckets + Dealt(ts, limit, world, rank, i, g) == all
    {
      var w := ts[i];
      DealTurn(ts, limit, world, rank, i, g, buckets);
      if i % world == rank {
        if size + |w.data| > limit {
          if current != [] {
            buckets := buckets + [current];
            current, size, g := [], 0, [];
          }
        }
        DictAppend(g, w);
        current := Put(current, w);
        size := size + |w.data|;
        g := g + [w];
      }
    }
    DealEnd(ts, limit, world, rank, g);
    if current != [] {
      buckets := buckets + [current];
    }
  }

  /** What is still to be yielded before tensor i, when the current bucket was made from `g`. */
  ghost function Dealt(ts: seq<Weight>, limit: nat, world: nat, rank: nat, i: nat, g: seq<Weight>): seq<seq<Weight>>
    requires world > 0 && i <= |ts|
  {
    Dicts(GroupsOf(Mine(ts[i..], world, rank, i), limit, g))
  }

  lemma DealTurn(ts: seq<Weight>, limit: nat, world: nat, rank: nat, i: nat, g: seq<Weight>, buckets: seq<seq<Weight>>)
    requires world > 0 && i < |ts|
    ensures var w := ts[i];
            buckets + Dealt(ts, limit, world, rank, i, g) ==
            if i % world != rank then buckets + Dealt(ts, limit, world, rank, i + 1, g)
            else if |Bytes(g)| + |w.data| > limit && g != []
            then buckets + [DictOf(g)] + Dealt(ts, limit, world, rank, i + 1, [] + [w])
            else buckets + Dealt(ts, limit, world, rank, i + 1, g + [w])
  {
    MineTurn(ts, world, rank, i);
    GroupTurn(ts[i], Mine(ts[i+1..], world, rank, i + 1), limit, g, buckets);
  }

  lemma DealEnd(ts: seq<Weight>, limit: nat, world: nat, rank: nat, g: seq<Weight>)
    requires world > 0
    ensures Dealt(ts, limit, world, rank, |ts|, g) == if g == [] then [] else [DictOf(g)]
  {
  }

  lemma MineTurn(ts: seq<Weight>, world: nat, rank: nat, i: nat)
    requires world > 0 && i < |ts|
    ensures var rest := Mine(ts[i+1..], world, rank, i + 1);
            Mine(ts[i..], world, rank, i) == if i % world == rank then [ts[i]] + rest else rest
  {
    assert ts[i..][1..] == ts[i+1..];
    assert [] + Mine(ts[i+1..], world, rank, i + 1) == Mine(ts[i+1..], world, rank, i + 1);
  }

  /** One turn of the loop on a tensor of this rank, as seen by the grouping. */
  lemma GroupTurn(w: Weight, rest: seq<Weight>, limit: nat, g: seq<Weight>, buckets: seq<seq<Weight>>)
    ensures buckets + Dicts(GroupsOf([w] + rest, limit, g)) ==
            if |Bytes(g)| + |w.data| > limit && g != []
            then buckets + [DictOf(g)] + Dicts(GroupsOf(rest, limit, [] + [w]))
            else buckets + Dicts(GroupsOf(rest, limit, g + [w]))
  {
    assert ([w] + rest)[1..] == rest && [] + [w] == [w];
    if |Bytes(g)| + |w.data| > limit && g != [] {
      var more := GroupsOf(rest, limit, [w]);
      DictsCons(g, more);
      assert buckets + ([DictOf(g)] + Dicts(more)) == buckets + [DictOf(g)] + Dicts(more);
    }
  }

  lemma DictAppend(g: seq<Weight>, w: Weight)
    ensures DictOf(g + [w]) == Put(DictOf(g), w) != [] && Bytes(g + [w]) == Bytes(g) + w.data
  {
    assert (g + [w])[..|g|] == g;
  }

  lemma DictsCons(g: seq<Weight>, gs: seq<seq<Weight>>)
    ensures Dicts([g] + gs) == [DictOf(g)] + Dicts(gs)
  {
  }

  // ---------- what the buckets of all ranks amount to ----------

  /** How many of the positions below n are congruent to `rank`. */
  function Share(n: nat, world: nat, rank: nat): nat
    requires rank < world
  {
    (n + world - 1 - rank) / world
  }

  lemma ShareStep(x: nat, world: nat, rank: nat)
    requires rank < world
    ensures Share(x + 1, world, rank) == Share(x, world, rank) + if x % world == rank then 1 else 0
    ensures x % world == rank ==> Share(x, world, rank) == x / world
  {
    DivMod(x, world);
    var q, m := x / world, x % world;
    assert (q + 1) * world == q * world + world;
    if m <= rank {
      DivUnique(x + world - 1 - rank, world, q, m + world - 1 - rank);
    } else {
      DivUnique(x + world - 1 - rank, world, q + 1, m - 1 - rank);
    }
    if m < rank {
      DivUnique(x + world - rank, world, q, m + world - rank);
    } else {
      DivUnique(x + world - rank, world, q + 1, m - rank);
    }
  }

  lemma {:induction false} MineFrom(ts: seq<Weight>, world: nat, rank: nat, start: nat, i: nat)
    requires rank < world && i <= |ts|
    ensures var mine := Mine(ts, world, rank, start);
            && |mine| == Share(start + |ts|, world, rank) - Share(start, world, rank)
            && (i < |ts| && (start + i) % world == rank ==>
                  0 <= Share(start + i, world, rank) - Share(start, world, rank) < |mine|
                  && mine[Share(start + i, world, rank) - Share(start, world, rank)] == ts[i])
  {
    if ts != [] {
      ShareStep(start, world, rank);
      hide Share;
      MineFrom(ts[1..], world, rank, start + 1, if i == 0 then 0 else i - 1);
      assert start + 1 + |ts[1..]| == start + |ts|;
      assert i > 0 ==> start + 1 + (i - 1) == start + i;
    }
  }

  /** Tensor i goes to rank i mod world, at position i / world of that rank. */
  lemma DealtOut(ts: seq<Weight>, world: nat, i: nat)
    requires world > 0 && i < |ts|
    ensures var mine := Mine(ts, world, i % world, 0); i / world < |mine| && mine[i / world] == ts[i]
  {
    MineFrom(ts, world, i % world, 0, i);
    ShareStep(i, world, i % world);
    DivUnique(world - 1 - i % world, world, 0, world - 1 - i % world);
  }

  /** Conversely position j of rank r holds tensor j * world + r: no tensor is repeated. */
  lemma DealtOnce(ts: seq<Weight>, world: nat, rank: nat, j: nat)
    requires rank < world && j < |Mine(ts, world, rank, 0)|
    ensures j * world + rank < |ts| && Mine(ts, world, rank, 0)[j] == ts[j * world + rank]
  {
    hide Mine;
    MineFrom(ts, world, rank, 0, 0);
    DivUnique(world - 1 - rank, world, 0, world - 1 - rank);
    var x := |ts| + world - 1 - rank;
    DivMod(x, world);
    MulMonotone(j + 1, x / world, world);
    assert (j + 1) * world == j * world + world;
    DivUnique(j * world + rank, world, j, rank);
    DealtOut(ts, world, j * world + rank);
  }

  // ---------- what one rank's buckets hold ----------

  /** Only a bucket of a single tensor is larger than the limit. */
  predicate WithinLimit(g: seq<Weight>, limit: nat) { g != [] && (|g| > 1 ==> |Bytes(g)| <= limit) }

  lemma {:induction false} GroupsCover(ts: seq<Weight>, limit: nat, g: seq<Weight>)
    ensures Flatten(GroupsOf(ts, limit, g)) == g + ts
  {
    hide Bytes;
    if ts == [] {
      if g != [] { assert Flatten([g]) == g + Flatten([]); }
    } else {
      HeadTail(ts);
      if |Bytes(g)| + |ts[0].data| > limit && g != [] {
        GroupsCover(ts[1..], limit, [ts[0]]);
        FlattenCons(g, GroupsOf(ts[1..], limit, [ts[0]]));
      } else {
        GroupsCover(ts[1..], limit, g + [ts[0]]);
        Assoc(g, [ts[0]], ts[1..]);
      }
    }
  }

  lemma {:induction false} GroupsWithin(ts: seq<Weight>, limit: nat, g: seq<Weight>)
    requires g == [] || WithinLimit(g, limit)
    ensures forall x <- GroupsOf(ts, limit, g) :: WithinLimit(x, limit)
  {
    if ts != [] {
      StaysWithin(g, ts[0], limit);
      hide WithinLimit, Bytes;
      GroupsWithin(ts[1..], limit, if |Bytes(g)| + |ts[0].data| > limit && g != [] then [ts[0]] else g + [ts[0]]);
    }
  }

  lemma StaysWithin(g: seq<Weight>, w: Weight, limit: nat)
    ensures WithinLimit([w], limit)
    ensures g == [] || |Bytes(g)| + |w.data| <= limit ==> WithinLimit(g + [w], limit)
  {
    BytesAppend(g, w);
    hide Bytes;
  }

  /** The first tensor of a bucket did not fit into the bucket before. */
  predicate Greedy(gs: seq<seq<Weight>>, limit: nat) {
    forall i :: 1 <= i < |gs| ==> gs[i] != [] && |Bytes(gs[i-1])| + |gs[i][0].data| > limit
  }

  lemma {:induction false} GroupsGreedy(ts: seq<Weight>, limit: nat, g: seq<Weight>)
    ensures Greedy(GroupsOf(ts, limit, g), limit)
    ensures g != [] ==> GroupsOf(ts, limit, g) != [] && GroupsOf(ts, limit, g)[0] != [] && GroupsOf(ts, limit, g)[0][0] == g[0]
  {
    hide Bytes;
    if ts != [] {
      if |Bytes(g)| + |ts[0].data| > limit && g != [] {
        GroupsGreedy(ts[1..], limit, [ts[0]]);
        GreedyCons(g, GroupsOf(ts[1..], limit, [ts[0]]), limit);
      } else {
        GroupsGreedy(ts[1..], limit, g + [ts[0]]);
      }
    }
  }

  lemma GreedyCons(g: seq<Weight>, gs: seq<seq<Weight>>, limit: nat)
    requires Greedy(gs, limit) && (gs != [] ==> gs[0] != [] && |Bytes(g)| + |gs[0][0].data| > limit)
    ensures Greedy([g] + gs, limit)
  {
    hide Bytes;
    var all: seq<seq<Weight>> := [g] + gs;
    forall i | 1 <= i < |all| ensures all[i] != [] && |Bytes(all[i-1])| + |all[i][0].data| > limit {
      assert all[i] == gs[i-1] && (i > 1 ==> all[i-1] == gs[i-2]);
    }
  }

  function PutNames(d: seq<Weight>): set<string> { set w <- d :: w.name }

  lemma {:induction false} PutLength(d: seq<Weight>, w: Weight)
    ensures w.name !in PutNames(d) ==> Put(d, w) == d + [w]
    ensures w.name in PutNames(d) ==> |Put(d, w)| == |d|
    ensures PutNames(Put(d, w)) == PutNames(d) + {w.name}
  {
    if d != [] {
      assert d == [d[0]] + d[1..];
      PutNamesCons(d[0], d[1..]);
      if d[0].name == w.name {
        PutNamesCons(w, d[1..]);
      } else {
        PutLength(d[1..], w);
        PutNamesCons(d[0], Put(d[1..], w));
      }
    }
  }

  lemma PutNamesCons(x: Weight, d: seq<Weight>)
    ensures PutNames([x] + d) == {x.name} + PutNames(d)
  {
    assert forall w :: w in [x] + d <==> w == x || w in d;
  }

  lemma {:induction false} DictExact(g: seq<Weight>)
    ensures |DictOf(g)| <= |g| && PutNames(DictOf(g)) == WeightNames(g)
    ensures DictOf(g) == g <==> DistinctNames(g)
    ensures |DictOf(g)| == |g| <==> DistinctNames(g)
  {
    if g != [] {
      var p, w := g[..|g|-1], g[|g|-1];
      DictNext(g);
      hide *;
      DictExact(p);
      PutLength(DictOf(p), w);
      DistinctStep(g);
      DictSame(p, w, DictOf(p));
    }
  }

  lemma DictNext(g: seq<Weight>)
    requires g != []
    ensures var p, w := g[..|g|-1], g[|g|-1];
            g == p + [w] && DictOf(g) == Put(DictOf(p), w) && WeightNames(g) == WeightNames(p) + {w.name}
  {
    hide Put;
  }

  lemma DictSame(p: seq<Weight>, w: Weight, d: seq<Weight>)
    ensures |d| < |p| ==> d + [w] != p + [w]
    ensures d == p ==> d + [w] == p + [w]
    ensures d + [w] == p + [w] ==> d == p
  {
    assert (d + [w])[..|d|] == d && (p + [w])[..|p|] == p;
  }

  lemma {:induction false} DictsExact(gs: seq<seq<Weight>>)
    ensures |Flatten(Dicts(gs))| <= |Flatten(gs)|
    ensures Flatten(Dicts(gs)) == Flatten(gs) <==> forall g <- gs :: DistinctNames(g)
    ensures |Flatten(Dicts(gs))| == |Flatten(gs)| ==> forall g <- gs :: DistinctNames(g)
  {
    if gs != [] {
      DictsExact(gs[1..]);
      DictExact(gs[0]);
      DictsCons(gs[0], gs[1..]);
      HeadTail(gs);
      assert forall g :: g in gs <==> g == gs[0] || g in gs[1..];
      hide DictOf, Dicts, DistinctNames;
      FlattenCons(DictOf(gs[0]), Dicts(gs[1..]));
    }
  }

  /** The buckets of one rank hold exactly its tensors, in input order, if and only if no two tensors
      of equal name share a bucket; a bucket exceeds the limit only if it holds a single tensor. */
  lemma RankBuckets(ts: seq<Weight>, limit: nat, world: nat, rank: nat)
    requires rank < world
    ensures var mine := Mine(ts, world, rank, 0); var gs := GroupsOf(mine, limit, []);
            && (Flatten(Dicts(gs)) == mine <==> forall g <- gs :: DistinctNames(g))
            && (forall g <- gs :: WithinLimit(g, limit)) && Greedy(gs, limit)
            && (forall i :: 0 <= i < |gs| ==> Keyed(Dicts(gs)[i], gs[i]))
  {
    var mine := Mine(ts, world, rank, 0);
    hide Mine, Flatten, GroupsOf, WithinLimit, DistinctNames, Greedy, Keyed, DictOf;
    GroupsCover(mine, limit, []);
    assert [] + mine == mine;
    DictsExact(GroupsOf(mine, limit, []));
    GroupsWithin(mine, limit, []);
    GroupsGreedy(mine, limit, []);
    DictsKeyed(GroupsOf(mine, limit, []));
  }

  lemma DictsKeyed(gs: seq<seq<Weight>>)
    ensures |Dicts(gs)| == |gs| && forall i :: 0 <= i < |gs| ==> Keyed(Dicts(gs)[i], gs[i])
  {
    hide Keyed, DictOf;
    forall i | 0 <= i < |gs| ensures Keyed(Dicts(gs)[i], gs[i]) { DictKeyed(gs[i]); }
  }

  // ---------- all ranks together ----------

  predicate RankDistinct(ts: seq<Weight>, limit: nat, world: nat, rank: nat)
    requires world > 0
  {
    forall g <- GroupsOf(Mine(ts, world, rank, 0), limit, []) :: DistinctNames(g)
  }

  /** What the buckets of one rank hold, one after the other. */
  function HeldBy(ts: seq<Weight>, limit: nat, world: nat, rank: nat): seq<Weight>
    requires world > 0
  {
    Flatten(Dicts(GroupsOf(Mine(ts, world, rank, 0), limit, [])))
  }

  /** What the buckets of the first n ranks hold. */
  function AllHeld(ts: seq<Weight>, limit: nat, world: nat, n: nat): seq<Weight>
    requires world > 0
  {
    if n == 0 then [] else AllHeld(ts, limit, world, n - 1) + HeldBy(ts, limit, world, n - 1)
  }

  /** What is dealt out to the first n ranks. */
  function AllMine(ts: seq<Weight>, world: nat, n: nat, start: nat): seq<Weight>
    requires world > 0
  {
    if n == 0 then [] else AllMine(ts, world, n - 1, start) + Mine(ts, world, n - 1, start)
  }

  /** What w adds to the tensors of the first n ranks if it is dealt to rank r. */
  function AddedBy(w: Weight, r: int, n: nat): multiset<Weight> { if r < n then multiset{w} else multiset{} }

  lemma {:induction false} MineCons(ts: seq<Weight>, world: nat, n: nat, start: nat)
    requires world > 0 && ts != []
    ensures multiset(AllMine(ts, world, n, start))
         == multiset(AllMine(ts[1..], world, n, start + 1)) + AddedBy(ts[0], start % world, n)
  {
    hide *;
    if n == 0 {
      NoneMine(ts, world, start);
    } else {
      MineCons(ts, world, n - 1, start);
      MineHead(ts, world, n - 1, start);
      AllMineNext(ts, world, n - 1, start);
      AllMineNext(ts[1..], world, n - 1, start + 1);
      AddedNext(multiset(AllMine(ts[1..], world, n - 1, start + 1)), multiset(Mine(ts[1..], world, n - 1, start + 1)),
                ts[0], start % world, n - 1);
    }
  }

  lemma NoneMine(ts: seq<Weight>, world: nat, start: nat)
    requires world > 0 && ts != []
    ensures multiset(AllMine(ts, world, 0, start)) == multiset(AllMine(ts[1..], world, 0, start + 1)) + AddedBy(ts[0], start % world, 0)
  {
  }

  lemma AddedNext(front: multiset<Weight>, here: multiset<Weight>, w: Weight, r: int, n: nat)
    ensures (front + AddedBy(w, r, n)) + (here + if r == n then multiset{w} else multiset{}) == (front + here) + AddedBy(w, r, n + 1)
  {
  }

  lemma AllMineNext(ts: seq<Weight>, world: nat, n: nat, start: nat)
    requires world > 0
    ensures multiset(AllMine(ts, world, n + 1, start)) == multiset(AllMine(ts, world, n, start)) + multiset(Mine(ts, world, n, start))
  {
    hide Mine;
  }

  lemma MineHead(ts: seq<Weight>, world: nat, rank: nat, start: nat)
    requires world > 0 && ts != []
    ensures multiset(Mine(ts, world, rank, start))
         == multiset(Mine(ts[1..], world, rank, start + 1)) + if start % world == rank then multiset{ts[0]} else multiset{}
  {
    var rest := Mine(ts[1..], world, rank, start + 1);
    assert Mine(ts, world, rank, start) == if start % world == rank then [ts[0]] + rest else rest by {
      assert [] + rest == rest;
    }
  }

  lemma {:induction false} NothingDealt(world: nat, n: nat, start: nat)
    requires world > 0
    ensures AllMine([], world, n, start) == []
  {
    if n > 0 { NothingDealt(world, n - 1, start); }
  }

  lemma {:induction false} DealtToAll(ts: seq<Weight>, world: nat, start: nat)
    requires world > 0
    ensures multiset(AllMine(ts, world, world, start)) == multiset(ts)
  {
    hide *;
    if ts == [] {
      NothingDealt(world, world, start);
    } else {
      DealtToAll(ts[1..], world, start + 1);
      MineCons(ts, world, world, start);
      AddedOnce(ts[0], start, world);
      HeadTail(ts);
      assert multiset([ts[0]] + ts[1..]) == multiset{ts[0]} + multiset(ts[1..]);
    }
  }

  lemma AddedOnce(w: Weight, start: nat, world: nat)
    requires world > 0
    ensures AddedBy(w, start % world, world) == multiset{w}
  {
  }

  /** The buckets of a rank hold at most what it was dealt, and as much exactly for distinct names. */
  lemma RankHolds(ts: seq<Weight>, limit: nat, world: nat, rank: nat)
    requires world > 0
    ensures |HeldBy(ts, limit, world, rank)| <= |Mine(ts, world, rank, 0)|
    ensures |HeldBy(ts, limit, world, rank)| == |Mine(ts, world, rank, 0)| ==> RankDistinct(ts, limit, world, rank)
    ensures RankDistinct(ts, limit, world, rank) ==> HeldBy(ts, limit, world, rank) == Mine(ts, world, rank, 0)
  {
    var mine := Mine(ts, world, rank, 0);
    hide Mine, Flatten, Dicts, GroupsOf, DistinctNames;
    GroupsCover(mine, limit, []);
    assert [] + mine == mine;
    DictsExact(GroupsOf(mine, limit, []));
  }

  lemma {:induction false} RanksHold(ts: seq<Weight>, limit: nat, world: nat, n: nat)
    requires world > 0
    ensures |AllHeld(ts, limit, world, n)| <= |AllMine(ts, world, n, 0)|
    ensures |AllHeld(ts, limit, world, n)| == |AllMine(ts, world, n, 0)| ==> forall r :: 0 <= r < n ==> RankDistinct(ts, limit, world, r)
    ensures (forall r :: 0 <= r < n ==> RankDistinct(ts, limit, world, r)) ==> AllHeld(ts, limit, world, n) == AllMine(ts, world, n, 0)
  {
    hide RankDistinct, HeldBy, Mine;
    if n > 0 {
      RanksHold(ts, limit, world, n - 1);
      RankHolds(ts, limit, world, n - 1);
    }
  }

  /** The buckets of all ranks partition the tensors, none lost and none repeated, if and only if no two
      tensors of equal name share a bucket. */
  lemma BucketsPartition(ts: seq<Weight>, limit: nat, world: nat)
    requires world > 0
    ensures multiset(AllHeld(ts, limit, world, world)) == multiset(ts)
       <==> forall r :: 0 <= r < world ==> RankDistinct(ts, limit, world, r)
  {
    hide AllHeld, AllMine, RankDistinct;
    DealtToAll(ts, world, 0);
    RanksHold(ts, limit, world, world);
    SameSize(ts, AllMine(ts, world, world, 0));
    if multiset(AllHeld(ts, limit, world, world)) == multiset(ts) { SameSize(AllHeld(ts, limit, world, world), ts); }
  }

  lemma SameSize(x: seq<Weight>, y: seq<Weight>)
    requires multiset(x) == multiset(y)
    ensures |x| == |y|
  {
    assert |x| == |multiset(x)| == |multiset(y)| == |y|;
  }
}
