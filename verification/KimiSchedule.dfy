/** The order in which all Kimi ranks broadcast the buckets: round i takes the i-th bucket of every
    receiver, receivers in the order in which they first appear. */
module KimiSchedule {
  import opened Wrappers
  import opened Buckets

  datatype Fetch = Fetch(receiver: nat, owner: nat, bucket: Bucket)

  /** One entry of `buckets_by_receiver_rank`, a dict in insertion order. */
  datatype Queue = Queue(rank: nat, items: seq<Fetch>)

  function Enqueue(qs: seq<Queue>, f: Fetch): seq<Queue> {
    if qs == [] then [Queue(f.receiver, [f])]
    else if qs[0].rank == f.receiver then [Queue(qs[0].rank, qs[0].items + [f])] + qs[1..]
    else [qs[0]] + Enqueue(qs[1..], f)
  }

  function Queues(fs: seq<Fetch>): seq<Queue> {
    if fs == [] then [] else Enqueue(Queues(fs[..|fs|-1]), fs[|fs|-1])
  }

  function QueueOf(qs: seq<Queue>, rank: nat): seq<Fetch> {
    if qs == [] then [] else if qs[0].rank == rank then qs[0].items else QueueOf(qs[1..], rank)
  }

  function Longest(qs: seq<Queue>): nat {
    if qs == [] then 0 else var n := Longest(qs[1..]); if |qs[0].items| > n then |qs[0].items| else n
  }

  function Round(qs: seq<Queue>, i: nat): seq<Fetch> {
    if qs == [] then [] else (if i < |qs[0].items| then [qs[0].items[i]] else []) + Round(qs[1..], i)
  }

  function Rounds(qs: seq<Queue>, n: nat): seq<Fetch> {
    if n == 0 then [] else Rounds(qs, n - 1) + Round(qs, n - 1)
  }

  function Plan(fs: seq<Fetch>): seq<Fetch> { Rounds(Queues(fs), Longest(Queues(fs))) }

  /** The buckets of one receiver, in the order of the list. */
  function For(fs: seq<Fetch>, rank: nat): seq<Fetch> {
    if fs == [] then []
    else For(fs[..|fs|-1], rank) + if fs[|fs|-1].receiver == rank then [fs[|fs|-1]] else []
  }

  /** The receive loop of rank `self`: the broadcasts it takes part in, one after the other, and what
      it casts, out of the buffer into which it stages one of its buckets per round, whenever it is the
      source. */
  method ReceiveOrder(fs: seq<Fetch>, self: nat) returns (plan: seq<Fetch>, cast: seq<Fetch>)
    ensures plan == Plan(fs)
    ensures cast == For(plan, self)
  {
    var own := Own(fs, self);
    var qs, maxLen := Group(fs);
    hide *;
    plan, cast := [], [];
    var buffer: Option<Fetch> := None;
    PlanIs(fs);
    NoneFor(self);
    for i := 0 to maxLen
      invariant plan == Rounds(qs, i) && cast == For(plan, self)
    {
      if i < |own| { buffer := Some(own[i]); }
      RoundStart(plan, qs, i);
      for j := 0 to |qs|
        invariant plan + Round(qs[j..], i) == Rounds(qs, i + 1) && cast == For(plan, self)
        invariant i < |own| ==> buffer == Some(own[i])
      {
        RoundTurn(plan, qs, i, j);
        if i < |qs[j].items| {
          OwnItem(fs, self, i, j);
          ForSnoc(plan, qs[j].items[i], self);
          plan := plan + [qs[j].items[i]];
          if qs[j].items[i].receiver == self { cast := cast + [buffer.value]; }
        }
      }
      RoundEnd(plan, qs, i);
    }
  }

  /** `receiver_rank_buckets`. */
  method Own(fs: seq<Fetch>, self: nat) returns (own: seq<Fetch>)
    ensures own == For(fs, self)
  {
    own := [];
    for k := 0 to |fs|
      invariant own == For(fs[..k], self)
    {
      assert fs[..k+1][..k] == fs[..k];
      if fs[k].receiver == self { own := own + [fs[k]]; }
    }
    assert fs[..|fs|] == fs;
  }

  /** `buckets_by_receiver_rank` and `max_len`. */
  method Group(fs: seq<Fetch>) returns (qs: seq<Queue>, maxLen: nat)
    ensures qs == Queues(fs) && maxLen == Longest(qs)
  {
    qs, maxLen := [], 0;
    for k := 0 to |fs|
      invariant qs == Queues(fs[..k]) && maxLen == Longest(qs)
    {
      assert fs[..k+1][..k] == fs[..k];
      LongestEnqueue(qs, fs[k]);
      qs := Enqueue(qs, fs[k]);
      if |QueueOf(qs, fs[k].receiver)| > maxLen { maxLen := |QueueOf(qs, fs[k].receiver)|; }
    }
    assert fs[..|fs|] == fs;
  }

  lemma PlanIs(fs: seq<Fetch>)
    ensures Plan(fs) == Rounds(Queues(fs), Longest(Queues(fs))) && Rounds(Queues(fs), 0) == []
  {
  }

  lemma NoneFor(rank: nat)
    ensures For([], rank) == []
  {
  }

  lemma ForSnoc(fs: seq<Fetch>, f: Fetch, rank: nat)
    ensures For(fs + [f], rank) == For(fs, rank) + if f.receiver == rank then [f] else []
  {
    assert (fs + [f])[..|fs|] == fs;
  }

  lemma RoundStart(plan: seq<Fetch>, qs: seq<Queue>, i: nat)
    requires plan == Rounds(qs, i)
    ensures plan + Round(qs[0..], i) == Rounds(qs, i + 1)
  {
    assert qs[0..] == qs;
    hide Round;
  }

  lemma RoundEnd(plan: seq<Fetch>, qs: seq<Queue>, i: nat)
    ensures plan + Round(qs[|qs|..], i) == plan
  {
  }

  /** What queue j holds at i, if its rank is `self`, is the i-th of the buckets of that rank. */
  lemma OwnItem(fs: seq<Fetch>, self: nat, i: nat, j: nat)
    requires var qs := Queues(fs); j < |qs| && i < |qs[j].items|
    ensures Queues(fs)[j].items[i].receiver == self ==> i < |For(fs, self)| && Queues(fs)[j].items[i] == For(fs, self)[i]
  {
    hide For, Queues;
    QueuesHold(fs, self);
    QueueAt(Queues(fs), j);
  }

  lemma {:induction false} QueueAt(qs: seq<Queue>, j: nat)
    requires DistinctRanks(qs) && j < |qs|
    ensures QueueOf(qs, qs[j].rank) == qs[j].items
  {
    if j > 0 {
      assert qs[0].rank != qs[j].rank;
      assert DistinctRanks(qs[1..]) by { assert forall k :: 0 <= k < |qs| - 1 ==> qs[1..][k] == qs[k + 1]; }
      QueueAt(qs[1..], j - 1);
    }
  }

  lemma RoundTurn(plan: seq<Fetch>, qs: seq<Queue>, i: nat, j: nat)
    requires j < |qs|
    ensures plan + Round(qs[j..], i) ==
            if i < |qs[j].items| then plan + [qs[j].items[i]] + Round(qs[j+1..], i) else plan + Round(qs[j+1..], i)
  {
    assert qs[j..][1..] == qs[j+1..];
    var rest := Round(qs[j+1..], i);
    if i < |qs[j].items| {
      assert plan + ([qs[j].items[i]] + rest) == plan + [qs[j].items[i]] + rest;
    } else {
      assert [] + rest == rest;
    }
  }

  lemma {:induction false} LongestEnqueue(qs: seq<Queue>, f: Fetch)
    ensures var n := |QueueOf(Enqueue(qs, f), f.receiver)|;
            Longest(Enqueue(qs, f)) == if n > Longest(qs) then n else Longest(qs)
    ensures QueueOf(Enqueue(qs, f), f.receiver) == QueueOf(qs, f.receiver) + [f]
    ensures forall r :: r != f.receiver ==> QueueOf(Enqueue(qs, f), r) == QueueOf(qs, r)
    ensures |QueueOf(qs, f.receiver)| <= Longest(qs)
  {
    if qs != [] {
      LongestEnqueue(qs[1..], f);
      assert Enqueue(qs, f)[1..] == if qs[0].rank == f.receiver then qs[1..] else Enqueue(qs[1..], f);
    }
  }

  predicate DistinctRanks(qs: seq<Queue>) { forall i, j :: 0 <= i < j < |qs| ==> qs[i].rank != qs[j].rank }

  predicate OwnRank(qs: seq<Queue>) {
    forall i, k :: 0 <= i < |qs| && 0 <= k < |qs[i].items| ==> qs[i].items[k].receiver == qs[i].rank
  }

  lemma {:induction false} EnqueueShape(qs: seq<Queue>, f: Fetch)
    requires DistinctRanks(qs) && OwnRank(qs)
    ensures var e := Enqueue(qs, f);
            && OwnRank(e)
            && (forall i :: 0 <= i < |qs| ==> i < |e| && e[i].rank == qs[i].rank)
            && (|e| == |qs| || (|e| == |qs| + 1 && e[|qs|].rank == f.receiver && forall i :: 0 <= i < |qs| ==> qs[i].rank != f.receiver))
            && DistinctRanks(e)
  {
    if qs != [] && qs[0].rank != f.receiver {
      EnqueueShape(qs[1..], f);
      var e, t := Enqueue(qs, f), Enqueue(qs[1..], f);
      assert forall i :: 1 <= i < |e| ==> e[i] == t[i-1];
      assert forall i :: 1 <= i < |qs| ==> qs[i] == qs[1..][i-1];
    }
  }

  lemma {:induction false} QueuesHold(fs: seq<Fetch>, rank: nat)
    ensures DistinctRanks(Queues(fs)) && OwnRank(Queues(fs))
    ensures QueueOf(Queues(fs), rank) == For(fs, rank)
  {
    if fs != [] {
      var p := fs[..|fs|-1];
      QueuesHold(p, rank);
      EnqueueShape(Queues(p), fs[|fs|-1]);
      LongestEnqueue(Queues(p), fs[|fs|-1]);
    }
  }

  lemma {:induction false} ForAppend(a: seq<Fetch>, b: seq<Fetch>, rank: nat)
    ensures For(a + b, rank) == For(a, rank) + For(b, rank)
  {
    if b == [] {
      assert a + b == a;
    } else {
      ForAppend(a, b[..|b|-1], rank);
      assert (a + b)[..|a + b|-1] == a + b[..|b|-1];
    }
  }

  /** Round i holds at most one bucket of a receiver: the i-th of its queue. */
  lemma {:induction false} ForRound(qs: seq<Queue>, i: nat, rank: nat)
    requires DistinctRanks(qs) && OwnRank(qs)
    ensures var q := QueueOf(qs, rank); For(Round(qs, i), rank) == if i < |q| then [q[i]] else []
  {
    if qs != [] {
      var rest := qs[1..];
      assert DistinctRanks(rest) && OwnRank(rest) by {
        assert forall j :: 0 <= j < |rest| ==> rest[j] == qs[j+1];
      }
      ForRound(rest, i, rank);
      var head := if i < |qs[0].items| then [qs[0].items[i]] else [];
      ForAppend(head, Round(rest, i), rank);
      HeadOnly(head, qs[0].rank, rank);
      if qs[0].rank == rank { QueueMissing(rest, rank); }
    }
  }

  lemma HeadOnly(head: seq<Fetch>, r: nat, rank: nat)
    requires |head| <= 1 && (|head| == 1 ==> head[0].receiver == r)
    ensures For(head, rank) == if r == rank then head else []
  {
    if |head| == 1 { assert head[..0] == [] && head == [head[0]]; }
  }

  function Take(q: seq<Fetch>, n: nat): seq<Fetch> { if n <= |q| then q[..n] else q }

  lemma TakeNext(q: seq<Fetch>, n: nat)
    ensures Take(q, n + 1) == Take(q, n) + if n < |q| then [q[n]] else []
  {
  }

  lemma {:induction false} ForRounds(qs: seq<Queue>, n: nat, rank: nat)
    requires DistinctRanks(qs) && OwnRank(qs)
    ensures For(Rounds(qs, n), rank) == Take(QueueOf(qs, rank), n)
  {
    hide Round, QueueOf, DistinctRanks, OwnRank;
    if n > 0 {
      assert Rounds(qs, n) == Rounds(qs, n - 1) + Round(qs, n - 1);
      ForRounds(qs, n - 1, rank);
      ForRound(qs, n - 1, rank);
      ForAppend(Rounds(qs, n - 1), Round(qs, n - 1), rank);
      TakeNext(QueueOf(qs, rank), n - 1);
    }
  }

  lemma {:induction false} QueueBelowLongest(qs: seq<Queue>, rank: nat)
    ensures |QueueOf(qs, rank)| <= Longest(qs)
  {
    if qs != [] { QueueBelowLongest(qs[1..], rank); }
  }

  /** Every bucket is broadcast exactly once, the buckets of each receiver in list order. */
  lemma PlanComplete(fs: seq<Fetch>, rank: nat)
    ensures For(Plan(fs), rank) == For(fs, rank)
  {
    QueuesHold(fs, rank);
    ForRounds(Queues(fs), Longest(Queues(fs)), rank);
    QueueBelowLongest(Queues(fs), rank);
  }

  // ---------- the order of the plan ----------

  /** How many broadcasts of the same source come before position p. */
  function Before(plan: seq<Fetch>, p: nat): nat
    requires p < |plan|
  {
    |For(plan[..p], plan[p].receiver)|
  }

  /** Rank r receives a bucket of the list before rank s receives any. */
  predicate FirstIn(fs: seq<Fetch>, r: nat, s: nat) {
    exists a :: 0 <= a < |fs| && fs[a].receiver == r && forall b :: 0 <= b <= a ==> fs[b].receiver != s
  }

  /** Position p of the first n rounds is that of bucket i of queue j. */
  predicate IsAt(qs: seq<Queue>, n: nat, p: nat, i: nat, j: nat) {
    && p < |Rounds(qs, n)| && i < n && j < |qs| && i < |qs[j].items| && Rounds(qs, n)[p] == qs[j].items[i]
    && qs[j].items[i].receiver == qs[j].rank && Before(Rounds(qs, n), p) == i
  }

  /** What queue q puts into round i. */
  function Share(q: Queue, i: nat): (r: seq<Fetch>)
    ensures |r| <= 1
  {
    if i < |q.items| then [q.items[i]] else []
  }

  /** Position p of round i is that of queue j. */
  lemma {:induction false} InRound(qs: seq<Queue>, i: nat, p: nat) returns (j: nat)
    requires DistinctRanks(qs) && OwnRank(qs) && p < |Round(qs, i)|
    ensures j < |qs| && i < |qs[j].items| && Round(qs, i)[p] == qs[j].items[i] && For(Round(qs, i)[..p], qs[j].rank) == []
    ensures Round(qs, i)[..p] == Round(qs[..j], i)
  {
    hide *;
    RoundCons(qs, i);
    var rest, head := qs[1..], Share(qs[0], i);
    if p < |head| {
      j := 0;
      ShareIs(qs[0], i);
      NoQueues(qs, i);
      NoneFor(qs[0].rank);
    } else {
      RestShape(qs);
      var m := p - |head|;
      var k := InRound(rest, i, m);
      j := k + 1;
      FrontRound(qs, i, j);
      SliceBehind(head, Round(rest, i), m);
      ForAppend(head, Round(rest, i)[..m], qs[j].rank);
      ShareOfOther(qs, i, j);
    }
  }

  lemma RoundCons(qs: seq<Queue>, i: nat)
    ensures if qs == [] then Round(qs, i) == [] else Round(qs, i) == Share(qs[0], i) + Round(qs[1..], i)
  {
  }

  lemma ShareIs(q: Queue, i: nat)
    ensures Share(q, i) != [] ==> i < |q.items| && Share(q, i) == [q.items[i]]
  {
  }

  lemma NoQueues(qs: seq<Queue>, i: nat)
    ensures Round(qs[..0], i) == []
  {
  }

  lemma RestShape(qs: seq<Queue>)
    requires DistinctRanks(qs) && OwnRank(qs) && qs != []
    ensures DistinctRanks(qs[1..]) && OwnRank(qs[1..])
  {
    var rest := qs[1..];
    assert forall k :: 0 <= k < |rest| ==> rest[k] == qs[k + 1];
  }

  lemma FrontRound(qs: seq<Queue>, i: nat, j: nat)
    requires 0 < j <= |qs|
    ensures Round(qs[..j], i) == Share(qs[0], i) + Round(qs[1..][..j - 1], i)
  {
    hide *;
    RoundCons(qs[..j], i);
    assert qs[..j][0] == qs[0] && qs[..j][1..] == qs[1..][..j - 1];
  }

  lemma SliceBehind(x: seq<Fetch>, y: seq<Fetch>, m: nat)
    requires m < |y|
    ensures (x + y)[..|x| + m] == x + y[..m] && (x + y)[|x| + m] == y[m]
  {
  }

  lemma ShareOfOther(qs: seq<Queue>, i: nat, j: nat)
    requires DistinctRanks(qs) && OwnRank(qs) && 0 < j < |qs|
    ensures For(Share(qs[0], i), qs[j].rank) == []
  {
    HeadOnly(Share(qs[0], i), qs[0].rank, qs[j].rank);
  }

  lemma Earlier(qs: seq<Queue>, n: nat, p: nat, i: nat, j: nat)
    requires IsAt(qs, n, p, i, j)
    ensures IsAt(qs, n + 1, p, i, j)
  {
    hide Round, For;
    var r, s := Rounds(qs, n), Rounds(qs, n + 1);
    assert s == r + Round(qs, n) && s[p] == r[p] && s[..p] == r[..p];
  }

  /** Position p of the last round. */
  lemma Latest(qs: seq<Queue>, n: nat, p: nat, j: nat)
    requires DistinctRanks(qs) && OwnRank(qs) && j < |qs| && n < |qs[j].items| && p < |Round(qs, n)|
    requires Round(qs, n)[p] == qs[j].items[n] && For(Round(qs, n)[..p], qs[j].rank) == []
    ensures IsAt(qs, n + 1, |Rounds(qs, n)| + p, n, j)
  {
    hide *;
    var r, round := Rounds(qs, n), Round(qs, n);
    RoundBehind(qs, n, p);
    OwnItems(qs, j, n);
    ForAppend(r, round[..p], qs[j].rank);
    ForRounds(qs, n, qs[j].rank);
    QueueAt(qs, j);
    FullTake(qs[j].items, n);
    AtIs(qs, n + 1, |r| + p, n, j);
  }

  lemma RoundsNext(qs: seq<Queue>, n: nat)
    ensures Rounds(qs, n) == if n == 0 then [] else Rounds(qs, n - 1) + Round(qs, n - 1)
  {
    hide Round;
  }

  lemma RoundBehind(qs: seq<Queue>, n: nat, p: nat)
    requires p < |Round(qs, n)|
    ensures var r, round, all := Rounds(qs, n), Round(qs, n), Rounds(qs, n + 1);
            |r| + p < |all| && all[|r| + p] == round[p] && all[..|r| + p] == r + round[..p]
  {
    hide *;
    RoundsNext(qs, n + 1);
  }

  lemma OwnItems(qs: seq<Queue>, j: nat, i: nat)
    requires OwnRank(qs) && j < |qs| && i < |qs[j].items|
    ensures qs[j].items[i].receiver == qs[j].rank
  {
  }

  lemma FullTake(q: seq<Fetch>, n: nat)
    requires n < |q|
    ensures |Take(q, n)| == n
  {
  }

  lemma AtIs(qs: seq<Queue>, n: nat, p: nat, i: nat, j: nat)
    requires p < |Rounds(qs, n)| && i < n && j < |qs| && i < |qs[j].items| && Rounds(qs, n)[p] == qs[j].items[i]
    requires qs[j].items[i].receiver == qs[j].rank && |For(Rounds(qs, n)[..p], qs[j].rank)| == i
    ensures IsAt(qs, n, p, i, j)
  {
    hide For, Rounds;
  }

  lemma {:induction false} Locate(qs: seq<Queue>, n: nat, p: nat) returns (i: nat, j: nat)
    requires DistinctRanks(qs) && OwnRank(qs) && p < |Rounds(qs, n)|
    ensures IsAt(qs, n, p, i, j)
  {
    hide *;
    RoundsNext(qs, n);
    var r := Rounds(qs, n - 1);
    if p < |r| {
      i, j := Locate(qs, n - 1, p);
      Earlier(qs, n - 1, p, i, j);
    } else {
      i := n - 1;
      j := InRound(qs, i, p - |r|);
      Latest(qs, i, p - |r|, j);
    }
  }

  /** Of two positions the later one belongs to a later round, or to a later queue in the same round. */
  lemma {:induction false} LaterAt(qs: seq<Queue>, n: nat, p: nat, q: nat) returns (i: nat, j: nat, k: nat, l: nat)
    requires DistinctRanks(qs) && OwnRank(qs) && p < q < |Rounds(qs, n)|
    ensures IsAt(qs, n, p, i, j) && IsAt(qs, n, q, k, l) && (i < k || (i == k && j < l))
  {
    hide *;
    RoundsNext(qs, n);
    var r := Rounds(qs, n - 1);
    if q < |r| {
      i, j, k, l := LaterAt(qs, n - 1, p, q);
      Earlier(qs, n - 1, p, i, j);
      Earlier(qs, n - 1, q, k, l);
    } else {
      k := n - 1;
      l := InRound(qs, k, q - |r|);
      Latest(qs, k, q - |r|, l);
      if p < |r| {
        i, j := Locate(qs, n - 1, p);
        AtRound(qs, n - 1, p, i, j);
        Earlier(qs, n - 1, p, i, j);
      } else {
        i := k;
        j := InFront(qs, k, p - |r|, q - |r|, l);
        Latest(qs, k, p - |r|, j);
      }
    }
  }

  lemma AtRound(qs: seq<Queue>, n: nat, p: nat, i: nat, j: nat)
    requires IsAt(qs, n, p, i, j)
    ensures i < n
  {
  }

  lemma InFront(qs: seq<Queue>, i: nat, p: nat, q: nat, l: nat) returns (j: nat)
    requires DistinctRanks(qs) && OwnRank(qs) && l < |qs| && p < q <= |Round(qs, i)| && Round(qs, i)[..q] == Round(qs[..l], i)
    ensures j < l && i < |qs[j].items| && Round(qs, i)[p] == qs[j].items[i] && For(Round(qs, i)[..p], qs[j].rank) == []
  {
    hide Round, For;
    j := InRound(qs[..l], i, p);
    assert Round(qs, i)[..q][..p] == Round(qs, i)[..p] && Round(qs, i)[..q][p] == Round(qs, i)[p];
  }

  /** The queues stand in the order in which their ranks appear in the list. */
  lemma {:induction false} QueuesInOrder(fs: seq<Fetch>, j: nat, l: nat)
    requires j < l < |Queues(fs)|
    ensures FirstIn(fs, Queues(fs)[j].rank, Queues(fs)[l].rank)
  {
    hide *;
    QueuesNext(fs);
    var n := |fs| - 1;
    var init, f := fs[..n], fs[n];
    QueuesHold(init, f.receiver);
    EnqueueShape(Queues(init), f);
    assert fs == init + [f];
    if l < |Queues(init)| {
      QueuesInOrder(init, j, l);
      FirstStays(init, f, Queues(init)[j].rank, Queues(init)[l].rank);
    } else {
      var r := Queues(init)[j].rank;
      QueueNotEmpty(init, j);
      QueueMissing(Queues(init), f.receiver);
      NoneOf(init, f.receiver);
      NewBehind(init, f, r);
    }
  }

  lemma QueuesNext(fs: seq<Fetch>)
    ensures Queues(fs) == if fs == [] then [] else Enqueue(Queues(fs[..|fs|-1]), fs[|fs|-1])
  {
    hide Enqueue;
  }

  lemma FirstStays(fs: seq<Fetch>, f: Fetch, r: nat, s: nat)
    requires FirstIn(fs, r, s)
    ensures FirstIn(fs + [f], r, s)
  {
    var a :| 0 <= a < |fs| && fs[a].receiver == r && forall b :: 0 <= b <= a ==> fs[b].receiver != s;
    var gs := fs + [f];
    assert gs[a].receiver == r && forall b :: 0 <= b <= a ==> gs[b] == fs[b];
  }

  lemma {:induction false} QueueNotEmpty(fs: seq<Fetch>, j: nat)
    requires j < |Queues(fs)|
    ensures exists a :: 0 <= a < |fs| && fs[a].receiver == Queues(fs)[j].rank
  {
    var n := |fs| - 1;
    QueuesHold(fs[..n], 0);
    EnqueueShape(Queues(fs[..n]), fs[n]);
    if j < |Queues(fs[..n])| {
      QueueNotEmpty(fs[..n], j);
      var a :| 0 <= a < n && fs[..n][a].receiver == Queues(fs[..n])[j].rank;
      assert fs[a].receiver == Queues(fs)[j].rank;
    } else {
      assert fs[n].receiver == Queues(fs)[j].rank;
    }
  }

  lemma {:induction false} QueueMissing(qs: seq<Queue>, rank: nat)
    requires forall j :: 0 <= j < |qs| ==> qs[j].rank != rank
    ensures QueueOf(qs, rank) == []
  {
    if qs != [] {
      assert qs[0].rank != rank;
      QueueMissing(qs[1..], rank);
    }
  }

  lemma {:induction false} NoneOf(fs: seq<Fetch>, rank: nat)
    requires For(fs, rank) == []
    ensures forall b :: 0 <= b < |fs| ==> fs[b].receiver != rank
  {
    if fs != [] { NoneOf(fs[..|fs|-1], rank); }
  }

  lemma NewBehind(fs: seq<Fetch>, f: Fetch, r: nat)
    requires exists a :: 0 <= a < |fs| && fs[a].receiver == r
    requires forall b :: 0 <= b < |fs| ==> fs[b].receiver != f.receiver
    ensures FirstIn(fs + [f], r, f.receiver)
  {
    var a :| 0 <= a < |fs| && fs[a].receiver == r;
    var gs := fs + [f];
    assert gs[a].receiver == r && forall b :: 0 <= b <= a ==> gs[b] == fs[b];
  }

  /** The broadcasts go in rounds: of two, the later one has at least as many of its own source before
      it; and if as many, its source comes later in the list. */
  lemma PlanInRounds(fs: seq<Fetch>, p: nat, q: nat)
    requires p < q < |Plan(fs)|
    ensures var plan := Plan(fs);
            && Before(plan, p) <= Before(plan, q)
            && (Before(plan, p) == Before(plan, q) ==> FirstIn(fs, plan[p].receiver, plan[q].receiver))
  {
    var qs := Queues(fs);
    hide *;
    PlanIs(fs);
    QueuesHold(fs, 0);
    var i, j, k, l := LaterAt(qs, Longest(qs), p, q);
    AtMeans(qs, Longest(qs), p, i, j);
    AtMeans(qs, Longest(qs), q, k, l);
    if i == k { QueuesInOrder(fs, j, l); }
  }

  lemma AtMeans(qs: seq<Queue>, n: nat, p: nat, i: nat, j: nat)
    requires IsAt(qs, n, p, i, j)
    ensures p < |Rounds(qs, n)| && j < |qs| && Before(Rounds(qs, n), p) == i && Rounds(qs, n)[p].receiver == qs[j].rank
  {
    hide Before;
  }

  /** The bucket at position p is the one its source stages at the beginning of that round: the i-th of
      its own, i being the round. */
  lemma StagedInTime(fs: seq<Fetch>, p: nat)
    requires p < |Plan(fs)|
    ensures var plan := Plan(fs);
            var i, own := Before(plan, p), For(fs, plan[p].receiver);
            i < |own| && plan[p] == own[i]
  {
    var plan := Plan(fs);
    var r := plan[p].receiver;
    hide Plan, For;
    PlanComplete(fs, r);
    assert plan == plan[..p] + [plan[p]] + plan[p + 1..];
    ForAppend(plan[..p] + [plan[p]], plan[p + 1..], r);
    ForSnoc(plan[..p], plan[p], r);
  }

  /** No bucket is lost or repeated: plan and list hold the same buckets the same number of times. */
  lemma {:induction false} PlanPermutes(fs: seq<Fetch>)
    ensures multiset(Plan(fs)) == multiset(fs)
  {
    forall f ensures multiset(Plan(fs))[f] == multiset(fs)[f] {
      PlanComplete(fs, f.receiver);
      CountFor(Plan(fs), f);
      CountFor(fs, f);
    }
  }

  lemma {:induction false} CountFor(fs: seq<Fetch>, f: Fetch)
    ensures multiset(For(fs, f.receiver))[f] == multiset(fs)[f]
  {
    if fs != [] {
      CountFor(fs[..|fs|-1], f);
      assert fs == fs[..|fs|-1] + [fs[|fs|-1]];
    }
  }
}
