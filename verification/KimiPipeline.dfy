/** The two-slot pipelined receive of the Kimi engine. All ranks follow the same list of broadcasts;
    in broadcast g the source casts bucket g out of slot g mod 2 of its buffer while every rank hands
    out the tensors of bucket g - 1 from the other slot. Event loop and broadcast thread of each rank
    are separate actions, and ranks interleave freely. */
module KimiPipeline {
  import opened Buckets
  import opened PackingLaws

  /** `sources[g]` broadcasts `buckets[g]`. */
  datatype Config = Config(ranks: nat, size: nat, sources: seq<nat>, buckets: seq<Bucket>) {
    predicate Valid() {
      && |sources| == |buckets| >= 1
      && (forall g :: 0 <= g < |sources| ==> sources[g] < ranks)
      && forall g :: 0 <= g < |buckets| ==> ValidBucket(g)
    }

    predicate ValidBucket(g: nat)
      requires g < |buckets|
    {
      |buckets[g].data| <= size && forall m <- buckets[g].meta :: m.offset + m.Size() <= |buckets[g].data|
    }

    function Rounds(): nat { |buckets| }
  }

  /** Where a rank is within round g: staging its own bucket into the slot, broadcast under way (as
      source or as receiver), broadcast complete, or past the last round. */
  datatype Stage = Loading(got: nat) | Casting(sent: nat) | Getting(got: nat) | Arrived | Tail | Finished

  /** `next` counts the tensors of bucket g - 1 handed out so far. */
  datatype Rank = Rank(g: nat, stage: Stage, next: nat, mem: seq<seq<byte>>, outs: seq<Weight>)

  /** `wire[g]` is the part of broadcast g that its source has cast. */
  datatype State = State(ranks: seq<Rank>, wire: seq<seq<byte>>)

  datatype Action = Load(n: nat) | StartCast | Cast(n: nat) | Get(n: nat) | Complete | Yield | Await | End

  function Enter(c: Config, p: nat, g: nat): Stage
    requires c.Valid() && g <= c.Rounds()
  {
    if g == c.Rounds() then Tail else if c.sources[g] == p then Loading(0) else Getting(0)
  }

  predicate Shape(c: Config, k: Rank)
    requires c.Valid()
  {
    && k.g <= c.Rounds() && |k.mem| == 2 && |k.mem[0]| == |k.mem[1]| == c.size
    && (k.stage.Tail? || k.stage.Finished? <==> k.g == c.Rounds())
    && (k.stage.Loading? ==> k.stage.got <= |c.buckets[k.g].data| <= c.size)
    && (k.stage.Casting? ==> k.stage.sent <= |c.buckets[k.g].data| <= c.size)
    && (k.stage.Getting? ==> k.stage.got <= |c.buckets[k.g].data| <= c.size)
    && (k.g > 0 ==> k.next <= |c.buckets[k.g - 1].meta|)
  }

  predicate Enabled(c: Config, k: Rank, wire: seq<seq<byte>>, a: Action)
    requires c.Valid() && Shape(c, k) && |wire| == c.Rounds()
  {
    match a
    case Load(n) => k.stage.Loading? && 1 <= n && k.stage.got + n <= |c.buckets[k.g].data|
    case StartCast => k.stage.Loading? && k.stage.got == |c.buckets[k.g].data|
    case Cast(n) => k.stage.Casting? && 1 <= n && k.stage.sent + n <= |c.buckets[k.g].data|
    case Get(n) => k.stage.Getting? && 1 <= n && k.stage.got + n <= |wire[k.g]| && k.stage.got + n <= |c.buckets[k.g].data|
    case Complete =>
      (k.stage.Casting? && k.stage.sent == |c.buckets[k.g].data|) || (k.stage.Getting? && k.stage.got == |c.buckets[k.g].data|)
    case Yield => !k.stage.Loading? && !k.stage.Finished? && k.g > 0 && k.next < |c.buckets[k.g - 1].meta|
    case Await => k.stage.Arrived? && (k.g == 0 || k.next == |c.buckets[k.g - 1].meta|)
    case End => k.stage.Tail? && k.next == |c.buckets[k.g - 1].meta|
  }

  function Write(k: Rank, at: nat, d: seq<byte>): seq<seq<byte>>
    requires |k.mem| == 2 && at + |d| <= |k.mem[k.g % 2]|
  {
    k.mem[k.g % 2 := Overlay(k.mem[k.g % 2], at, d)]
  }

  function ApplyRank(c: Config, p: nat, k: Rank, wire: seq<seq<byte>>, a: Action): Rank
    requires c.Valid() && Shape(c, k) && |wire| == c.Rounds() && Enabled(c, k, wire, a)
  {
    match a
    case Load(n) =>
      k.(stage := Loading(k.stage.got + n), mem := Write(k, k.stage.got, c.buckets[k.g].data[k.stage.got..k.stage.got + n]))
    case StartCast => k.(stage := Casting(0))
    case Cast(n) => k.(stage := Casting(k.stage.sent + n))
    case Get(n) =>
      k.(stage := Getting(k.stage.got + n), mem := Write(k, k.stage.got, wire[k.g][k.stage.got..k.stage.got + n]))
    case Complete => k.(stage := Arrived)
    case Yield =>
      k.(next := k.next + 1, outs := k.outs + [Read(k.mem[(k.g - 1) % 2], c.buckets[k.g - 1].meta[k.next])])
    case Await => k.(g := k.g + 1, stage := Enter(c, p, k.g + 1), next := 0)
    case End => k.(stage := Finished)
  }

  function ApplyWire(c: Config, k: Rank, wire: seq<seq<byte>>, a: Action): seq<seq<byte>>
    requires c.Valid() && Shape(c, k) && |wire| == c.Rounds() && Enabled(c, k, wire, a)
  {
    if a.Cast? then wire[k.g := wire[k.g] + k.mem[k.g % 2][k.stage.sent..k.stage.sent + a.n]] else wire
  }

  predicate Init(c: Config, s: State)
    requires c.Valid()
  {
    && |s.ranks| == c.ranks && |s.wire| == c.Rounds()
    && (forall g :: 0 <= g < c.Rounds() ==> s.wire[g] == [])
    && forall p :: 0 <= p < c.ranks ==>
         && Shape(c, s.ranks[p]) && s.ranks[p].g == 0 && s.ranks[p].next == 0 && s.ranks[p].outs == []
         && s.ranks[p].stage == Enter(c, p, 0)
  }

  predicate Step(c: Config, s: State, p: nat, a: Action, t: State)
    requires c.Valid()
  {
    && p < |s.ranks| && |s.wire| == c.Rounds() && Shape(c, s.ranks[p]) && Enabled(c, s.ranks[p], s.wire, a)
    && t == State(s.ranks[p := ApplyRank(c, p, s.ranks[p], s.wire, a)], ApplyWire(c, s.ranks[p], s.wire, a))
  }

  ghost predicate Reach(c: Config, s: State, steps: nat)
    requires c.Valid()
    decreases steps
  {
    if steps == 0 then Init(c, s) else exists r, p, a :: Reach(c, r, steps - 1) && Step(c, r, p, a, s)
  }

  ghost predicate Reachable(c: Config, s: State)
    requires c.Valid()
  {
    exists steps: nat :: Reach(c, s, steps)
  }

  // ---------- the invariant ----------

  /** How much of broadcast g a rank, as its source, has cast. */
  function CastCount(c: Config, k: Rank, g: nat): nat
    requires g < c.Rounds()
  {
    if k.g > g || (k.g == g && k.stage.Arrived?) then |c.buckets[g].data|
    else if k.g == g && k.stage.Casting? then k.stage.sent else 0
  }

  /** The slot written in round g holds the beginning of bucket g, the other one all of bucket g - 1. */
  predicate SlotsHold(c: Config, k: Rank)
    requires c.Valid() && Shape(c, k)
  {
    && (k.g > 0 && !k.stage.Finished? ==> c.buckets[k.g - 1].data <= k.mem[(k.g - 1) % 2])
    && match k.stage
       case Loading(got) => c.buckets[k.g].data[..got] <= k.mem[k.g % 2]
       case Casting(_) => c.buckets[k.g].data <= k.mem[k.g % 2]
       case Getting(got) => c.buckets[k.g].data[..got] <= k.mem[k.g % 2]
       case Arrived => c.buckets[k.g].data <= k.mem[k.g % 2]
       case _ => true
  }

  function Expected(c: Config, g: nat, next: nat): seq<Weight>
    requires g <= c.Rounds() && (g > 0 ==> next <= |c.buckets[g - 1].meta|)
  {
    if g == 0 then [] else AllYields(c.buckets[..g - 1]) + Yields(c.buckets[g - 1])[..next]
  }

  predicate RankInv(c: Config, p: nat, k: Rank)
    requires c.Valid()
  {
    && Shape(c, k) && SlotsHold(c, k)
    && (k.stage.Loading? || k.stage.Casting? ==> c.sources[k.g] == p)
    && (k.stage.Getting? ==> c.sources[k.g] != p)
    && k.outs == Expected(c, k.g, k.next)
    && (k.stage.Finished? ==> k.next == |c.buckets[k.g - 1].meta|)
    && (k.g == 0 ==> k.next == 0)
  }

  predicate WireInv(c: Config, s: State, g: nat)
    requires c.Valid() && |s.wire| == c.Rounds() && |s.ranks| == c.ranks && g < c.Rounds()
  {
    var n := CastCount(c, s.ranks[c.sources[g]], g);
    n <= |c.buckets[g].data| && s.wire[g] == c.buckets[g].data[..n]
  }

  predicate Inv(c: Config, s: State)
    requires c.Valid()
  {
    && |s.ranks| == c.ranks && |s.wire| == c.Rounds()
    && (forall p :: 0 <= p < c.ranks ==> RankInv(c, p, s.ranks[p]))
    && (forall g :: 0 <= g < c.Rounds() ==> WireInv(c, s, g))
  }

  // ---------- one rank, action by action ----------

  lemma OtherSlot(k: Rank, at: nat, d: seq<byte>)
    requires |k.mem| == 2 && at + |d| <= |k.mem[k.g % 2]| && k.g > 0
    ensures Write(k, at, d)[(k.g - 1) % 2] == k.mem[(k.g - 1) % 2]
  {
  }

  lemma KeepLoad(c: Config, p: nat, k: Rank, wire: seq<seq<byte>>, n: nat)
    requires c.Valid() && RankInv(c, p, k) && |wire| == c.Rounds() && Enabled(c, k, wire, Load(n))
    ensures RankInv(c, p, ApplyRank(c, p, k, wire, Load(n)))
  {
    hide Expected, Read, Config.Valid, Config.ValidBucket;
    var d := c.buckets[k.g].data;
    OverlayGrows(d, k.mem[k.g % 2], k.stage.got, n);
    if k.g > 0 { OtherSlot(k, k.stage.got, d[k.stage.got..k.stage.got + n]); }
  }

  lemma KeepGet(c: Config, p: nat, k: Rank, wire: seq<seq<byte>>, n: nat)
    requires c.Valid() && RankInv(c, p, k) && |wire| == c.Rounds() && Enabled(c, k, wire, Get(n))
    requires wire[k.g] <= c.buckets[k.g].data
    ensures RankInv(c, p, ApplyRank(c, p, k, wire, Get(n)))
  {
    hide Expected, Read, Config.Valid, Config.ValidBucket;
    var d := c.buckets[k.g].data;
    SameSlice(wire[k.g], d, k.stage.got, n);
    OverlayGrows(d, k.mem[k.g % 2], k.stage.got, n);
    if k.g > 0 { OtherSlot(k, k.stage.got, d[k.stage.got..k.stage.got + n]); }
  }

  lemma SameSlice(w: seq<byte>, d: seq<byte>, lo: nat, n: nat)
    requires w <= d && lo + n <= |w|
    ensures w[lo..lo + n] == d[lo..lo + n]
  {
  }

  lemma KeepYield(c: Config, p: nat, k: Rank, wire: seq<seq<byte>>)
    requires c.Valid() && RankInv(c, p, k) && |wire| == c.Rounds() && Enabled(c, k, wire, Yield)
    ensures RankInv(c, p, ApplyRank(c, p, k, wire, Yield))
  {
    var b := c.buckets[k.g - 1];
    assert c.ValidBucket(k.g - 1) && b.meta[k.next] in b.meta;
    ReadPrefix(b.data, k.mem[(k.g - 1) % 2], b.meta[k.next]);
    assert Yields(b)[..k.next + 1] == Yields(b)[..k.next] + [Yields(b)[k.next]];
  }

  lemma ExpectedNext(c: Config, g: nat)
    requires 0 < g < c.Rounds()
    ensures Expected(c, g + 1, 0) == Expected(c, g, |c.buckets[g - 1].meta|)
  {
    AllYieldsAppend(c.buckets[..g - 1], c.buckets[g - 1]);
    assert c.buckets[..g] == c.buckets[..g - 1] + [c.buckets[g - 1]];
  }

  lemma KeepAwait(c: Config, p: nat, k: Rank, wire: seq<seq<byte>>)
    requires c.Valid() && RankInv(c, p, k) && |wire| == c.Rounds() && Enabled(c, k, wire, Await)
    ensures RankInv(c, p, ApplyRank(c, p, k, wire, Await))
  {
    hide Expected, Yields, AllYields, Overlay, Read, Config.Valid, Config.ValidBucket;
    BucketFits(c, k.g + 1);
    if k.g > 0 { ExpectedNext(c, k.g); } else { ExpectedFirst(c); }
  }

  lemma BucketFits(c: Config, g: nat)
    requires c.Valid()
    ensures g < c.Rounds() ==> |c.buckets[g].data| <= c.size
  {
    if g < c.Rounds() { assert c.ValidBucket(g); }
  }

  lemma ExpectedFirst(c: Config)
    requires c.Rounds() > 0
    ensures Expected(c, 0, 0) == Expected(c, 1, 0) == []
  {
    assert c.buckets[..0] == [];
  }

  lemma KeepRank(c: Config, p: nat, k: Rank, wire: seq<seq<byte>>, a: Action)
    requires c.Valid() && RankInv(c, p, k) && |wire| == c.Rounds() && Enabled(c, k, wire, a)
    requires k.stage.Getting? ==> wire[k.g] <= c.buckets[k.g].data
    ensures RankInv(c, p, ApplyRank(c, p, k, wire, a))
  {
    hide Yields, AllYields;
    match a
    case Load(n) => KeepLoad(c, p, k, wire, n);
    case StartCast => hide Expected;
    case Cast(n) => hide Expected;
    case Get(n) => KeepGet(c, p, k, wire, n);
    case Complete => hide Expected;
    case Yield => KeepYield(c, p, k, wire);
    case Await => KeepAwait(c, p, k, wire);
    case End => hide Expected;
  }

  // ---------- all runs ----------

  /** A step of rank p changes at most the wire of the broadcast it is the source of. */
  lemma KeepWire(c: Config, s: State, p: nat, a: Action, t: State, g: nat)
    requires c.Valid() && Inv(c, s) && Step(c, s, p, a, t) && g < c.Rounds()
    ensures |t.wire| == c.Rounds() && |t.ranks| == c.ranks && WireInv(c, t, g)
  {
    hide Expected, SlotsHold;
    var k := s.ranks[p];
    assert RankInv(c, p, k) && WireInv(c, s, g);
    if c.sources[g] == p && a.Cast? && k.g == g {
      CastGrows(c, p, k, s.wire[g], a.n);
    }
  }

  lemma CastGrows(c: Config, p: nat, k: Rank, w: seq<byte>, n: nat)
    requires c.Valid() && RankInv(c, p, k) && k.stage.Casting? && k.stage.sent + n <= |c.buckets[k.g].data|
    requires w == c.buckets[k.g].data[..k.stage.sent]
    ensures w + k.mem[k.g % 2][k.stage.sent..k.stage.sent + n] == c.buckets[k.g].data[..k.stage.sent + n]
  {
  }

  lemma StepKeeps(c: Config, s: State, p: nat, a: Action, t: State)
    requires c.Valid() && Inv(c, s) && Step(c, s, p, a, t)
    ensures Inv(c, t)
  {
    var k := s.ranks[p];
    assert RankInv(c, p, k);
    if k.stage.Getting? { assert WireInv(c, s, k.g); }
    KeepRank(c, p, k, s.wire, a);
    forall g | 0 <= g < c.Rounds() ensures WireInv(c, t, g) { KeepWire(c, s, p, a, t, g); }
  }

  lemma InitInv(c: Config, s: State)
    requires c.Valid() && Init(c, s)
    ensures Inv(c, s)
  {
    hide Yields, AllYields;
    forall p | 0 <= p < c.ranks ensures RankInv(c, p, s.ranks[p]) { }
  }

  lemma {:induction false} RunKeeps(c: Config, s: State, steps: nat)
    requires c.Valid() && Reach(c, s, steps)
    ensures Inv(c, s)
    decreases steps
  {
    hide Inv, Step, Init, Config.Valid;
    if steps == 0 {
      InitInv(c, s);
    } else {
      var r, p, a :| Reach(c, r, steps - 1) && Step(c, r, p, a, s);
      RunKeeps(c, r, steps - 1);
      StepKeeps(c, r, p, a, s);
    }
  }
}
