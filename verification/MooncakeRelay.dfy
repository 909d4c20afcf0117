/** The Mooncake weight relay as a state machine. Rank 0 fills buckets and announces them to rank 1;
    every receiver reads a bucket out of its predecessor's memory, announces its own copy to its
    successor, hands out the tensors and writes a 4-byte magic word over the start of the bucket it
    has read. Every rank owns two buffers and refills one only once that word appears in it.
    Each action below is one atomic access to memory or to a channel; actions of different ranks
    interleave freely. Fills and remote reads move an arbitrary number of bytes at a time. */
module MooncakeRelay {
  import opened Buckets
  import opened PackingLaws

  const MAGIC: seq<byte> := [0xAB, 0xDC, 0xEF, 0x88]

  /** The object sent along the chain: where the bucket lies in the sender's memory and what it holds. */
  datatype Info = Info(slot: nat, len: nat, meta: seq<Meta>, last: bool)

  datatype Phase =
    | Idle                              // waiting for an announcement
    | Gate(info: Info)                  // waiting for the own buffer to be free
    | Copying(info: Info, got: nat)     // filling the own buffer
    | Yielding(info: Info, next: nat)   // handing out tensors, then writing the magic word back
    | FinalWait                         // rank 0, after the last announcement
    | Finished

  /** One process. `relayed` and `outs` record the buckets it announced and the tensors it handed out. */
  datatype Rank = Rank(idx: nat, phase: Phase, mem: seq<seq<byte>>, relayed: seq<seq<byte>>, outs: seq<Weight>) {
    function Slot(): nat { idx % 2 }
    /** Buckets taken from the channel, begun in the own buffer, and announced to the successor. */
    function Taken(): nat { if phase.Gate? || phase.Copying? || phase.Yielding? then idx + 1 else idx }
    function Started(): nat { if phase.Copying? || phase.Yielding? then idx + 1 else idx }
    function Sent(): nat { if phase.Yielding? then idx + 1 else idx }
  }

  /** `chan[r]` holds the announcements on their way to rank r. */
  datatype State = State(ranks: seq<Rank>, chan: seq<seq<Info>>)

  datatype Config = Config(n: nat, size: nat, buckets: seq<Bucket>) {
    function Count(): nat { |buckets| }

    /** At least one receiver, room for the magic word, and buckets as the packing makes them. */
    predicate Valid() {
      && n >= 2 && size >= 4 && |buckets| >= 1
      && forall k :: 0 <= k < |buckets| ==> ValidBucket(k)
    }

    predicate ValidBucket(k: nat)
      requires k < |buckets|
    {
      BucketOk(buckets, size, k)
    }

    function InfoOf(k: nat): Info
      requires k < |buckets|
    {
      Info(k % 2, |buckets[k].data|, buckets[k].meta, buckets[k].last)
    }
  }

  lemma SomeBucket(c: Config)
    requires c.Valid()
    ensures c.n >= 2 && c.size >= 4 && c.Count() == |c.buckets| >= 1
  {
  }

  // ---------- memory ----------

  /** What `wait_for_complete` polls for. */
  predicate LooksAcked(m: seq<byte>) { |m| >= 4 && m[..4] == MAGIC }

  // ---------- actions ----------

  datatype Action = Take(r: nat) | Pass(r: nat) | Copy(r: nat, n: nat) | Forward(r: nat) | Yield(r: nat) | Ack(r: nat) | Done

  predicate Carries(c: Config, k: nat, info: Info)
    requires c.Valid()
  {
    k < c.Count() && c.ValidBucket(k) && info == c.InfoOf(k)
  }

  predicate RankShape(c: Config, r: nat, k: Rank)
    requires c.Valid()
  {
    && k.idx <= c.Count() && |k.mem| == 2 && |k.mem[0]| == |k.mem[1]| == c.size
    && match k.phase
       case Idle => r > 0 && k.idx < c.Count()
       case Gate(info) => Carries(c, k.idx, info)
       case Copying(info, got) => Carries(c, k.idx, info) && got <= info.len
       case Yielding(info, next) => r > 0 && Carries(c, k.idx, info) && next <= |info.meta|
       case FinalWait => r == 0 && k.idx == c.Count()
       case Finished => k.idx == c.Count()
  }

  predicate Shape(c: Config, s: State)
    requires c.Valid()
  {
    && |s.ranks| == |s.chan| == c.n
    && forall r :: 0 <= r < c.n ==> RankShape(c, r, s.ranks[r])
  }

  predicate Enabled(c: Config, s: State, a: Action)
    requires c.Valid() && Shape(c, s)
  {
    match a
    case Take(r) => 0 < r < c.n && s.ranks[r].phase.Idle? && s.chan[r] != []
    case Pass(r) =>
      r < c.n && s.ranks[r].phase.Gate?
      && (s.ranks[r].idx >= 2 && r < c.n - 1 ==> LooksAcked(s.ranks[r].mem[s.ranks[r].Slot()]))
    case Copy(r, n) => r < c.n && s.ranks[r].phase.Copying? && 1 <= n && s.ranks[r].phase.got + n <= s.ranks[r].phase.info.len
    case Forward(r) => r < c.n && s.ranks[r].phase.Copying? && s.ranks[r].phase.got == s.ranks[r].phase.info.len
    case Yield(r) => 0 < r < c.n && s.ranks[r].phase.Yielding? && s.ranks[r].phase.next < |s.ranks[r].phase.info.meta|
    case Ack(r) => 0 < r < c.n && s.ranks[r].phase.Yielding? && s.ranks[r].phase.next == |s.ranks[r].phase.info.meta|
    case Done => s.ranks[0].phase.FinalWait? && LooksAcked(s.ranks[0].mem[(c.Count() - 1) % 2])
  }

  /** The bytes a copy step of rank r moves: out of the tensors for rank 0, else out of the predecessor. */
  function Source(c: Config, s: State, r: nat): seq<byte>
    requires c.Valid() && Shape(c, s) && r < c.n && s.ranks[r].phase.Copying?
  {
    if r == 0 then c.buckets[s.ranks[0].idx].data else s.ranks[r-1].mem[s.ranks[r].phase.info.slot]
  }

  // The effect of each action on the acting rank.

  function CopyRank(k: Rank, d: seq<byte>): Rank
    requires k.phase.Copying? && |k.mem| == 2 && k.phase.got + |d| <= |k.mem[k.Slot()]|
  {
    k.(phase := Copying(k.phase.info, k.phase.got + |d|),
       mem := k.mem[k.Slot() := Overlay(k.mem[k.Slot()], k.phase.got, d)])
  }

  function ForwardRank(c: Config, r: nat, k: Rank): Rank
    requires c.Valid() && RankShape(c, r, k) && k.phase.Copying?
  {
    var info := k.phase.info;
    var relayed := k.relayed + [k.mem[k.Slot()][..info.len]];
    if r > 0 then k.(phase := Yielding(info, 0), relayed := relayed)
    else if info.last then k.(idx := k.idx + 1, phase := FinalWait, relayed := relayed)
    else k.(idx := k.idx + 1, phase := Gate(c.InfoOf(k.idx + 1)), relayed := relayed)
  }

  function YieldRank(k: Rank): Rank
    requires k.phase.Yielding? && k.phase.next < |k.phase.info.meta| && |k.mem| == 2
  {
    var w := Read(k.mem[k.Slot()], k.phase.info.meta[k.phase.next]);
    k.(phase := Yielding(k.phase.info, k.phase.next + 1), outs := k.outs + [w])
  }

  function AckRank(k: Rank): Rank
    requires k.phase.Yielding?
  {
    k.(idx := k.idx + 1, phase := if k.phase.info.last then Finished else Idle)
  }

  /** The effect of the acknowledgement on the predecessor: the magic word lands in its buffer. */
  function StampRank(p: Rank, slot: nat): Rank
    requires slot < |p.mem| && |p.mem[slot]| >= 4
  {
    p.(mem := p.mem[slot := Overlay(p.mem[slot], 0, MAGIC)])
  }

  function Apply(c: Config, s: State, a: Action): State
    requires c.Valid() && Shape(c, s) && Enabled(c, s, a)
  {
    match a
    case Take(r) =>
      State(s.ranks[r := s.ranks[r].(phase := Gate(s.chan[r][0]))], s.chan[r := s.chan[r][1..]])
    case Pass(r) =>
      s.(ranks := s.ranks[r := s.ranks[r].(phase := Copying(s.ranks[r].phase.info, 0))])
    case Copy(r, n) =>
      var got := s.ranks[r].phase.got;
      s.(ranks := s.ranks[r := CopyRank(s.ranks[r], Source(c, s, r)[got..got + n])])
    case Forward(r) =>
      var k := s.ranks[r];
      State(s.ranks[r := ForwardRank(c, r, k)],
            if r < c.n - 1 then s.chan[r+1 := s.chan[r+1] + [k.phase.info.(slot := k.Slot())]] else s.chan)
    case Yield(r) => s.(ranks := s.ranks[r := YieldRank(s.ranks[r])])
    case Ack(r) =>
      s.(ranks := s.ranks[r := AckRank(s.ranks[r])][r-1 := StampRank(s.ranks[r-1], s.ranks[r].phase.info.slot)])
    case Done => s.(ranks := s.ranks[0 := s.ranks[0].(phase := Finished)])
  }

  // ---------- runs ----------

  /** Every rank starts with arbitrary bytes in its buffers. */
  predicate Init(c: Config, s: State)
    requires c.Valid()
  {
    && Shape(c, s)
    && (forall r :: 0 <= r < c.n ==>
          && s.ranks[r].idx == 0 && s.ranks[r].relayed == [] && s.ranks[r].outs == [] && s.chan[r] == []
          && s.ranks[r].phase == if r == 0 then Gate(c.InfoOf(0)) else Idle)
  }

  /** `s` is reached by some run of exactly `steps` actions. */
  ghost predicate Reach(c: Config, s: State, steps: nat)
    requires c.Valid()
    decreases steps
  {
    if steps == 0 then Init(c, s)
    else exists p, a :: Reach(c, p, steps - 1) && Shape(c, p) && Enabled(c, p, a) && s == Apply(c, p, a)
  }

  ghost predicate Reachable(c: Config, s: State)
    requires c.Valid()
  {
    exists steps :: Reach(c, s, steps)
  }

  predicate Complete(s: State) { forall k <- s.ranks :: k.phase.Finished? }
}
