/** Safety of the relay over all runs: every rank copies exactly the sender's buckets, in order, and
    no buffer is refilled before the successor has read and acknowledged it. */
module MooncakeSafety {
  import opened Buckets
  import opened PackingLaws
  import opened MooncakeRelay

  /** A bucket whose own bytes can look like an acknowledgement: it begins with the magic word or is
      a prefix of it (then stale bytes behind it may complete the word). */
  predicate Confusable(d: seq<byte>) { MAGIC <= d || d <= MAGIC }

  /** The condition on the payload under which the handshake is sound. The last two buckets are
      exempt: nobody waits for their buffers in order to refill them. */
  predicate SoundPayload(c: Config) {
    forall k {:trigger c.buckets[k]} :: 0 <= k < |c.buckets| - 2 ==> !Confusable(c.buckets[k].data)
  }

  lemma NotConfusable(d: seq<byte>, m: seq<byte>)
    requires d <= m && LooksAcked(m)
    ensures Confusable(d)
  {
    if |d| >= 4 {
      assert d[..4] == m[..4];
    } else {
      assert d == m[..4][..|d|];
    }
  }

  /** What is left of bucket bytes `d` once the magic word was written over their beginning. */
  function Stamp(d: seq<byte>): seq<byte> {
    if |d| >= 4 then MAGIC + d[4..] else MAGIC[..|d|]
  }

  // ---------- the invariant ----------

  /** The two buffers of one rank, when its successor has acknowledged `acked` buckets. At most two
      buckets are begun beyond those; a bucket announced and not acknowledged is intact; one
      acknowledged and not yet overwritten carries the magic word and is intact behind it. */
  predicate Slots(c: Config, k: Rank, acked: nat, inner: bool) {
    && |k.mem| == 2 && k.Started() <= c.Count() && acked <= k.Sent()
    && (inner ==> k.Started() <= acked + 2)
    && Intact(c, k.mem, acked, k.Sent())
    && (inner ==> Stamped(c, k.mem, k.Started() - 2, acked))
    && (k.phase.Copying? ==> Partial(c, k.mem, k.idx, k.phase.got))
  }

  predicate Intact(c: Config, mem: seq<seq<byte>>, lo: nat, hi: nat)
    requires |mem| == 2 && hi <= c.Count()
  {
    forall m :: lo <= m < hi ==> HasBucket(c, mem, m)
  }

  predicate Stamped(c: Config, mem: seq<seq<byte>>, lo: int, hi: nat)
    requires |mem| == 2 && hi <= c.Count()
  {
    forall m :: 0 <= m < hi && lo <= m ==> HasStamp(c, mem, m)
  }

  predicate HasBucket(c: Config, mem: seq<seq<byte>>, m: nat)
    requires |mem| == 2 && m < c.Count()
  {
    c.buckets[m].data <= mem[m % 2]
  }

  predicate HasStamp(c: Config, mem: seq<seq<byte>>, m: nat)
    requires |mem| == 2 && m < c.Count()
  {
    LooksAcked(mem[m % 2]) && Stamp(c.buckets[m].data) <= mem[m % 2]
  }

  predicate Partial(c: Config, mem: seq<seq<byte>>, m: nat, got: nat)
    requires |mem| == 2
  {
    m < c.Count() && got <= |c.buckets[m].data| && c.buckets[m].data[..got] <= mem[m % 2]
  }

  /** The channel holds precisely the announcements made and not yet taken. */
  predicate Chan(c: Config, left: Rank, right: Rank, ch: seq<Info>) {
    && right.Taken() + |ch| == left.Sent() <= c.Count()
    && forall i :: 0 <= i < |ch| ==> ch[i] == c.InfoOf(right.Taken() + i)
  }

  /** Everything announced so far is, bucket by bucket, what the sender packed. */
  predicate Relayed(c: Config, k: Rank) {
    && |k.relayed| == k.Sent() <= c.Count()
    && forall i :: 0 <= i < |k.relayed| ==> k.relayed[i] == c.buckets[i].data
  }

  // ---------- buffers, action by action ----------

  lemma SlotsPass(c: Config, k: Rank, acked: nat, inner: bool)
    requires SoundPayload(c) && Slots(c, k, acked, inner) && k.phase.Gate? && k.idx < c.Count()
    requires k.idx >= 2 && inner ==> LooksAcked(k.mem[k.Slot()])
    ensures Slots(c, k.(phase := Copying(k.phase.info, 0)), acked, inner)
  {
    if inner && k.idx >= 2 && acked <= k.idx - 2 {
      assert HasBucket(c, k.mem, k.idx - 2);
      NotConfusable(c.buckets[k.idx - 2].data, k.mem[k.Slot()]);
    }
  }

  /** Writing the buffer of bucket m leaves the buckets before and after it alone. */
  lemma OtherBuffer(c: Config, mem: seq<seq<byte>>, m: nat, x: seq<byte>, lo: int, hi: nat)
    requires |mem| == 2 && hi <= c.Count()
    requires (m - 1 <= lo && hi <= m) || (m + 1 <= lo && hi <= m + 2)
    ensures lo >= 0 && Intact(c, mem, lo, hi) ==> Intact(c, mem[m % 2 := x], lo, hi)
    ensures Stamped(c, mem, lo, hi) ==> Stamped(c, mem[m % 2 := x], lo, hi)
  {
    var mem' := mem[m % 2 := x];
    forall i: nat | lo <= i < hi
      ensures (HasBucket(c, mem, i) ==> HasBucket(c, mem', i)) && (HasStamp(c, mem, i) ==> HasStamp(c, mem', i))
    {
      assert i == m - 1 || i == m + 1;
      assert mem'[i % 2] == mem[i % 2];
    }
  }

  lemma SlotsCopy(c: Config, k: Rank, acked: nat, inner: bool, n: nat)
    requires Slots(c, k, acked, inner) && k.phase.Copying?
    requires var d := c.buckets[k.idx].data; k.phase.got + n <= |d| <= |k.mem[k.Slot()]|
    requires !inner ==> acked == k.idx
    ensures Slots(c, CopyRank(k, c.buckets[k.idx].data[k.phase.got..k.phase.got + n]), acked, inner)
  {
    var d, m := c.buckets[k.idx].data, k.mem[k.Slot()];
    OverlayGrows(d, m, k.phase.got, n);
    var x := Overlay(m, k.phase.got, d[k.phase.got..k.phase.got + n]);
    hide Intact, Stamped, Overlay;
    OtherBuffer(c, k.mem, k.idx, x, acked, k.idx);
    if inner { OtherBuffer(c, k.mem, k.idx, x, k.idx - 1, acked); }
  }

  lemma SlotsForward(c: Config, r: nat, k: Rank, acked: nat, inner: bool)
    requires c.Valid() && RankShape(c, r, k) && Slots(c, k, acked, inner)
    requires k.phase.Copying? && k.phase.got == k.phase.info.len
    ensures Slots(c, ForwardRank(c, r, k), acked, inner)
  {
    assert c.buckets[k.idx].data[..k.phase.got] == c.buckets[k.idx].data;
  }

  lemma RelayedForward(c: Config, r: nat, k: Rank)
    requires c.Valid() && RankShape(c, r, k) && k.phase.Copying? && k.phase.got == k.phase.info.len
    requires c.buckets[k.idx].data[..k.phase.got] <= k.mem[k.Slot()] && Relayed(c, k)
    ensures Relayed(c, ForwardRank(c, r, k))
  {
    var d := c.buckets[k.idx].data;
    assert d[..k.phase.got] == d && k.mem[k.Slot()][..|d|] == d;
  }

  lemma StampPrefix(d: seq<byte>, m: seq<byte>)
    requires d <= m && |m| >= 4
    ensures LooksAcked(Overlay(m, 0, MAGIC)) && Stamp(d) <= Overlay(m, 0, MAGIC)
  {
    var o := Overlay(m, 0, MAGIC);
    assert o == MAGIC + m[4..];
    if |d| >= 4 {
      assert o[..|d|] == MAGIC + d[4..];
    } else {
      assert o[..|d|] == MAGIC[..|d|];
    }
  }

  lemma StampedExtend(c: Config, mem: seq<seq<byte>>, lo: int, hi: nat)
    requires |mem| == 2 && hi < c.Count() && Stamped(c, mem, lo, hi)
    requires LooksAcked(mem[hi % 2]) && Stamp(c.buckets[hi].data) <= mem[hi % 2]
    ensures Stamped(c, mem, lo, hi + 1)
  {
  }

  lemma IntactShrink(c: Config, mem: seq<seq<byte>>, lo: nat, hi: nat)
    requires |mem| == 2 && hi <= c.Count() && Intact(c, mem, lo, hi)
    ensures Intact(c, mem, lo + 1, hi) && (lo < hi ==> c.buckets[lo].data <= mem[lo % 2])
  {
    if lo < hi { assert HasBucket(c, mem, lo); }
  }

  /** The successor acknowledges one more bucket. */
  lemma SlotsStamp(c: Config, p: Rank, acked: nat)
    requires Slots(c, p, acked, true) && acked < p.Sent() && |p.mem[acked % 2]| >= 4
    ensures Slots(c, StampRank(p, acked % 2), acked + 1, true)
  {
    hide Intact, Stamped, Stamp;
    IntactShrink(c, p.mem, acked, p.Sent());
    StampPrefix(c.buckets[acked].data, p.mem[acked % 2]);
    var x := Overlay(p.mem[acked % 2], 0, MAGIC);
    OtherBuffer(c, p.mem, acked, x, acked + 1, p.Sent());
    OtherBuffer(c, p.mem, acked, x, p.Started() - 2, acked);
    StampedExtend(c, p.mem[acked % 2 := x], p.Started() - 2, acked);
  }

  // ---------- one rank, action by action ----------

  /** What holds of every payload: one bucket was announced per count, and a buffer last used for an
      acknowledged bucket shows the word its owner waits for. */
  predicate Counts(c: Config, r: nat, k: Rank, acked: nat) {
    && |k.mem| == 2 && |k.relayed| == k.Sent() && acked <= k.Sent()
    && (if r < c.n - 1 then Flags(k.mem, k.Started() - 2, acked) else acked == k.idx)
  }

  predicate Flags(mem: seq<seq<byte>>, lo: int, hi: nat)
    requires |mem| == 2
  {
    forall m :: 0 <= m < hi && lo <= m ==> HasFlag(mem, m)
  }

  predicate HasFlag(mem: seq<seq<byte>>, m: nat)
    requires |mem| == 2
  {
    LooksAcked(mem[m % 2])
  }

  /** Writing the buffer of bucket m leaves the flags of its two neighbours alone. */
  lemma FlagsOther(mem: seq<seq<byte>>, m: nat, x: seq<byte>, lo: int, hi: nat)
    requires |mem| == 2 && Flags(mem, lo, hi) && m - 1 <= lo && hi <= m
    ensures Flags(mem[m % 2 := x], lo, hi)
  {
    var mem' := mem[m % 2 := x];
    forall i: nat | lo <= i < hi ensures HasFlag(mem', i) {
      assert i == m - 1 && HasFlag(mem, i);
      assert mem'[i % 2] == mem[i % 2];
    }
  }

  lemma FlagsStamp(mem: seq<seq<byte>>, m: nat, x: seq<byte>, lo: int)
    requires |mem| == 2 && Flags(mem, lo, m) && LooksAcked(x)
    ensures Flags(mem[m % 2 := x], lo, m + 1)
  {
    var mem' := mem[m % 2 := x];
    forall i: nat | lo <= i < m + 1 ensures HasFlag(mem', i) {
      if i % 2 != m % 2 { assert HasFlag(mem, i); }
    }
  }

  /** What a rank keeps: its counts always, and under a sound payload its buckets and buffers. */
  predicate RankInv(c: Config, r: nat, k: Rank, acked: nat)
    requires c.Valid()
  {
    RankShape(c, r, k) && Counts(c, r, k, acked) && (SoundPayload(c) ==> Relayed(c, k) && Slots(c, k, acked, r < c.n - 1))
  }

  lemma RankMemory(c: Config, r: nat, k: Rank, acked: nat)
    requires c.Valid() && RankInv(c, r, k, acked)
    ensures |k.mem| == 2 && |k.mem[0]| == |k.mem[1]| == c.size
  {
    hide Slots, Counts, Relayed;
  }

  lemma RankTake(c: Config, r: nat, k: Rank, acked: nat, info: Info)
    requires c.Valid() && RankInv(c, r, k, acked) && k.phase.Idle? && info == c.InfoOf(k.idx)
    ensures RankInv(c, r, k.(phase := Gate(info)), acked)
  {
    assert c.ValidBucket(k.idx);
    hide Flags, Intact, Stamped, Partial, SoundPayload;
  }

  lemma RankPass(c: Config, r: nat, k: Rank, acked: nat)
    requires c.Valid() && RankInv(c, r, k, acked) && k.phase.Gate?
    requires k.idx >= 2 && r < c.n - 1 ==> LooksAcked(k.mem[k.Slot()])
    ensures RankInv(c, r, k.(phase := Copying(k.phase.info, 0)), acked)
  {
    if SoundPayload(c) { SlotsPass(c, k, acked, r < c.n - 1); }
    FlagsPass(c, r, k, acked);
    hide Slots, SoundPayload, Counts;
  }

  lemma FlagsPass(c: Config, r: nat, k: Rank, acked: nat)
    requires Counts(c, r, k, acked) && k.phase.Gate?
    ensures Counts(c, r, k.(phase := Copying(k.phase.info, 0)), acked)
  {
  }

  /** Rank r copies `d`, which under a sound payload is the next piece of its bucket. */
  lemma RankCopy(c: Config, r: nat, k: Rank, acked: nat, d: seq<byte>)
    requires c.Valid() && RankInv(c, r, k, acked) && k.phase.Copying? && k.phase.got + |d| <= k.phase.info.len
    requires SoundPayload(c) ==> d == c.buckets[k.idx].data[k.phase.got..k.phase.got + |d|]
    ensures |k.mem| == 2 && k.phase.got + |d| <= |k.mem[k.Slot()]|
    ensures RankInv(c, r, CopyRank(k, d), acked)
  {
    if SoundPayload(c) { SlotsCopy(c, k, acked, r < c.n - 1, |d|); }
    FlagsCopy(c, r, k, acked, d);
    hide Slots, SoundPayload, Counts;
  }

  lemma FlagsCopy(c: Config, r: nat, k: Rank, acked: nat, d: seq<byte>)
    requires Counts(c, r, k, acked) && k.phase.Copying? && k.phase.got + |d| <= |k.mem[k.Slot()]|
    ensures Counts(c, r, CopyRank(k, d), acked)
  {
    hide Overlay, Flags;
    var x := Overlay(k.mem[k.Slot()], k.phase.got, d);
    if r < c.n - 1 { FlagsOther(k.mem, k.idx, x, k.idx - 1, acked); }
  }

  lemma RankForward(c: Config, r: nat, k: Rank, acked: nat)
    requires c.Valid() && c.n >= 2 && RankInv(c, r, k, acked)
    requires k.phase.Copying? && k.phase.got == k.phase.info.len
    ensures RankInv(c, r, ForwardRank(c, r, k), acked)
    ensures k.phase.info.(slot := k.Slot()) == c.InfoOf(k.idx)
  {
    ForwardedShape(c, r, k);
    if SoundPayload(c) {
      SlotsForward(c, r, k, acked, r < c.n - 1);
      RelayedForward(c, r, k);
    }
    FlagsForward(c, r, k, acked);
    hide Slots, SoundPayload, Counts, Relayed;
  }

  lemma ForwardedShape(c: Config, r: nat, k: Rank)
    requires c.Valid() && c.n >= 2 && RankShape(c, r, k) && k.phase.Copying? && k.phase.got == k.phase.info.len
    ensures RankShape(c, r, ForwardRank(c, r, k))
    ensures k.phase.info.(slot := k.Slot()) == c.InfoOf(k.idx)
  {
    assert c.ValidBucket(k.idx);
    if k.idx + 1 < c.Count() { assert c.ValidBucket(k.idx + 1); }
  }

  lemma FlagsForward(c: Config, r: nat, k: Rank, acked: nat)
    requires c.Valid() && c.n >= 2 && RankShape(c, r, k) && Counts(c, r, k, acked) && k.phase.Copying?
    ensures Counts(c, r, ForwardRank(c, r, k), acked)
  {
  }

  lemma RankYield(c: Config, r: nat, k: Rank, acked: nat)
    requires c.Valid() && RankInv(c, r, k, acked) && k.phase.Yielding? && k.phase.next < |k.phase.info.meta|
    ensures RankInv(c, r, YieldRank(k), acked)
  {
    hide Flags, Intact, Stamped, Partial, SoundPayload;
  }

  lemma RankDone(c: Config, k: Rank, acked: nat)
    requires c.Valid() && RankInv(c, 0, k, acked) && k.phase.FinalWait?
    ensures RankInv(c, 0, k.(phase := Finished), acked)
  {
    hide Flags, Intact, Stamped, Partial, SoundPayload;
  }

  lemma RankInit(c: Config, r: nat, k: Rank)
    requires c.Valid() && RankShape(c, r, k) && k.idx == 0 && k.relayed == [] && (k.phase.Gate? || k.phase.Idle?)
    ensures RankInv(c, r, k, 0)
  {
  }

  lemma ChanInit(c: Config, left: Rank, right: Rank)
    requires c.Valid() && left.idx == right.idx == 0 && (left.phase.Gate? || left.phase.Idle?) && right.phase.Idle?
    ensures Chan(c, left, right, [])
  {
  }

  lemma RankAck(c: Config, r: nat, k: Rank, acked: nat)
    requires c.Valid() && RankInv(c, r, k, acked) && k.phase.Yielding?
    ensures RankInv(c, r, AckRank(k), if r < c.n - 1 then acked else acked + 1)
    ensures k.phase.info.slot == k.idx % 2
  {
    assert c.ValidBucket(k.idx);
    hide SoundPayload, Partial;
  }

  lemma RankStamped(c: Config, r: nat, p: Rank, acked: nat)
    requires c.Valid() && r < c.n - 1 && RankInv(c, r, p, acked) && acked < p.Sent()
    ensures |p.mem| == 2 && |p.mem[acked % 2]| >= 4
    ensures RankInv(c, r, StampRank(p, acked % 2), acked + 1)
  {
    if SoundPayload(c) { SlotsStamp(c, p, acked); }
    StampPrefix([], p.mem[acked % 2]);
    FlagsStamp(p.mem, acked, Overlay(p.mem[acked % 2], 0, MAGIC), p.Started() - 2);
    hide Flags, Slots, SoundPayload;
  }

  lemma ChanSame(c: Config, left: Rank, right: Rank, ch: seq<Info>, left': Rank, right': Rank)
    requires Chan(c, left, right, ch) && left'.Sent() == left.Sent() && right'.Taken() == right.Taken()
    ensures Chan(c, left', right', ch)
  {
  }

  lemma ChanTake(c: Config, left: Rank, right: Rank, ch: seq<Info>)
    requires Chan(c, left, right, ch) && right.phase.Idle? && ch != []
    ensures right.idx < c.Count() && ch[0] == c.InfoOf(right.idx)
    ensures Chan(c, left, right.(phase := Gate(ch[0])), ch[1..])
  {
  }

  lemma ChanForward(c: Config, left: Rank, right: Rank, ch: seq<Info>, left': Rank)
    requires Chan(c, left, right, ch) && left'.Sent() == left.Sent() + 1 <= c.Count()
    ensures Chan(c, left', right, ch + [c.InfoOf(left.Sent())])
  {
  }

  // ---------- preservation ----------

  function Acked(c: Config, s: State, r: nat): nat
    requires |s.ranks| == c.n && r < c.n
  {
    if r < c.n - 1 then s.ranks[r+1].idx else s.ranks[r].idx
  }

  predicate Inv(c: Config, s: State)
    requires c.Valid()
  {
    && |s.ranks| == |s.chan| == c.n
    && (forall r :: 0 <= r < c.n ==> RankInv(c, r, s.ranks[r], Acked(c, s, r)))
    && (forall r :: 0 < r < c.n ==> Chan(c, s.ranks[r-1], s.ranks[r], s.chan[r]))
  }

  lemma InvShape(c: Config, s: State)
    requires c.Valid() && Inv(c, s)
    ensures Shape(c, s)
  {
  }

  /** The facts around one rank. */
  lemma Around(c: Config, s: State, r: nat)
    requires c.Valid() && Inv(c, s) && r < c.n
    ensures |s.ranks| == |s.chan| == c.n && RankInv(c, r, s.ranks[r], Acked(c, s, r))
    ensures r > 0 ==> RankInv(c, r-1, s.ranks[r-1], s.ranks[r].idx) && Chan(c, s.ranks[r-1], s.ranks[r], s.chan[r])
    ensures r + 1 < c.n ==> Chan(c, s.ranks[r], s.ranks[r+1], s.chan[r+1])
  {
    hide RankInv, Chan;
    if r > 0 { assert RankInv(c, r-1, s.ranks[r-1], Acked(c, s, r-1)); }
  }

  /** A copy step moves exactly the right bytes of the right bucket. */
  lemma SourceIsBucket(c: Config, s: State, r: nat)
    requires c.Valid() && SoundPayload(c) && Inv(c, s) && Shape(c, s) && r < c.n && s.ranks[r].phase.Copying?
    ensures c.buckets[s.ranks[r].idx].data <= Source(c, s, r)
  {
    hide Inv;
    Around(c, s, r);
    if r > 0 { assert HasBucket(c, s.ranks[r-1].mem, s.ranks[r].idx); }
  }

  /** A step that changes one rank (its bucket count only if no predecessor looks at it) and the
      channels next to it keeps the invariant if it keeps the parts around that rank. */
  lemma KeepOne(c: Config, s: State, t: State, r: nat)
    requires c.Valid() && Inv(c, s) && r < c.n && |t.ranks| == |t.chan| == c.n
    requires forall q :: 0 <= q < c.n && q != r ==> t.ranks[q] == s.ranks[q]
    requires forall q :: 0 <= q < c.n && q != r && q != r + 1 ==> t.chan[q] == s.chan[q]
    requires t.ranks[r].idx == s.ranks[r].idx || r == 0
    requires RankInv(c, r, t.ranks[r], Acked(c, s, r))
    requires r > 0 ==> Chan(c, s.ranks[r-1], t.ranks[r], t.chan[r])
    requires r + 1 < c.n ==> Chan(c, t.ranks[r], s.ranks[r+1], t.chan[r+1])
    ensures Inv(c, t)
  {
    hide RankInv, Chan;
    forall q | 0 <= q < c.n ensures RankInv(c, q, t.ranks[q], Acked(c, t, q)) {
      assert RankInv(c, q, s.ranks[q], Acked(c, s, q));
    }
    forall q | 0 < q < c.n ensures Chan(c, t.ranks[q-1], t.ranks[q], t.chan[q]) {
      assert Chan(c, s.ranks[q-1], s.ranks[q], s.chan[q]);
    }
  }

  /** The same when the step changes nothing the neighbours look at. */
  lemma KeepLocal(c: Config, s: State, t: State, r: nat)
    requires c.Valid() && Inv(c, s) && r < c.n && |s.ranks| == |t.ranks| == c.n
    requires t == s.(ranks := s.ranks[r := t.ranks[r]])
    requires t.ranks[r].idx == s.ranks[r].idx
    requires t.ranks[r].Sent() == s.ranks[r].Sent() && t.ranks[r].Taken() == s.ranks[r].Taken()
    requires RankInv(c, r, t.ranks[r], Acked(c, s, r))
    ensures Inv(c, t)
  {
    Around(c, s, r);
    hide Inv, RankInv, Chan;
    if r > 0 { ChanSame(c, s.ranks[r-1], s.ranks[r], s.chan[r], s.ranks[r-1], t.ranks[r]); }
    if r + 1 < c.n { ChanSame(c, s.ranks[r], s.ranks[r+1], s.chan[r+1], t.ranks[r], s.ranks[r+1]); }
    KeepOne(c, s, t, r);
  }

  lemma KeepTake(c: Config, s: State, r: nat)
    requires c.Valid() && Inv(c, s) && Shape(c, s) && Enabled(c, s, Take(r))
    ensures Inv(c, Apply(c, s, Take(r)))
  {
    hide Inv, RankInv, Chan, RankShape;
    Around(c, s, r);
    var k := s.ranks[r];
    ChanTake(c, s.ranks[r-1], k, s.chan[r]);
    RankTake(c, r, k, Acked(c, s, r), s.chan[r][0]);
    if r + 1 < c.n { ChanSame(c, k, s.ranks[r+1], s.chan[r+1], k.(phase := Gate(s.chan[r][0])), s.ranks[r+1]); }
    KeepOne(c, s, Apply(c, s, Take(r)), r);
  }

  lemma KeepPass(c: Config, s: State, r: nat)
    requires c.Valid() && Inv(c, s) && Shape(c, s) && Enabled(c, s, Pass(r))
    ensures Inv(c, Apply(c, s, Pass(r)))
  {
    hide Inv, RankInv, Chan, RankShape;
    Around(c, s, r);
    RankPass(c, r, s.ranks[r], Acked(c, s, r));
    KeepLocal(c, s, Apply(c, s, Pass(r)), r);
  }

  lemma KeepCopy(c: Config, s: State, r: nat, n: nat)
    requires c.Valid() && Inv(c, s) && Shape(c, s) && Enabled(c, s, Copy(r, n))
    ensures Inv(c, Apply(c, s, Copy(r, n)))
  {
    hide Inv, RankInv, Chan, SoundPayload, RankShape, Overlay;
    Around(c, s, r);
    SourceEnough(c, s, r);
    var k := s.ranks[r];
    var d := Source(c, s, r)[k.phase.got..k.phase.got + n];
    if SoundPayload(c) { SourcePiece(c, s, r, n); }
    RankCopy(c, r, k, Acked(c, s, r), d);
    KeepLocal(c, s, Apply(c, s, Copy(r, n)), r);
  }

  lemma SourcePiece(c: Config, s: State, r: nat, n: nat)
    requires c.Valid() && SoundPayload(c) && Inv(c, s) && Shape(c, s) && Enabled(c, s, Copy(r, n))
    ensures var k := s.ranks[r];
            && k.idx < c.Count() && k.phase.got + n <= |c.buckets[k.idx].data| && k.phase.got + n <= |Source(c, s, r)|
            && Source(c, s, r)[k.phase.got..k.phase.got + n] == c.buckets[k.idx].data[k.phase.got..k.phase.got + n]
  {
    hide *;
    CopyFacts(c, s, r, n);
    SourceIsBucket(c, s, r);
    SamePiece(c.buckets[s.ranks[r].idx].data, Source(c, s, r), s.ranks[r].phase.got, n);
  }

  lemma CopyFacts(c: Config, s: State, r: nat, n: nat)
    requires c.Valid() && Shape(c, s) && Enabled(c, s, Copy(r, n))
    ensures r < c.n && |s.ranks| == c.n && s.ranks[r].phase.Copying? && s.ranks[r].idx < |c.buckets| == c.Count()
    ensures s.ranks[r].phase.got + n <= |c.buckets[s.ranks[r].idx].data|
  {
    assert RankShape(c, r, s.ranks[r]);
  }

  lemma SamePiece(d: seq<byte>, m: seq<byte>, got: nat, n: nat)
    requires d <= m && got + n <= |d|
    ensures got + n <= |m| && m[got..got + n] == d[got..got + n]
  {
  }

  lemma SourceEnough(c: Config, s: State, r: nat)
    requires c.Valid() && Shape(c, s) && r < c.n && s.ranks[r].phase.Copying?
    ensures s.ranks[r].phase.info.len <= |Source(c, s, r)|
  {
    assert RankShape(c, r, s.ranks[r]);
    if r > 0 { assert RankShape(c, r - 1, s.ranks[r - 1]); }
  }

  lemma KeepForward(c: Config, s: State, r: nat)
    requires c.Valid() && Inv(c, s) && Shape(c, s) && Enabled(c, s, Forward(r))
    ensures Inv(c, Apply(c, s, Forward(r)))
  {
    hide Inv, RankInv, Chan;
    Around(c, s, r);
    var k, k', t := s.ranks[r], ForwardRank(c, r, s.ranks[r]), Apply(c, s, Forward(r));
    RankForward(c, r, k, Acked(c, s, r));
    if r > 0 { ChanSame(c, s.ranks[r-1], k, s.chan[r], s.ranks[r-1], k'); }
    if r + 1 < c.n { ChanForward(c, k, s.ranks[r+1], s.chan[r+1], k'); }
    KeepOne(c, s, t, r);
  }

  lemma KeepYield(c: Config, s: State, r: nat)
    requires c.Valid() && Inv(c, s) && Shape(c, s) && Enabled(c, s, Yield(r))
    ensures Inv(c, Apply(c, s, Yield(r)))
  {
    hide Inv, RankInv, Chan;
    Around(c, s, r);
    RankYield(c, r, s.ranks[r], Acked(c, s, r));
    KeepLocal(c, s, Apply(c, s, Yield(r)), r);
  }

  lemma KeepDone(c: Config, s: State)
    requires c.Valid() && Inv(c, s) && Shape(c, s) && Enabled(c, s, Done)
    ensures Inv(c, Apply(c, s, Done))
  {
    hide Inv, RankInv, Chan;
    Around(c, s, 0);
    RankDone(c, s.ranks[0], Acked(c, s, 0));
    KeepLocal(c, s, Apply(c, s, Done), 0);
  }

  /** A step of rank r that also changes the memory of its predecessor. */
  lemma KeepTwo(c: Config, s: State, t: State, r: nat)
    requires c.Valid() && Inv(c, s) && 0 < r < c.n && |t.ranks| == c.n && t.chan == s.chan
    requires forall q :: 0 <= q < c.n && q != r && q != r - 1 ==> t.ranks[q] == s.ranks[q]
    requires t.ranks[r-1].idx == s.ranks[r-1].idx
    requires RankInv(c, r, t.ranks[r], Acked(c, t, r)) && RankInv(c, r-1, t.ranks[r-1], t.ranks[r].idx)
    requires Chan(c, t.ranks[r-1], t.ranks[r], s.chan[r])
    requires r > 1 ==> Chan(c, s.ranks[r-2], t.ranks[r-1], s.chan[r-1])
    requires r + 1 < c.n ==> Chan(c, t.ranks[r], s.ranks[r+1], s.chan[r+1])
    ensures Inv(c, t)
  {
    hide RankInv, Chan;
    forall q | 0 <= q < c.n ensures RankInv(c, q, t.ranks[q], Acked(c, t, q)) {
      if q != r && q != r - 1 { assert RankInv(c, q, s.ranks[q], Acked(c, s, q)); }
    }
    forall q | 0 < q < c.n ensures Chan(c, t.ranks[q-1], t.ranks[q], t.chan[q]) {
      if q != r - 1 && q != r && q != r + 1 { assert Chan(c, s.ranks[q-1], s.ranks[q], s.chan[q]); }
    }
  }

  /** The acknowledgement touches two ranks: the one that has read and the one it has read from. */
  lemma KeepAck(c: Config, s: State, r: nat)
    requires c.Valid() && Inv(c, s) && Shape(c, s) && Enabled(c, s, Ack(r))
    ensures Inv(c, Apply(c, s, Ack(r)))
  {
    hide Inv, RankInv, Chan, RankShape;
    Around(c, s, r);
    if r > 1 { Around(c, s, r-1); }
    var k, p, t := s.ranks[r], s.ranks[r-1], Apply(c, s, Ack(r));
    RankAck(c, r, k, Acked(c, s, r));
    RankMemory(c, r-1, p, k.idx);
    var k', p' := AckRank(k), StampRank(p, k.phase.info.slot);
    AckTaken(c, p, k, s.chan[r]);
    RankStamped(c, r-1, p, k.idx);
    ChanSame(c, p, k, s.chan[r], p', k');
    if r + 1 < c.n { ChanSame(c, k, s.ranks[r+1], s.chan[r+1], k', s.ranks[r+1]); }
    if r > 1 { ChanSame(c, s.ranks[r-2], p, s.chan[r-1], s.ranks[r-2], p'); }
    KeepTwo(c, s, t, r);
  }

  lemma AckTaken(c: Config, p: Rank, k: Rank, ch: seq<Info>)
    requires Chan(c, p, k, ch) && k.phase.Yielding?
    ensures k.idx < p.Sent()
  {
  }

  // ---------- all runs ----------

  lemma StepKeeps(c: Config, s: State, a: Action)
    requires c.Valid() && Inv(c, s) && Shape(c, s) && Enabled(c, s, a)
    ensures Inv(c, Apply(c, s, a))
  {
    hide *;
    match a
    case Take(r) => KeepTake(c, s, r);
    case Pass(r) => KeepPass(c, s, r);
    case Copy(r, n) => KeepCopy(c, s, r, n);
    case Forward(r) => KeepForward(c, s, r);
    case Yield(r) => KeepYield(c, s, r);
    case Ack(r) => KeepAck(c, s, r);
    case Done => KeepDone(c, s);
  }

  lemma InitKeeps(c: Config, s: State)
    requires c.Valid() && Init(c, s)
    ensures Inv(c, s)
  {
    hide RankInv, Chan, RankShape;
    forall r | 0 <= r < c.n ensures RankInv(c, r, s.ranks[r], Acked(c, s, r)) { RankInit(c, r, s.ranks[r]); }
    forall r | 0 < r < c.n ensures Chan(c, s.ranks[r-1], s.ranks[r], s.chan[r]) {
      ChanInit(c, s.ranks[r-1], s.ranks[r]);
    }
  }

  lemma {:induction false} RunKeeps(c: Config, s: State, steps: nat)
    requires c.Valid() && Reach(c, s, steps)
    ensures Inv(c, s)
    decreases steps
  {
    hide Inv, Shape, Enabled, Apply, Init, SoundPayload;
    if steps == 0 {
      InitKeeps(c, s);
    } else {
      var p, a :| Reach(c, p, steps - 1) && Shape(c, p) && Enabled(c, p, a) && s == Apply(c, p, a);
      RunKeeps(c, p, steps - 1);
      StepKeeps(c, p, a);
    }
  }

  lemma ReachableInv(c: Config, s: State)
    requires c.Valid() && Reachable(c, s)
    ensures Inv(c, s) && Shape(c, s)
  {
    hide Inv;
    var steps: nat :| Reach(c, s, steps);
    RunKeeps(c, s, steps);
    InvShape(c, s);
  }
}
