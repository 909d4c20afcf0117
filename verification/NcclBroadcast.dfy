/** The NCCL weight broadcast: on every rank an event loop (filling or handing out tensors) and an
    executor thread (the broadcast in flight) share two buffers that change roles. Metadata travels
    over a publish/subscribe channel and bytes over the collective; both are modelled as a log that
    every receiver reads at its own pace, the last broadcast possibly being only partly written. */
module NcclBroadcast {
  import opened Sequences
  import opened Buckets
  import opened PackingLaws

  datatype Header = Header(meta: seq<Meta>, last: bool)

  datatype Config = Config(receivers: nat, size: nat, buckets: seq<Bucket>) {
    predicate Valid() {
      |buckets| >= 1 && forall k :: 0 <= k < |buckets| ==> ValidBucket(k)
    }

    predicate ValidBucket(k: nat)
      requires k < |buckets|
    {
      BucketOk(buckets, size, k)
    }

    function HeaderOf(k: nat): Header
      requires k < |buckets|
    {
      Header(buckets[k].meta, buckets[k].last)
    }
  }

  /** A broadcast of the sender's executor thread, over the buffer `buf`. */
  datatype SendOp = NoSend | Publishing(buf: nat) | Casting(buf: nat, sent: nat) | Cast(buf: nat)

  datatype SendPhase = Filling(got: nat) | Draining | SendFinished

  /** Rank 0. `next` is the bucket being filled (and the number of broadcasts created). */
  datatype Sender = Sender(next: nat, fill: nat, phase: SendPhase, op: SendOp, mem: seq<seq<byte>>)

  /** A broadcast of a receiver's executor thread, into the buffer `buf`. */
  datatype RecvOp = NoRecv | Subscribing(buf: nat) | Getting(buf: nat, header: Header, got: nat) | Got(buf: nat, header: Header)

  datatype RecvPhase = First | Yielding(next: nat) | RecvFinished

  /** A rank above 0. `done` buckets were waited for; the last of them lies in `mem[out]`. `out` and
      `into` are the two buffers' current roles: handed out of, and received into. */
  datatype Receiver = Receiver(done: nat, out: nat, into: nat, phase: RecvPhase, op: RecvOp, header: Header,
                               mem: seq<seq<byte>>, outs: seq<Weight>)

  /** What was published and broadcast so far; `wire[k]` is the part of broadcast k already cast. */
  datatype Log = Log(headers: seq<Header>, wire: seq<seq<byte>>)

  datatype State = State(sender: Sender, recvs: seq<Receiver>, log: Log)

  // ---------- the sender's steps ----------

  datatype SendAction = Fill(n: nat) | Flush | Publish | CastBytes(n: nat) | EndCast | Finish

  predicate SenderShape(c: Config, s: Sender) {
    && s.fill < 2 && |s.mem| == 2 && |s.mem[0]| == |s.mem[1]| == c.size
    && (s.phase.Filling? ==> s.next < |c.buckets| && s.phase.got <= |c.buckets[s.next].data| <= c.size)
    && (s.op != NoSend ==> s.op.buf < 2)
    && (s.op.Casting? ==> s.op.sent <= c.size)
  }

  predicate SendEnabled(c: Config, s: Sender, log: Log, a: SendAction)
    requires SenderShape(c, s)
  {
    match a
    case Fill(n) => s.phase.Filling? && 1 <= n && s.phase.got + n <= |c.buckets[s.next].data|
    case Flush => s.phase.Filling? && s.phase.got == |c.buckets[s.next].data| && (s.op.NoSend? || s.op.Cast?)
    case Publish => s.op.Publishing? && 0 < s.next <= |c.buckets|
    case CastBytes(n) => s.op.Casting? && 1 <= n && s.op.sent + n <= c.size && |log.wire| > 0
    case EndCast => s.op.Casting? && s.op.sent == c.size
    case Finish => s.phase.Draining? && s.op.Cast?
  }

  function SendApply(c: Config, s: Sender, log: Log, a: SendAction): (Sender, Log)
    requires SenderShape(c, s) && SendEnabled(c, s, log, a)
  {
    match a
    case Fill(n) =>
      var d := c.buckets[s.next].data[s.phase.got..s.phase.got + n];
      (s.(phase := Filling(s.phase.got + n), mem := s.mem[s.fill := Overlay(s.mem[s.fill], s.phase.got, d)]), log)
    case Flush =>
      (s.(next := s.next + 1, fill := 1 - s.fill, op := Publishing(s.fill),
          phase := if c.buckets[s.next].last then Draining else Filling(0)), log)
    case Publish =>
      (s.(op := Casting(s.op.buf, 0)), Log(log.headers + [c.HeaderOf(s.next - 1)], log.wire + [[]]))
    case CastBytes(n) =>
      var i := |log.wire| - 1;
      (s.(op := Casting(s.op.buf, s.op.sent + n)),
       log.(wire := log.wire[i := log.wire[i] + s.mem[s.op.buf][s.op.sent..s.op.sent + n]]))
    case EndCast => (s.(op := Cast(s.op.buf)), log)
    case Finish => (s.(phase := SendFinished), log)
  }

  // ---------- a receiver's steps ----------

  datatype RecvAction = Subscribe | Get(n: nat) | EndGet | Await | Yield | End

  predicate ReceiverShape(c: Config, r: Receiver) {
    && r.out < 2 && r.into < 2 && (r.op != NoRecv ==> r.op.buf < 2) && |r.mem| == 2 && |r.mem[0]| == |r.mem[1]| == c.size
    && (r.op.Getting? ==> r.op.got <= c.size)
    && (r.phase.Yielding? ==> r.phase.next <= |r.header.meta|)
  }

  /** A waited-for broadcast is the first one, or the next one after all tensors were handed out. */
  predicate RecvEnabled(c: Config, r: Receiver, log: Log, a: RecvAction)
    requires ReceiverShape(c, r)
  {
    match a
    case Subscribe => r.op.Subscribing? && r.done < |log.headers|
    case Get(n) => r.op.Getting? && 1 <= n && r.done < |log.wire| && r.op.got + n <= |log.wire[r.done]| && r.op.got + n <= c.size
    case EndGet => r.op.Getting? && r.op.got == c.size
    case Await => r.op.Got? && (r.phase.First? || (r.phase.Yielding? && r.phase.next == |r.header.meta|))
    case Yield => r.phase.Yielding? && r.phase.next < |r.header.meta|
    case End => r.phase.Yielding? && r.phase.next == |r.header.meta| && r.header.last
  }

  function RecvApply(c: Config, r: Receiver, log: Log, a: RecvAction): Receiver
    requires ReceiverShape(c, r) && RecvEnabled(c, r, log, a)
  {
    match a
    case Subscribe => r.(op := Getting(r.op.buf, log.headers[r.done], 0))
    case Get(n) =>
      var d := log.wire[r.done][r.op.got..r.op.got + n];
      r.(op := Getting(r.op.buf, r.op.header, r.op.got + n), mem := r.mem[r.op.buf := Overlay(r.mem[r.op.buf], r.op.got, d)])
    case EndGet => r.(op := Got(r.op.buf, r.op.header))
    case Await =>
      r.(done := r.done + 1, out := r.into, into := r.out, header := r.op.header, phase := Yielding(0),
         op := if r.op.header.last then NoRecv else Subscribing(r.out))
    case Yield =>
      r.(phase := Yielding(r.phase.next + 1), outs := r.outs + [Read(r.mem[r.out], r.header.meta[r.phase.next])])
    case End => r.(phase := RecvFinished)
  }

  // ---------- runs ----------

  predicate Init(c: Config, s: State) {
    && |s.recvs| == c.receivers && s.log == Log([], [])
    && SenderShape(c, s.sender) && s.sender.next == 0 && s.sender.fill == 0
    && s.sender.phase == Filling(0) && s.sender.op == NoSend
    && forall i :: 0 <= i < |s.recvs| ==>
         && ReceiverShape(c, s.recvs[i]) && s.recvs[i].done == 0 && s.recvs[i].out == 0 && s.recvs[i].into == 1
         && s.recvs[i].phase == First && s.recvs[i].op == Subscribing(1) && s.recvs[i].outs == []
  }

  predicate SendStep(c: Config, s: State, a: SendAction, t: State) {
    && SenderShape(c, s.sender) && SendEnabled(c, s.sender, s.log, a)
    && var (sender, log) := SendApply(c, s.sender, s.log, a); t == s.(sender := sender, log := log)
  }

  predicate RecvStep(c: Config, s: State, i: nat, a: RecvAction, t: State) {
    && i < |s.recvs| && ReceiverShape(c, s.recvs[i]) && RecvEnabled(c, s.recvs[i], s.log, a)
    && t == s.(recvs := s.recvs[i := RecvApply(c, s.recvs[i], s.log, a)])
  }

  /** One atomic step of the sender or of one receiver. */
  ghost predicate Step(c: Config, s: State, t: State) {
    (exists a :: SendStep(c, s, a, t)) || (exists i, a :: RecvStep(c, s, i, a, t))
  }

  ghost predicate Reach(c: Config, s: State, steps: nat)
    decreases steps
  {
    if steps == 0 then Init(c, s) else exists p :: Reach(c, p, steps - 1) && Step(c, p, s)
  }

  ghost predicate Reachable(c: Config, s: State) { exists steps: nat :: Reach(c, s, steps) }

  // ---------- the invariant ----------

  function Created(s: Sender): int { if s.op.NoSend? then 0 else if s.op.Publishing? then s.next - 1 else s.next }

  /** The sender's side: the broadcast in flight reads the buffer that is not being filled, and that
      buffer holds the bucket announced; every finished broadcast put its bucket on the wire. */
  predicate SenderInv(c: Config, s: Sender, log: Log)
    requires c.Valid()
  {
    && SenderShape(c, s) && s.next <= |c.buckets|
    && (s.phase.Filling? ==> c.buckets[s.next].data[..s.phase.got] <= s.mem[s.fill])
    && (!s.phase.Filling? ==> s.next == |c.buckets|)
    && (s.op.NoSend? <==> s.next == 0)
    && (s.op.Publishing? || s.op.Casting? ==> s.op.buf == 1 - s.fill && c.buckets[s.next - 1].data <= s.mem[s.op.buf])
    && (s.phase.SendFinished? ==> s.op.Cast?)
    && |log.headers| == |log.wire| == Created(s)
    && (forall k :: 0 <= k < |log.headers| ==> log.headers[k] == c.HeaderOf(k))
    && (forall k :: 0 <= k < |log.wire| ==> WireOk(c, log, k))
    && (forall k :: 0 <= k < |log.wire| && (k < s.next - 1 || s.op.Cast?) ==> |log.wire[k]| == c.size)
    && (s.op.Casting? ==> log.wire[s.next - 1] == s.mem[s.op.buf][..s.op.sent])
  }

  predicate WireOk(c: Config, log: Log, k: nat)
    requires k < |log.wire| <= |c.buckets|
  {
    |log.wire[k]| <= c.size && (|log.wire[k]| == c.size ==> c.buckets[k].data <= log.wire[k])
  }

  /** A receiver's side: the buffer it hands out of holds the last waited-for bucket, the other one
      what has arrived of the next. */
  predicate ReceiverInv(c: Config, r: Receiver, log: Log)
    requires c.Valid()
  {
    && ReceiverShape(c, r) && r.done <= |log.wire| && |log.wire| == |log.headers| <= |c.buckets|
    && r.into == 1 - r.out && (r.op != NoRecv ==> r.op.buf == r.into)
    && (r.phase.First? <==> r.done == 0)
    && (r.done > 0 ==> r.header == c.HeaderOf(r.done - 1) && c.buckets[r.done - 1].data <= r.mem[r.out])
    && (r.op.NoRecv? <==> r.done > 0 && r.header.last)
    && (r.phase.RecvFinished? ==> r.op.NoRecv?)
    && (r.op.Getting? ==>
          && r.done < |log.wire| && r.op.header == c.HeaderOf(r.done)
          && r.op.got <= |log.wire[r.done]| && log.wire[r.done][..r.op.got] <= r.mem[r.into])
    && (r.op.Got? ==> r.done < |log.wire| && r.op.header == c.HeaderOf(r.done) && c.buckets[r.done].data <= r.mem[r.into])
    && r.outs == match r.phase
                 case First => []
                 case Yielding(next) => AllYields(c.buckets[..r.done - 1]) + Yields(c.buckets[r.done - 1])[..next]
                 case RecvFinished => AllYields(c.buckets)
  }

  predicate Inv(c: Config, s: State)
    requires c.Valid()
  {
    && |s.recvs| == c.receivers
    && SenderInv(c, s.sender, s.log)
    && forall i :: 0 <= i < |s.recvs| ==> ReceiverInv(c, s.recvs[i], s.log)
  }

  /** The log only grows: finished broadcasts stay, the last one gets longer, new ones are added. */
  predicate Extends(log: Log, log': Log) {
    && log.headers <= log'.headers && |log.wire| <= |log'.wire|
    && forall k :: 0 <= k < |log.wire| ==> log.wire[k] <= log'.wire[k]
  }

  // ---------- preservation ----------

  lemma KeepFill(c: Config, s: Sender, log: Log, n: nat)
    requires c.Valid() && SenderInv(c, s, log) && SendEnabled(c, s, log, Fill(n))
    ensures SenderInv(c, SendApply(c, s, log, Fill(n)).0, log)
  {
    OverlayGrows(c.buckets[s.next].data, s.mem[s.fill], s.phase.got, n);
    hide WireOk;
  }

  lemma KeepFlush(c: Config, s: Sender, log: Log)
    requires c.Valid() && SenderInv(c, s, log) && SendEnabled(c, s, log, Flush)
    ensures SenderInv(c, SendApply(c, s, log, Flush).0, log)
  {
    assert c.ValidBucket(s.next);
    if s.next + 1 < |c.buckets| { assert c.ValidBucket(s.next + 1); }
    assert c.buckets[s.next].data[..s.phase.got] == c.buckets[s.next].data;
    hide WireOk;
  }

  lemma KeepPublish(c: Config, s: Sender, log: Log)
    requires c.Valid() && SenderInv(c, s, log) && SendEnabled(c, s, log, Publish)
    ensures var (s', log') := SendApply(c, s, log, Publish); SenderInv(c, s', log') && Extends(log, log')
  {
    assert c.ValidBucket(s.next - 1);
    var log' := SendApply(c, s, log, Publish).1;
    forall k | 0 <= k < |log'.wire| ensures WireOk(c, log', k) {
      if k < |log.wire| { assert WireOk(c, log, k); }
    }
    hide WireOk;
  }

  lemma KeepCast(c: Config, s: Sender, log: Log, n: nat)
    requires c.Valid() && SenderInv(c, s, log) && SendEnabled(c, s, log, CastBytes(n))
    ensures var (s', log') := SendApply(c, s, log, CastBytes(n)); SenderInv(c, s', log') && Extends(log, log')
  {
    var m := s.mem[s.op.buf];
    assert m[..s.op.sent] + m[s.op.sent..s.op.sent + n] == m[..s.op.sent + n];
    assert m[..c.size] == m;
    var log' := SendApply(c, s, log, CastBytes(n)).1;
    forall k | 0 <= k < |log'.wire| ensures WireOk(c, log', k) {
      if k < |log.wire| - 1 { assert WireOk(c, log, k); }
    }
    hide WireOk;
  }

  lemma KeepEnd(c: Config, s: Sender, log: Log, a: SendAction)
    requires c.Valid() && SenderInv(c, s, log) && SendEnabled(c, s, log, a) && (a.EndCast? || a.Finish?)
    ensures SenderInv(c, SendApply(c, s, log, a).0, log)
  {
    hide WireOk;
  }

  lemma ExtendsSelf(log: Log)
    ensures Extends(log, log)
  {
  }

  lemma SendKeeps(c: Config, s: Sender, log: Log, a: SendAction)
    requires c.Valid() && SenderInv(c, s, log) && SendEnabled(c, s, log, a)
    ensures var (s', log') := SendApply(c, s, log, a); SenderInv(c, s', log') && Extends(log, log')
  {
    hide SenderInv, SendEnabled, Extends;
    ExtendsSelf(log);
    match a
    case Fill(n) => KeepFill(c, s, log, n);
    case Flush => KeepFlush(c, s, log);
    case Publish => KeepPublish(c, s, log);
    case CastBytes(n) => KeepCast(c, s, log, n);
    case EndCast => KeepEnd(c, s, log, a);
    case Finish => KeepEnd(c, s, log, a);
  }

  // A receiver, while the log grows and when it steps.

  lemma ReceiverExtends(c: Config, r: Receiver, log: Log, log': Log)
    requires c.Valid() && ReceiverInv(c, r, log) && Extends(log, log')
    requires |log'.wire| == |log'.headers| <= |c.buckets|
    ensures ReceiverInv(c, r, log')
  {
  }

  lemma GotIsBucket(c: Config, r: Receiver, log: Log)
    requires c.Valid() && ReceiverInv(c, r, log) && RecvEnabled(c, r, log, EndGet)
    requires forall k :: 0 <= k < |log.wire| ==> WireOk(c, log, k)
    ensures c.buckets[r.done].data <= r.mem[r.into]
  {
    assert WireOk(c, log, r.done);
    assert log.wire[r.done][..c.size] == log.wire[r.done];
    assert r.mem[r.into][..c.size] == r.mem[r.into];
  }

  /** After all tensors of bucket k were handed out, those of buckets 0..k were. */
  lemma YieldsComplete(c: Config, k: nat)
    requires k < |c.buckets|
    ensures AllYields(c.buckets[..k + 1]) == AllYields(c.buckets[..k]) + Yields(c.buckets[k])[..|c.buckets[k].meta|]
  {
    AllYieldsAppend(c.buckets[..k], c.buckets[k]);
    assert c.buckets[..k + 1] == c.buckets[..k] + [c.buckets[k]];
  }

  lemma KeepYield(c: Config, r: Receiver, log: Log)
    requires c.Valid() && ReceiverInv(c, r, log) && RecvEnabled(c, r, log, Yield)
    ensures ReceiverInv(c, RecvApply(c, r, log, Yield), log)
  {
    hide AllYields, Yields, Read, WireOk, Config.Valid, Config.ValidBucket;
    var k, i := r.done - 1, r.phase.next;
    ReadsYield(c, k, r.mem[r.out], i);
    OneMoreYield(AllYields(c.buckets[..k]), Yields(c.buckets[k]), i);
  }

  lemma ReadsYield(c: Config, k: nat, m: seq<byte>, i: nat)
    requires c.Valid() && k < |c.buckets| && i < |c.buckets[k].meta| && c.buckets[k].data <= m
    ensures Read(m, c.buckets[k].meta[i]) == Yields(c.buckets[k])[i]
  {
    var b := c.buckets[k];
    assert c.ValidBucket(k) && b.meta[i] in b.meta;
    ReadPrefix(b.data, m, b.meta[i]);
  }

  lemma OneMoreYield(x: seq<Weight>, y: seq<Weight>, i: nat)
    requires i < |y|
    ensures x + y[..i + 1] == x + y[..i] + [y[i]]
  {
    assert y[..i + 1] == y[..i] + [y[i]];
  }

  lemma NoneYielded(bs: seq<Bucket>, k: nat)
    requires k < |bs|
    ensures AllYields(bs[..k]) + Yields(bs[k])[..0] == AllYields(bs[..k])
  {
    hide AllYields, Yields;
  }

  lemma NoYields(bs: seq<Bucket>)
    ensures AllYields(bs[..0]) == []
  {
  }

  lemma KeepAwait(c: Config, r: Receiver, log: Log)
    requires c.Valid() && ReceiverInv(c, r, log) && RecvEnabled(c, r, log, Await)
    ensures ReceiverInv(c, RecvApply(c, r, log, Await), log)
  {
    hide AllYields, Yields, WireOk, Config.Valid, Config.ValidBucket;
    if r.done > 0 { YieldsComplete(c, r.done - 1); } else { NoYields(c.buckets); }
    NoneYielded(c.buckets, r.done);
  }

  lemma KeepEndRecv(c: Config, r: Receiver, log: Log)
    requires c.Valid() && ReceiverInv(c, r, log) && RecvEnabled(c, r, log, End)
    ensures ReceiverInv(c, RecvApply(c, r, log, End), log)
  {
    assert c.ValidBucket(r.done - 1) && r.done == |c.buckets|;
    hide AllYields, Yields;
    YieldsComplete(c, r.done - 1);
    assert c.buckets[..|c.buckets|] == c.buckets;
  }

  lemma KeepGet(c: Config, r: Receiver, log: Log, n: nat)
    requires c.Valid() && ReceiverInv(c, r, log) && RecvEnabled(c, r, log, Get(n))
    ensures ReceiverInv(c, RecvApply(c, r, log, Get(n)), log)
  {
    OverlayGrows(log.wire[r.done], r.mem[r.into], r.op.got, n);
    hide AllYields, Yields, Overlay, Config.ValidBucket, Config.Valid;
  }

  lemma RecvKeeps(c: Config, r: Receiver, log: Log, a: RecvAction)
    requires c.Valid() && ReceiverInv(c, r, log) && RecvEnabled(c, r, log, a)
    requires forall k :: 0 <= k < |log.headers| ==> log.headers[k] == c.HeaderOf(k)
    requires forall k :: 0 <= k < |log.wire| ==> WireOk(c, log, k)
    ensures ReceiverInv(c, RecvApply(c, r, log, a), log)
  {
    match a
    case Subscribe =>
    case Get(n) => KeepGet(c, r, log, n);
    case EndGet => GotIsBucket(c, r, log);
    case Await => KeepAwait(c, r, log);
    case Yield => KeepYield(c, r, log);
    case End => KeepEndRecv(c, r, log);
  }

  // ---------- all runs ----------

  lemma StepKeeps(c: Config, s: State, t: State)
    requires c.Valid() && Inv(c, s) && Step(c, s, t)
    ensures Inv(c, t)
  {
    hide ReceiverInv, Extends;
    if a :| SendStep(c, s, a, t) {
      SendKeeps(c, s.sender, s.log, a);
      forall i | 0 <= i < |t.recvs| ensures ReceiverInv(c, t.recvs[i], t.log) {
        ReceiverExtends(c, s.recvs[i], s.log, t.log);
      }
    } else {
      var i: nat, a :| RecvStep(c, s, i, a, t);
      RecvKeeps(c, s.recvs[i], s.log, a);
    }
  }

  lemma {:induction false} RunKeeps(c: Config, s: State, steps: nat)
    requires c.Valid() && Reach(c, s, steps)
    ensures Inv(c, s)
    decreases steps
  {
    hide Inv, Step, Init, Config.Valid;
    if steps == 0 {
      InitInv(c, s);
    } else {
      var p :| Reach(c, p, steps - 1) && Step(c, p, s);
      RunKeeps(c, p, steps - 1);
      StepKeeps(c, p, s);
    }
  }

  lemma InitInv(c: Config, s: State)
    requires c.Valid() && Init(c, s)
    ensures Inv(c, s)
  {
    assert c.ValidBucket(0);
    hide AllYields, Yields;
    forall i | 0 <= i < |s.recvs| ensures ReceiverInv(c, s.recvs[i], s.log) { }
  }

  lemma OutsPrefix(c: Config, r: Receiver, log: Log)
    requires c.Valid() && ReceiverInv(c, r, log)
    ensures r.outs <= AllYields(c.buckets)
    ensures r.phase.RecvFinished? ==> r.outs == AllYields(c.buckets)
  {
    hide AllYields, Yields;
    if r.phase.Yielding? { SplitPrefix(c.buckets, r.done - 1, r.phase.next); } else { EmptyPrefix(AllYields(c.buckets)); }
  }

  /** What was handed out up to tensor n of bucket k is the beginning of all. */
  lemma SplitPrefix(bs: seq<Bucket>, k: nat, n: nat)
    requires k < |bs| && n <= |bs[k].meta|
    ensures AllYields(bs[..k]) + Yields(bs[k])[..n] <= AllYields(bs)
  {
    hide *;
    AllYieldsSplit(bs, k);
    PrefixOfJoin(AllYields(bs[..k]), Yields(bs[k]), n, AllYields(bs[k + 1..]));
  }

  lemma PrefixOfJoin(x: seq<Weight>, y: seq<Weight>, n: nat, z: seq<Weight>)
    requires n <= |y|
    ensures x + y[..n] <= x + y + z
  {
    assert y == y[..n] + y[n..];
    Assoc(x, y[..n], y[n..]);
  }

  lemma EmptyPrefix(ws: seq<Weight>)
    ensures [] <= ws && ws <= ws
  {
  }

  /** How many tensors of the sent list a receiver has handed out is decided by the schedule; which
      ones, in which order and with which bytes is not: always the next ones of the list. */
  lemma HandedOutPrefix(c: Config, s: State, i: nat)
    requires c.Valid() && Reachable(c, s) && i < c.receivers
    ensures |s.recvs| == c.receivers && s.recvs[i].outs <= AllYields(c.buckets)
    ensures s.recvs[i].phase.RecvFinished? ==> s.recvs[i].outs == AllYields(c.buckets)
  {
    hide ReceiverInv, SenderInv;
    var steps: nat :| Reach(c, s, steps);
    RunKeeps(c, s, steps);
    OutsPrefix(c, s.recvs[i], s.log);
  }

  /** The buffer of the sender's pending broadcast: not the one being filled, still holding the bucket
      announced, and what was cast so far is the beginning of it. */
  predicate CastUndisturbed(c: Config, p: Sender, log: Log) {
    p.op.Publishing? || p.op.Casting? ==>
      && p.op.buf != p.fill && p.op.buf < |p.mem| && 0 < p.next <= |c.buckets|
      && c.buckets[p.next - 1].data <= p.mem[p.op.buf]
      && (p.op.Casting? ==> |log.wire| == p.next && log.wire[p.next - 1] <= p.mem[p.op.buf])
  }

  /** A receiver hands tensors out of a buffer that holds the complete bucket and is not the one the
      broadcast in flight writes. */
  predicate YieldUndisturbed(c: Config, r: Receiver) {
    r.phase.Yielding? ==> (r.op != NoRecv ==> r.op.buf != r.out) && 0 < r.done <= |c.buckets| && r.out < |r.mem| && c.buckets[r.done - 1].data <= r.mem[r.out]
  }

  lemma BuffersApart(c: Config, s: State)
    requires c.Valid() && Reachable(c, s)
    ensures CastUndisturbed(c, s.sender, s.log)
    ensures forall r <- s.recvs :: YieldUndisturbed(c, r)
  {
    hide ReceiverInv, SenderInv, CastUndisturbed, YieldUndisturbed;
    var steps: nat :| Reach(c, s, steps);
    RunKeeps(c, s, steps);
    SenderApart(c, s.sender, s.log);
    forall i | 0 <= i < |s.recvs| ensures YieldUndisturbed(c, s.recvs[i]) { ReceiverApart(c, s.recvs[i], s.log); }
  }

  lemma SenderApart(c: Config, p: Sender, log: Log)
    requires c.Valid() && SenderInv(c, p, log)
    ensures CastUndisturbed(c, p, log)
  {
  }

  lemma ReceiverApart(c: Config, r: Receiver, log: Log)
    requires c.Valid() && ReceiverInv(c, r, log)
    ensures YieldUndisturbed(c, r)
  {
  }

  /** The sender returns only when every bucket was broadcast in full. */
  lemma SenderFinishesLast(c: Config, s: State)
    requires c.Valid() && Reachable(c, s) && s.sender.phase.SendFinished?
    ensures |s.log.wire| == |s.log.headers| == |c.buckets|
    ensures forall k :: 0 <= k < |c.buckets| ==>
              s.log.headers[k] == c.HeaderOf(k) && |s.log.wire[k]| == c.size && c.buckets[k].data <= s.log.wire[k]
  {
    hide ReceiverInv, Config.Valid;
    var steps: nat :| Reach(c, s, steps);
    RunKeeps(c, s, steps);
    forall k | 0 <= k < |c.buckets| ensures |s.log.wire[k]| == c.size && c.buckets[k].data <= s.log.wire[k] { assert WireOk(c, s.log, k); }
  }

  // ---------- progress ----------

  predicate Complete(s: State) {
    s.sender.phase.SendFinished? && forall r <- s.recvs :: r.phase.RecvFinished?
  }

  lemma SenderMoves(c: Config, s: State)
    requires c.Valid() && Inv(c, s) && !s.sender.phase.SendFinished?
    ensures exists t :: Step(c, s, t)
  {
    var p := s.sender;
    var a := if p.op.Publishing? then Publish
             else if p.op.Casting? then (if p.op.sent < c.size then CastBytes(1) else EndCast)
             else if p.phase.Draining? then Finish
             else if p.phase.got < |c.buckets[p.next].data| then Fill(1) else Flush;
    assert SendEnabled(c, p, s.log, a);
    var r := SendApply(c, p, s.log, a);
    var t := s.(sender := r.0, log := r.1);
    assert SendStep(c, s, a, t);
    assert Step(c, s, t);
  }

  lemma ReceiverMoves(c: Config, s: State, i: nat)
    requires c.Valid() && Inv(c, s) && s.sender.phase.SendFinished?
    requires i < |s.recvs| && !s.recvs[i].phase.RecvFinished?
    ensures exists t :: Step(c, s, t)
  {
    var r := s.recvs[i];
    assert ReceiverInv(c, r, s.log);
    if r.op.Getting? { assert |s.log.wire[r.done]| == c.size; }
    var a := if r.phase.Yielding? && r.phase.next < |r.header.meta| then Yield
             else if r.op.NoRecv? then End
             else if r.op.Subscribing? then Subscribe
             else if r.op.Getting? then (if r.op.got < c.size then Get(1) else EndGet)
             else Await;
    if r.op.Subscribing? { LastHeader(c, r, s.log); }
    assert RecvEnabled(c, r, s.log, a);
    var t := s.(recvs := s.recvs[i := RecvApply(c, r, s.log, a)]);
    assert RecvStep(c, s, i, a, t);
    assert Step(c, s, t);
  }

  lemma LastHeader(c: Config, r: Receiver, log: Log)
    requires c.Valid() && ReceiverInv(c, r, log) && r.op.Subscribing?
    ensures r.done < |c.buckets|
  {
    if r.done > 0 { assert c.ValidBucket(r.done - 1); }
  }

  /** Whatever the schedule, the transfer cannot get stuck before everybody is done. */
  lemma NoDeadlock(c: Config, s: State)
    requires c.Valid() && Reachable(c, s) && !Complete(s)
    ensures exists t :: Step(c, s, t)
  {
    var steps: nat :| Reach(c, s, steps);
    RunKeeps(c, s, steps);
    if !s.sender.phase.SendFinished? {
      SenderMoves(c, s);
    } else {
      var r :| r in s.recvs && !r.phase.RecvFinished?;
      var i :| 0 <= i < |s.recvs| && s.recvs[i] == r;
      ReceiverMoves(c, s, i);
    }
  }

  /** From tensors to tensors: a receiver that has finished holds exactly the tensors sent, if and only
      if no two tensors of equal name were packed into one bucket. */
  lemma EndToEnd(ws: seq<Weight>, c: Config, s: State, i: nat)
    requires Fits(ws, c.size) && AllValid(ws) && c.buckets == Pack(ws, c.size).sent
    requires c.Valid() && Reachable(c, s) && i < c.receivers && |s.recvs| == c.receivers && s.recvs[i].phase.RecvFinished?
    ensures s.recvs[i].outs == ws <==> forall g <- Groups(ws, c.size) :: DistinctNames(g)
  {
    HandedOutPrefix(c, s, i);
    PackRoundTrip(ws, c.size);
  }
}
