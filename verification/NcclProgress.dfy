/** Every schedule of the NCCL transfer is finite: with NoDeadlock, it completes. */
module NcclProgress {
  import opened Arithmetic
  import opened Buckets
  import opened PackingLaws
  import opened NcclBroadcast

  /** The steps of k broadcasts on one rank. */
  function Casts(k: nat, size: nat): nat { k * (size + 3) }

  function Filled(bs: seq<Bucket>, n: nat): nat
    requires n <= |bs|
  {
    if n == 0 then 0 else Filled(bs, n - 1) + |bs[n - 1].data|
  }

  function Metas(bs: seq<Bucket>, n: nat): nat
    requires n <= |bs|
  {
    if n == 0 then 0 else Metas(bs, n - 1) + |bs[n - 1].meta|
  }

  function OpSent(c: Config, op: SendOp): nat {
    match op
    case NoSend => 0
    case Publishing(_) => 0
    case Casting(_, sent) => 1 + sent
    case Cast(_) => 2 + c.size
  }

  /** The steps the sender has taken, at least. */
  function Sent(c: Config, s: Sender): nat
    requires s.next <= |c.buckets|
  {
    Filled(c.buckets, s.next) + (if s.phase.Filling? then s.phase.got else 0)
    + (if s.next == 0 then 0 else Casts(s.next - 1, c.size) + 1) + OpSent(c, s.op) + (if s.phase.SendFinished? then 1 else 0)
  }

  function OpGot(c: Config, op: RecvOp): nat {
    match op
    case NoRecv => 0
    case Subscribing(_) => 0
    case Getting(_, _, got) => 1 + got
    case Got(_, _) => 2 + c.size
  }

  /** The steps a receiver has taken, at least. */
  function Received(c: Config, r: Receiver): nat
    requires r.done <= |c.buckets|
  {
    Casts(r.done, c.size) + OpGot(c, r.op)
    + match r.phase
      case First => 0
      case Yielding(next) => (if r.done == 0 then 0 else Metas(c.buckets, r.done - 1)) + next
      case RecvFinished => Metas(c.buckets, |c.buckets|) + 1
  }

  lemma CastsNext(k: nat, size: nat)
    ensures Casts(k + 1, size) == Casts(k, size) + size + 3
  {
    assert (k + 1) * (size + 3) == k * (size + 3) + (size + 3);
  }

  lemma CastsMonotone(k: nat, l: nat, size: nat)
    requires k <= l
    ensures Casts(k, size) <= Casts(l, size)
  {
    MulMonotone(k, l, size + 3);
  }

  lemma {:induction false} SumsMonotone(bs: seq<Bucket>, k: nat, n: nat)
    requires k <= n <= |bs|
    ensures Filled(bs, k) <= Filled(bs, n) && Metas(bs, k) <= Metas(bs, n)
  {
    if k < n { SumsMonotone(bs, k, n - 1); }
  }

  lemma SentStep(c: Config, s: Sender, log: Log, a: SendAction)
    requires c.Valid() && SenderInv(c, s, log) && SendEnabled(c, s, log, a) && SendApply(c, s, log, a).0.next <= |c.buckets|
    ensures Sent(c, SendApply(c, s, log, a).0) >= Sent(c, s) + 1
  {
    hide Casts, Overlay, Config.Valid;
    if s.next > 0 { CastsNext(s.next - 1, c.size); }
    if a.Flush? && s.next == 0 { assert Casts(0, c.size) >= 0; }
  }

  lemma SentBound(c: Config, s: Sender, log: Log)
    requires c.Valid() && SenderInv(c, s, log)
    ensures Sent(c, s) <= Filled(c.buckets, |c.buckets|) + Casts(|c.buckets|, c.size) + 1
  {
    hide Casts, Config.Valid;
    SumsMonotone(c.buckets, s.next, |c.buckets|);
    if s.phase.Filling? { SumsMonotone(c.buckets, s.next + 1, |c.buckets|); }
    if s.next > 0 { CastsNext(s.next - 1, c.size); }
    CastsMonotone(s.next, |c.buckets|, c.size);
  }

  lemma ReceivedStep(c: Config, r: Receiver, log: Log, a: RecvAction)
    requires c.Valid() && ReceiverInv(c, r, log) && RecvEnabled(c, r, log, a) && ReceiverInv(c, RecvApply(c, r, log, a), log)
    ensures Received(c, RecvApply(c, r, log, a)) >= Received(c, r) + 1
  {
    hide AllYields, Yields, Overlay, Read, Casts, WireOk, Config.Valid, Config.ValidBucket;
    if a.End? { LastWaited(c, r, log); }
    CastsNext(r.done, c.size);
  }

  lemma LastWaited(c: Config, r: Receiver, log: Log)
    requires c.Valid() && ReceiverInv(c, r, log) && r.done > 0 && r.header.last
    ensures r.done == |c.buckets|
  {
    hide AllYields, Yields;
    assert c.ValidBucket(r.done - 1);
  }

  lemma ReceivedBound(c: Config, r: Receiver, log: Log)
    requires c.Valid() && ReceiverInv(c, r, log)
    ensures Received(c, r) <= Metas(c.buckets, |c.buckets|) + Casts(|c.buckets|, c.size) + 1
  {
    hide AllYields, Yields, Casts;
    CastsNext(r.done, c.size);
    CastsMonotone(if r.op.NoRecv? then r.done else r.done + 1, |c.buckets|, c.size) by { OpenLeft(c, r, log); }
    if r.done > 0 { SumsMonotone(c.buckets, r.done, |c.buckets|); }
  }

  lemma OpenLeft(c: Config, r: Receiver, log: Log)
    requires c.Valid() && ReceiverInv(c, r, log)
    ensures !r.op.NoRecv? ==> r.done < |c.buckets|
  {
    hide AllYields, Yields;
    if r.done > 0 { assert c.ValidBucket(r.done - 1); }
  }

  function AllReceived(c: Config, s: State, n: nat): nat
    requires c.Valid() && Inv(c, s) && n <= |s.recvs|
  {
    if n == 0 then 0 else AllReceived(c, s, n - 1) + Received(c, s.recvs[n - 1])
  }

  function Total(c: Config, s: State): nat
    requires c.Valid() && Inv(c, s)
  {
    Sent(c, s.sender) + AllReceived(c, s, |s.recvs|)
  }

  lemma {:induction false} OthersStay(c: Config, s: State, t: State, n: nat, i: int)
    requires c.Valid() && Inv(c, s) && Inv(c, t) && n <= |s.recvs| == |t.recvs|
    requires forall k :: 0 <= k < n && k != i ==> t.recvs[k] == s.recvs[k]
    requires 0 <= i < n ==> Received(c, t.recvs[i]) >= Received(c, s.recvs[i]) + 1
    ensures AllReceived(c, t, n) >= AllReceived(c, s, n) + if 0 <= i < n then 1 else 0
  {
    hide Received, ReceiverInv, SenderInv;
    if n > 0 { OthersStay(c, s, t, n - 1, i); }
  }

  lemma NextInRange(c: Config, s: Sender, log: Log)
    requires c.Valid() && SenderInv(c, s, log)
    ensures s.next <= |c.buckets|
  {
  }

  lemma TotalStep(c: Config, s: State, t: State)
    requires c.Valid() && Inv(c, s) && Inv(c, t) && Step(c, s, t)
    ensures Total(c, t) >= Total(c, s) + 1
  {
    hide Received, ReceiverInv, SenderInv, Sent, SendApply, RecvApply, SendEnabled, RecvEnabled;
    if a :| SendStep(c, s, a, t) {
      NextInRange(c, t.sender, t.log);
      SentStep(c, s.sender, s.log, a);
      OthersStay(c, s, t, |s.recvs|, -1);
    } else {
      var i: nat, a :| RecvStep(c, s, i, a, t);
      assert ReceiverInv(c, s.recvs[i], s.log) && ReceiverInv(c, t.recvs[i], t.log);
      ReceivedStep(c, s.recvs[i], s.log, a);
      OthersStay(c, s, t, |s.recvs|, i);
    }
  }

  lemma {:induction false} StepsBelowTotal(c: Config, s: State, steps: nat)
    requires c.Valid() && Reach(c, s, steps)
    ensures Inv(c, s) && steps <= Total(c, s)
    decreases steps
  {
    hide Inv, Step, Init, Total;
    RunKeeps(c, s, steps);
    if steps > 0 {
      var p :| Reach(c, p, steps - 1) && Step(c, p, s);
      StepsBelowTotal(c, p, steps - 1);
      TotalStep(c, p, s);
    }
  }

  /** What one rank does at most. */
  function RankBound(c: Config): nat {
    Filled(c.buckets, |c.buckets|) + Metas(c.buckets, |c.buckets|) + Casts(|c.buckets|, c.size) + 1
  }

  lemma ReceivedBelow(c: Config, r: Receiver, log: Log)
    requires c.Valid() && ReceiverInv(c, r, log)
    ensures Received(c, r) <= RankBound(c)
  {
    hide Received, ReceiverInv, Casts, Filled, Metas, Config.Valid;
    ReceivedBound(c, r, log);
  }

  lemma SentBelow(c: Config, s: Sender, log: Log)
    requires c.Valid() && SenderInv(c, s, log)
    ensures Sent(c, s) <= RankBound(c)
  {
    hide Sent, SenderInv, Casts, Filled, Metas, Config.Valid;
    SentBound(c, s, log);
  }

  lemma {:induction false} ReceivedTotal(c: Config, s: State, n: nat)
    requires c.Valid() && Inv(c, s) && n <= |s.recvs|
    ensures AllReceived(c, s, n) <= Times(n, RankBound(c))
  {
    hide Received, SenderInv, ReceiverInv, RankBound, Config.Valid, Times;
    TimesNext(n, RankBound(c));
    if n > 0 {
      ReceivedTotal(c, s, n - 1);
      ReceivedBelow(c, s.recvs[n - 1], s.log);
      TimesNext(n - 1, RankBound(c));
    }
  }

  function Times(n: nat, b: nat): nat { n * b }

  lemma TimesNext(n: nat, b: nat)
    ensures Times(n + 1, b) == Times(n, b) + b
  {
    assert (n + 1) * b == n * b + b;
  }

  /** No run is longer than this, whatever the schedule. */
  lemma RunsAreFinite(c: Config, s: State, steps: nat)
    requires c.Valid() && Reach(c, s, steps)
    ensures steps <= Times(c.receivers + 1, RankBound(c))
  {
    hide Reach, Sent, SenderInv, ReceiverInv, RankBound, AllReceived, Config.Valid, Times;
    StepsBelowTotal(c, s, steps);
    SentBelow(c, s.sender, s.log);
    ReceivedTotal(c, s, |s.recvs|);
    TimesNext(c.receivers, RankBound(c));
  }
}
