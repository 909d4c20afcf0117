/** Packing named tensors into fixed-size byte buckets, as the senders of the weight-transfer
    engines do before they put a bucket on the wire. */
module Buckets {

  newtype byte = x: int | 0 <= x < 256

  /** An element type; only its width matters when bytes are laid out. */
  datatype Dtype = Dtype(name: string, itemsize: nat)

  function Numel(shape: seq<nat>): nat {
    if shape == [] then 1 else shape[0] * Numel(shape[1..])
  }

  /** A named tensor, flattened to bytes. */
  datatype Weight = Weight(name: string, shape: seq<nat>, dtype: Dtype, data: seq<byte>) {
    /** The bytes of a tensor are its element count times the element width (`weight.nbytes`). */
    predicate Valid() { |data| == dtype.itemsize * Numel(shape) }
  }

  /** One entry of `bucket_meta`. */
  datatype Meta = Meta(name: string, shape: seq<nat>, dtype: Dtype, offset: nat) {
    function Size(): nat { dtype.itemsize * Numel(shape) }
  }

  /** What one send puts on the wire: the used prefix of the buffer and its metadata.
      `bucket_meta` is a Python dict: it keeps insertion order, one entry per name. */
  datatype Bucket = Bucket(data: seq<byte>, meta: seq<Meta>, last: bool)

  // ---------- filling ----------

  /** `bucket_meta[name] = m`: a known name keeps its position and takes the new value. */
  function MetaPut(meta: seq<Meta>, m: Meta): seq<Meta> {
    if meta == [] then [m]
    else if meta[0].name == m.name then [m] + meta[1..]
    else [meta[0]] + MetaPut(meta[1..], m)
  }

  function Entry(w: Weight, offset: nat): Meta {
    Meta(w.name, w.shape, w.dtype, offset)
  }

  /** The buckets sent, and whether the transfer ran to its end: a tensor larger than a whole
      bucket stops it by an assertion, after the bucket under construction was flushed. */
  datatype Packing = Packing(sent: seq<Bucket>, ok: bool)

  function Prepend(b: seq<Bucket>, p: Packing): Packing { Packing(b + p.sent, p.ok) }

  /** The rest of the fill loop, from a buffer holding `data` described by `meta`. */
  function PackFrom(ws: seq<Weight>, size: nat, data: seq<byte>, meta: seq<Meta>): Packing {
    if ws == [] then Packing([Bucket(data, meta, true)], true)
    else
      var w := ws[0];
      if |data| + |w.data| <= size then
        PackFrom(ws[1..], size, data + w.data, MetaPut(meta, Entry(w, |data|)))
      else if |w.data| > size then Packing([Bucket(data, meta, false)], false)
      else Prepend([Bucket(data, meta, false)], PackFrom(ws[1..], size, w.data, [Entry(w, 0)]))
  }

  function Pack(ws: seq<Weight>, size: nat): Packing { PackFrom(ws, size, [], []) }

  /** `current[offset : offset + nbytes].copy_(weight)`, where `current` starts at `lo`. */
  method CopyInto(buf: array<byte>, lo: nat, offset: nat, data: seq<byte>)
    requires lo + offset + |data| <= buf.Length
    modifies buf
    ensures buf[lo..lo + offset + |data|] == old(buf[lo..lo + offset]) + data
    ensures buf[..lo] == old(buf[..lo])
    ensures buf[lo + offset + |data|..] == old(buf[lo + offset + |data|..])
  {
    forall k | 0 <= k < |data| { buf[lo + offset + k] := data[k]; }
  }

  /** The Mooncake fill loop over one array holding both buffers, `buf[..size]` and `buf[size..]`;
      `lo` is where the current one starts. Each send is recorded as the bytes announced by it. */
  method FillTwoHalves(weights: seq<Weight>, size: nat, buf: array<byte>)
    returns (sent: seq<Bucket>, ok: bool)
    requires buf.Length == 2 * size
    modifies buf
    ensures Packing(sent, ok) == Pack(weights, size)
  {
    sent := [];
    var lo, offset := 0, 0;
    var meta: seq<Meta> := [];
    var i := 0;
    PackStart(weights, size);
    hide *;
    while i < |weights|
      invariant 0 <= i <= |weights| && (lo == 0 || lo == size)
      invariant 0 <= offset <= size
      invariant Sofar(sent, weights, i, size, buf[lo..lo + offset], meta) == Pack(weights, size)
    {
      var w := weights[i];
      ghost var data := buf[lo..lo + offset];
      PackTurn(weights, i, size, data, meta, sent);
      if offset + |w.data| > size {
        sent := sent + [Bucket(buf[lo..lo + offset], meta, false)];
        lo, meta, offset := size - lo, [], 0;
        if |w.data| > size {
          return sent, false;
        }
        data := [];
      }
      meta := MetaPut(meta, Entry(w, offset));
      CopyInto(buf, lo, offset, w.data);
      offset := offset + |w.data|;
      i := i + 1;
    }
    PackEnd(weights, size, buf[lo..lo + offset], meta, sent);
    sent, ok := sent + [Bucket(buf[lo..lo + offset], meta, true)], true;
  }

  /** The NCCL fill loop: two separate buffers that change roles at every flush. */
  method FillAndSwap(weights: seq<Weight>, size: nat, sendBuf: array<byte>, recvBuf: array<byte>)
    returns (sent: seq<Bucket>, ok: bool)
    requires sendBuf.Length == recvBuf.Length == size && sendBuf != recvBuf
    modifies sendBuf, recvBuf
    ensures Packing(sent, ok) == Pack(weights, size)
  {
    sent := [];
    var fill, other := sendBuf, recvBuf;
    var offset := 0;
    var meta: seq<Meta> := [];
    PackStart(weights, size);
    hide *;
    for i := 0 to |weights|
      invariant (fill == sendBuf && other == recvBuf) || (fill == recvBuf && other == sendBuf)
      invariant 0 <= offset <= size
      invariant Sofar(sent, weights, i, size, fill[0..offset], meta) == Pack(weights, size)
    {
      var w := weights[i];
      ghost var data := fill[0..offset];
      PackTurn(weights, i, size, data, meta, sent);
      if offset + |w.data| > size {
        sent := sent + [Bucket(fill[0..offset], meta, false)];
        fill, other := other, fill;
        meta, offset := [], 0;
        if |w.data| > size {
          return sent, false;
        }
        data := [];
      }
      meta := MetaPut(meta, Entry(w, offset));
      CopyInto(fill, 0, offset, w.data);
      offset := offset + |w.data|;
    }
    PackEnd(weights, size, fill[0..offset], meta, sent);
    sent, ok := sent + [Bucket(fill[0..offset], meta, true)], true;
  }

  /** The packing that results when `sent` was sent and the loop goes on at weight i. */
  function Sofar(sent: seq<Bucket>, ws: seq<Weight>, i: nat, size: nat, data: seq<byte>, meta: seq<Meta>): Packing
    requires i <= |ws|
  {
    Prepend(sent, PackFrom(ws[i..], size, data, meta))
  }

  lemma PackStart(ws: seq<Weight>, size: nat)
    ensures Sofar([], ws, 0, size, [], []) == Pack(ws, size)
  {
    assert ws[0..] == ws;
    hide PackFrom;
    var p := Pack(ws, size);
    assert [] + p.sent == p.sent;
  }

  lemma PackEnd(ws: seq<Weight>, size: nat, data: seq<byte>, meta: seq<Meta>, sent: seq<Bucket>)
    ensures Sofar(sent, ws, |ws|, size, data, meta) == Packing(sent + [Bucket(data, meta, true)], true)
  {
  }

  /** One turn of either loop, as seen by the packing function. */
  lemma PackTurn(ws: seq<Weight>, i: nat, size: nat, data: seq<byte>, meta: seq<Meta>, sent: seq<Bucket>)
    requires i < |ws|
    ensures var w, b := ws[i], Bucket(data, meta, false);
            Sofar(sent, ws, i, size, data, meta) ==
            if |data| + |w.data| <= size then Sofar(sent, ws, i + 1, size, data + w.data, MetaPut(meta, Entry(w, |data|)))
            else if |w.data| > size then Packing(sent + [b], false)
            else Sofar(sent + [b], ws, i + 1, size, [] + w.data, MetaPut([], Entry(w, 0)))
  {
    var w, b := ws[i], Bucket(data, meta, false);
    assert ws[i..][1..] == ws[i+1..];
    assert [] + w.data == w.data;
    var rest := PackFrom(ws[i+1..], size, w.data, [Entry(w, 0)]).sent;
    assert sent + ([b] + rest) == sent + [b] + rest;
  }
}
