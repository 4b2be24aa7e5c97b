/** btcacc/udata.py: `UData`, the data a block carries so that a compact
    node can check it without a UTXO set (the accumulator proof, the spent
    outputs and their time-to-live values), its two byte encodings, and the
    construction from a forest. */
module Udata {
  import opened Common
  import opened Bytes
  import opened Hashes
  import Btcacc

  /** The accumulator library's batch proof: the leaf positions it proves
      and the hashes of the proof. */
  datatype BatchProof = BatchProof(targets: seq<int>, proof: seq<Hash>)

  /** `BatchProof()` */
  const EmptyProof: BatchProof := BatchProof([], [])

  /** `BatchProof.serialize` and `BatchProof.deserialize` belong to the
      accumulator library, which is not part of this model; they are
      parameters. `decode` returns the proof and the unread rest. */
  datatype ProofCodec = ProofCodec(
    encode: BatchProof -> seq<Byte>,
    decode: seq<Byte> -> Result<(BatchProof, seq<Byte>)>)

  /** The property this model assumes of the library's codec: a proof
      written and read back is the same proof, and reading stops at its end. */
  ghost predicate Sound(c: ProofCodec)
  {
    forall p: BatchProof, rest: seq<Byte> :: c.decode(c.encode(p) + rest) == Ok((p, rest))
  }

  datatype UData = UData(height: int, accProof: BatchProof, stxos: seq<Btcacc.LeafData>, txoTtls: seq<int>)

  /** `UData()` */
  const DefaultUData: UData := UData(0, EmptyProof, [], [])

  // ---- proof_sanity ----

  /** `proof_sanity` as written: a count mismatch is only printed, and the
      result is True whatever the data. */
  function ProofSanityAsWritten(u: UData, nl: int, h: int): (ok: bool)
    ensures ok
  {
    true
  }

  /** A UData whose proof has one target but which carries no spent output
      passes the check as written. */
  lemma ProofSanityAcceptsMismatch()
    ensures var u := DefaultUData.(accProof := BatchProof([0], []));
      |u.accProof.targets| != |u.stxos| && ProofSanityAsWritten(u, 1, 1)
  {
  }

  /** `proof_sanity` as its comment describes it: one spent output per
      proven target. Whatever it refuses, the check as written accepts. */
  function ProofSanity(u: UData): (ok: bool)
    ensures !ok ==> |u.accProof.targets| != |u.stxos| && ProofSanityAsWritten(u, 0, 0)
    ensures u.stxos == [] && u.accProof.targets != [] ==> !ok
  {
    |u.accProof.targets| == |u.stxos|
  }

  // ---- writing and reading a list of items ----

  /** `for x in xs: write(x)`, stopping at the first raise. */
  function WriteAll<T>(xs: seq<T>, write: T -> Written): Written
  {
    if xs == [] then Emit([]) else Then(WriteAll(xs[..|xs| - 1], write), write(xs[|xs| - 1]))
  }

  /** `sum(size(x) for x in xs)` */
  function TotalSize<T>(xs: seq<T>, size: T -> nat): nat
  {
    if xs == [] then 0 else TotalSize(xs[..|xs| - 1], size) + size(xs[|xs| - 1])
  }

  /** `n` reads with `read`, in order; the first failure stops the loop. */
  function ReadAll<T>(n: nat, r: seq<Byte>, read: seq<Byte> -> Result<(T, seq<Byte>)>): Result<(seq<T>, seq<Byte>)>
  {
    if n == 0 then Ok(([], r))
    else
      match ReadAll(n - 1, r, read)
      case Err(e) => Err(e)
      case Ok((xs, r1)) =>
        match read(r1)
        case Err(e) => Err(e)
        case Ok((x, r2)) => Ok((xs + [x], r2))
  }

  /** Writing items that each write completely writes them all, one after
      the other. */
  lemma {:induction false} WriteAllLength<T>(xs: seq<T>, write: T -> Written, size: T -> nat)
    requires forall i :: 0 <= i < |xs| ==> write(xs[i]).Complete() && |write(xs[i]).bytes| == size(xs[i])
    ensures WriteAll(xs, write).Complete() && |WriteAll(xs, write).bytes| == TotalSize(xs, size)
  {
    if xs != [] {
      WriteAllLength(xs[..|xs| - 1], write, size);
    }
  }

  lemma {:induction false} TotalSizeConstant<T>(xs: seq<T>, size: T -> nat, k: nat)
    requires forall i :: 0 <= i < |xs| ==> size(xs[i]) == k
    ensures TotalSize(xs, size) == k * |xs|
  {
    if xs != [] {
      TotalSizeConstant(xs[..|xs| - 1], size, k);
    }
  }

  lemma {:induction false} TotalSizeAtLeast(xs: seq<Btcacc.LeafData>)
    ensures TotalSize(xs, Btcacc.SerializeSize) >= (Btcacc.FixedSize + 2) * |xs|
  {
    if xs != [] {
      TotalSizeAtLeast(xs[..|xs| - 1]);
    }
  }

  /** Reading back, item by item, what `WriteAll` wrote gives the same items
      when each item reads back as itself. */
  lemma {:induction false} ReadAllWriteAll<T>(xs: seq<T>, write: T -> Written,
                                             read: seq<Byte> -> Result<(T, seq<Byte>)>, rest: seq<Byte>)
    requires forall i :: 0 <= i < |xs| ==> write(xs[i]).Complete()
    requires forall i, tail :: 0 <= i < |xs| ==> read(write(xs[i]).bytes + tail) == Ok((xs[i], tail))
    ensures WriteAll(xs, write).Complete()
    ensures ReadAll(|xs|, WriteAll(xs, write).bytes + rest, read) == Ok((xs, rest))
  {
    if xs != [] {
      var n := |xs| - 1;
      var pre, last := xs[..n], xs[n];
      var tail := write(last).bytes + rest;
      assert forall i :: 0 <= i < n ==> pre[i] == xs[i];
      ReadAllWriteAll(pre, write, read, tail);
      assert WriteAll(xs, write) == Then(WriteAll(pre, write), write(last));
      assert WriteAll(xs, write).bytes + rest == WriteAll(pre, write).bytes + tail;
      assert ReadAll(n, WriteAll(pre, write).bytes + tail, read) == Ok((pre, tail));
      assert read(tail) == Ok((last, rest));
      assert pre + [last] == xs;
    } else {
      assert WriteAll(xs, write).bytes + rest == rest;
    }
  }

  lemma {:induction false} ReadAllStuck<T>(i: nat, m: nat, r: seq<Byte>, read: seq<Byte> -> Result<(T, seq<Byte>)>)
    requires i <= m && ReadAll(i, r, read).Err?
    ensures ReadAll(m, r, read) == ReadAll(i, r, read)
    decreases m
  {
    if i < m {
      ReadAllStuck(i, m - 1, r, read);
    }
  }

  /** A successful read of `n` items has `n` items. */
  lemma {:induction false} ReadAllCount<T>(n: nat, r: seq<Byte>, read: seq<Byte> -> Result<(T, seq<Byte>)>)
    requires ReadAll(n, r, read).Ok?
    ensures |ReadAll(n, r, read).value.0| == n
  {
    if n > 0 {
      ReadAllCount(n - 1, r, read);
    }
  }

  /** The write loops of `serialize` and `to_compact_bytes`: each item
      written after what `head` holds. */
  method WriteEach<T>(head: Written, xs: seq<T>, write: T -> Written) returns (w: Written)
    ensures w == Then(head, WriteAll(xs, write))
  {
    w := head;
    for i := 0 to |xs|
      invariant w == Then(head, WriteAll(xs[..i], write))
    {
      assert xs[..i + 1][..i] == xs[..i];
      ThenAssoc(head, WriteAll(xs[..i], write), write(xs[i]));
      w := Then(w, write(xs[i]));
    }
    assert xs[..|xs|] == xs;
  }

  /** The read loops of `deserialize` and `from_compact_bytes`. */
  method ReadEach<T>(n: nat, r: seq<Byte>, read: seq<Byte> -> Result<(T, seq<Byte>)>)
    returns (res: Result<(seq<T>, seq<Byte>)>)
    ensures res == ReadAll(n, r, read)
  {
    var xs: seq<T> := [];
    var cur := r;
    for i := 0 to n
      invariant ReadAll(i, r, read) == Ok((xs, cur))
    {
      var x := read(cur);
      if x.Err? {
        ReadAllStuck(i + 1, n, r, read);
        return Err(x.error);
      }
      xs := xs + [x.value.0];
      cur := x.value.1;
    }
    return Ok((xs, cur));
  }

  /** `LeafData().deserialize(r)` as one read: the record and the rest, or
      the exception. */
  function ReadLeaf(r: seq<Byte>): Result<(Btcacc.LeafData, seq<Byte>)>
  {
    var d := Btcacc.Deserialize(Btcacc.DefaultLeafData, r);
    if d.failure.Some? then Err(d.failure.value) else Ok((d.state, d.rest))
  }

  // ---- serialize ----

  /** What `serialize` writes: height, TTL count, TTLs, proof, spent outputs. */
  function Encoding(u: UData, c: ProofCodec): Written
  {
    Then(Then(Then(Then(PackI32(u.height), PackU32(|u.txoTtls|)), WriteAll(u.txoTtls, PackI32)),
      Emit(c.encode(u.accProof))), WriteAll(u.stxos, Btcacc.Serialize))
  }

  /** `serialize(w)`; a raise stops the writer, which `Then` records. */
  method Serialize(u: UData, c: ProofCodec) returns (w: Written)
    ensures w == Encoding(u, c)
  {
    w := Then(PackI32(u.height), PackU32(|u.txoTtls|));
    w := WriteEach(w, u.txoTtls, PackI32);
    w := Then(w, Emit(c.encode(u.accProof)));
    w := WriteEach(w, u.stxos, Btcacc.Serialize);
  }

  /** `serialize_size()`: 8 bytes of height and count, 4 per TTL, the proof
      and the records; every record adds at least its 82 fixed bytes. */
  function SerializeSize(u: UData, c: ProofCodec): (n: nat)
    ensures n >= 8 + 4 * |u.txoTtls| + |c.encode(u.accProof)| + (Btcacc.FixedSize + 2) * |u.stxos|
  {
    TotalSizeAtLeast(u.stxos);
    8 + 4 * |u.txoTtls| + |c.encode(u.accProof)| + TotalSize(u.stxos, Btcacc.SerializeSize)
  }

  /** Every field within what `struct` and `LeafData.serialize` accept. */
  predicate Encodable(u: UData)
  {
    && InI32(u.height)
    && InU32(|u.txoTtls|)
    && (forall i :: 0 <= i < |u.txoTtls| ==> InI32(u.txoTtls[i]))
    && (forall i :: 0 <= i < |u.stxos| ==> Btcacc.Encodable(u.stxos[i]))
  }

  lemma TtlsWritten(ttls: seq<int>, rest: seq<Byte>)
    requires forall i :: 0 <= i < |ttls| ==> InI32(ttls[i])
    ensures WriteAll(ttls, PackI32).Complete() && |WriteAll(ttls, PackI32).bytes| == 4 * |ttls|
    ensures ReadAll(|ttls|, WriteAll(ttls, PackI32).bytes + rest, UnpackI32) == Ok((ttls, rest))
  {
    var four: int -> nat := _ => 4;
    WriteAllLength(ttls, PackI32, four);
    TotalSizeConstant(ttls, four, 4);
    forall i, tail | 0 <= i < |ttls| ensures UnpackI32(PackI32(ttls[i]).bytes + tail) == Ok((ttls[i], tail)) {
      I32RoundTrip(ttls[i], tail);
    }
    ReadAllWriteAll(ttls, PackI32, UnpackI32, rest);
  }

  lemma LeavesWritten(lds: seq<Btcacc.LeafData>, rest: seq<Byte>)
    requires forall i :: 0 <= i < |lds| ==> Btcacc.Encodable(lds[i])
    ensures WriteAll(lds, Btcacc.Serialize).Complete()
    ensures |WriteAll(lds, Btcacc.Serialize).bytes| == TotalSize(lds, Btcacc.SerializeSize)
    ensures ReadAll(|lds|, WriteAll(lds, Btcacc.Serialize).bytes + rest, ReadLeaf) == Ok((lds, rest))
  {
    forall i | 0 <= i < |lds|
      ensures Btcacc.Serialize(lds[i]).Complete() && |Btcacc.Serialize(lds[i]).bytes| == Btcacc.SerializeSize(lds[i])
    {
      Btcacc.SerializedLength(lds[i]);
    }
    WriteAllLength(lds, Btcacc.Serialize, Btcacc.SerializeSize);
    forall i, tail | 0 <= i < |lds| ensures ReadLeaf(Btcacc.Serialize(lds[i]).bytes + tail) == Ok((lds[i], tail)) {
      Btcacc.RoundTrip(lds[i], Btcacc.DefaultLeafData, tail);
    }
    ReadAllWriteAll(lds, Btcacc.Serialize, ReadLeaf, rest);
  }

  /** `serialize` completes on an encodable UData and writes exactly
      `serialize_size()` bytes. */
  lemma SerializedLength(u: UData, c: ProofCodec)
    requires Encodable(u)
    ensures Encoding(u, c).Complete() && |Encoding(u, c).bytes| == SerializeSize(u, c)
  {
    TtlsWritten(u.txoTtls, []);
    LeavesWritten(u.stxos, []);
    EncodingLayout(u, c, []);
  }

  /** The five parts of `serialize`'s output, one after the other. */
  lemma EncodingLayout(u: UData, c: ProofCodec, rest: seq<Byte>)
    requires Encodable(u)
    ensures Encoding(u, c).Complete()
    ensures Encoding(u, c).bytes + rest == EncI32(u.height) + (EncU32(|u.txoTtls|) + (WriteAll(u.txoTtls, PackI32).bytes
      + (c.encode(u.accProof) + (WriteAll(u.stxos, Btcacc.Serialize).bytes + rest))))
  {
    TtlsWritten(u.txoTtls, []);
    LeavesWritten(u.stxos, []);
    var eh, en, et := EncI32(u.height), EncU32(|u.txoTtls|), WriteAll(u.txoTtls, PackI32).bytes;
    var ep, el := c.encode(u.accProof), WriteAll(u.stxos, Btcacc.Serialize).bytes;
    var w1 := Then(PackI32(u.height), PackU32(|u.txoTtls|));
    var w2 := Then(w1, WriteAll(u.txoTtls, PackI32));
    var w3 := Then(w2, Emit(ep));
    assert w1.Complete() && w1.bytes == eh + en;
    assert w2.Complete() && w2.bytes == eh + en + et;
    assert w3.Complete() && w3.bytes == eh + en + et + ep;
    assert Encoding(u, c).bytes == eh + en + et + ep + el;
    Regroup5(eh, en, et, ep, el, rest);
  }

  lemma Regroup4(a: seq<Byte>, b: seq<Byte>, c: seq<Byte>, d: seq<Byte>, rest: seq<Byte>)
    ensures a + b + c + d + rest == a + (b + (c + (d + rest)))
  {
  }

  lemma Regroup5(a: seq<Byte>, b: seq<Byte>, c: seq<Byte>, d: seq<Byte>, e: seq<Byte>, rest: seq<Byte>)
    ensures a + b + c + d + e + rest == a + (b + (c + (d + (e + rest))))
  {
  }

  // ---- deserialize ----

  /** What `deserialize` reads: height, TTL count, TTLs, proof, then one
      record per proof target. Every failure becomes a ValueError. */
  function Decoding(r: seq<Byte>, c: ProofCodec): Result<(UData, seq<Byte>)>
  {
    match UnpackI32(r)
    case Err(e) => Err(UDataDecode(e))
    case Ok((height, r1)) =>
      match UnpackU32(r1)
      case Err(e) => Err(UDataDecode(e))
      case Ok((numTtls, r2)) =>
        match ReadAll(numTtls, r2, UnpackI32)
        case Err(e) => Err(UDataDecode(e))
        case Ok((ttls, r3)) =>
          match c.decode(r3)
          case Err(e) => Err(UDataDecode(e))
          case Ok((proof, r4)) =>
            match ReadAll(|proof.targets|, r4, ReadLeaf)
            case Err(e) => Err(UDataDecode(e))
            case Ok((stxos, r5)) => Ok((UData(height, proof, stxos, ttls), r5))
  }

  /** `deserialize(r)`: on success every field of `self` is overwritten, so
      the result is the new UData and the unread rest of the stream. */
  method Deserialize(r: seq<Byte>, c: ProofCodec) returns (res: Result<(UData, seq<Byte>)>)
    ensures res == Decoding(r, c)
  {
    var h := UnpackI32(r);
    if h.Err? {
      return Err(UDataDecode(h.error));
    }
    var (height, r1) := h.value;
    var n := UnpackU32(r1);
    if n.Err? {
      return Err(UDataDecode(n.error));
    }
    var (numTtls, r2) := n.value;
    var ttls := ReadEach(numTtls, r2, UnpackI32);
    if ttls.Err? {
      return Err(UDataDecode(ttls.error));
    }
    var (txoTtls, r3) := ttls.value;
    var p := c.decode(r3);
    if p.Err? {
      return Err(UDataDecode(p.error));
    }
    var (accProof, r4) := p.value;
    var lds := ReadEach(|accProof.targets|, r4, ReadLeaf);
    if lds.Err? {
      return Err(UDataDecode(lds.error));
    }
    var (stxos, r5) := lds.value;
    return Ok((UData(height, accProof, stxos, txoTtls), r5));
  }

  /** Round trip: with a sound proof codec, reading back what `serialize`
      wrote for an encodable UData with one record per target gives the same
      UData and leaves the rest of the stream unread. */
  lemma RoundTrip(u: UData, c: ProofCodec, rest: seq<Byte>)
    requires Sound(c) && Encodable(u) && ProofSanity(u)
    ensures Encoding(u, c).Complete()
    ensures Decoding(Encoding(u, c).bytes + rest, c) == Ok((u, rest))
  {
    var et, ep := WriteAll(u.txoTtls, PackI32).bytes, c.encode(u.accProof);
    var el := WriteAll(u.stxos, Btcacc.Serialize).bytes;
    TtlsWritten(u.txoTtls, ep + (el + rest));
    LeavesWritten(u.stxos, rest);
    EncodingLayout(u, c, rest);
    I32RoundTrip(u.height, EncU32(|u.txoTtls|) + (et + (ep + (el + rest))));
    U32RoundTrip(|u.txoTtls|, et + (ep + (el + rest)));
    assert c.decode(ep + (el + rest)) == Ok((u.accProof, el + rest));
    assert ReadAll(|u.accProof.targets|, el + rest, ReadLeaf) == Ok((u.stxos, rest));
    assert UData(u.height, u.accProof, u.stxos, u.txoTtls) == u;
  }

  /** A UData read by `deserialize` always passes the intended sanity
      check: it reads exactly one record per target. */
  lemma DecodedIsSane(r: seq<Byte>, c: ProofCodec)
    requires Decoding(r, c).Ok?
    ensures ProofSanity(Decoding(r, c).value.0)
  {
    var r1 := UnpackI32(r).value.1;
    var (numTtls, r2) := UnpackU32(r1).value;
    var r3 := ReadAll(numTtls, r2, UnpackI32).value.1;
    var (proof, r4) := c.decode(r3).value;
    ReadAllCount(|proof.targets|, r4, ReadLeaf);
  }

  // ---- to_compact_bytes / from_compact_bytes ----

  /** What `to_compact_bytes` writes: height, record count, records, proof.
      The TTLs are not written. */
  function CompactEncoding(u: UData, c: ProofCodec): Written
  {
    Then(Then(Then(PackI32(u.height), PackU32(|u.stxos|)), WriteAll(u.stxos, Btcacc.Serialize)), Emit(c.encode(u.accProof)))
  }

  /** `to_compact_bytes()`: the buffer's bytes, or the exception raised
      while filling it. */
  method ToCompactBytes(u: UData, c: ProofCodec) returns (res: Result<seq<Byte>>)
    ensures res.Ok? <==> CompactEncoding(u, c).Complete()
    ensures res.Ok? ==> res.value == CompactEncoding(u, c).bytes
    ensures res.Err? ==> Some(res.error) == CompactEncoding(u, c).failure
  {
    var buf := Then(PackI32(u.height), PackU32(|u.stxos|));
    buf := WriteEach(buf, u.stxos, Btcacc.Serialize);
    buf := Then(buf, Emit(c.encode(u.accProof)));
    if buf.failure.Some? {
      return Err(buf.failure.value);
    }
    return Ok(buf.bytes);
  }

  /** What `from_compact_bytes` reads: height, record count, the records,
      the proof, then the check that the proof has one target per record;
      bytes after the proof are ignored and the TTLs stay empty. */
  function CompactDecoding(b: seq<Byte>, c: ProofCodec): Result<UData>
  {
    match UnpackI32(b)
    case Err(e) => Err(CompactDecode(e))
    case Ok((height, r1)) =>
      match UnpackU32(r1)
      case Err(e) => Err(CompactDecode(e))
      case Ok((numStxos, r2)) =>
        match ReadAll(numStxos, r2, ReadLeaf)
        case Err(e) => Err(CompactDecode(e))
        case Ok((stxos, r3)) =>
          match c.decode(r3)
          case Err(e) => Err(CompactDecode(e))
          case Ok((proof, _)) =>
            if |proof.targets| != numStxos then Err(CompactDecode(TargetCountMismatch(|proof.targets|, numStxos)))
            else Ok(UData(height, proof, stxos, []))
  }

  /** `UData.from_compact_bytes(b)` */
  method FromCompactBytes(b: seq<Byte>, c: ProofCodec) returns (res: Result<UData>)
    ensures res == CompactDecoding(b, c)
  {
    var h := UnpackI32(b);
    if h.Err? {
      return Err(CompactDecode(h.error));
    }
    var (height, r1) := h.value;
    var n := UnpackU32(r1);
    if n.Err? {
      return Err(CompactDecode(n.error));
    }
    var (numStxos, r2) := n.value;
    var lds := ReadEach(numStxos, r2, ReadLeaf);
    if lds.Err? {
      return Err(CompactDecode(lds.error));
    }
    var (stxos, r3) := lds.value;
    var p := c.decode(r3);
    if p.Err? {
      return Err(CompactDecode(p.error));
    }
    var accProof := p.value.0;
    if |accProof.targets| != numStxos {
      return Err(CompactDecode(TargetCountMismatch(|accProof.targets|, numStxos)));
    }
    return Ok(UData(height, accProof, stxos, []));
  }

  /** The four parts of `to_compact_bytes`'s output, one after the other. */
  lemma CompactLayout(u: UData, c: ProofCodec, rest: seq<Byte>)
    requires Encodable(u) && InU32(|u.stxos|)
    ensures CompactEncoding(u, c).Complete()
    ensures CompactEncoding(u, c).bytes + rest == EncI32(u.height) + (EncU32(|u.stxos|)
      + (WriteAll(u.stxos, Btcacc.Serialize).bytes + (c.encode(u.accProof) + rest)))
  {
    LeavesWritten(u.stxos, []);
    var eh, en := EncI32(u.height), EncU32(|u.stxos|);
    var ep, el := c.encode(u.accProof), WriteAll(u.stxos, Btcacc.Serialize).bytes;
    var w1 := Then(PackI32(u.height), PackU32(|u.stxos|));
    var w2 := Then(w1, WriteAll(u.stxos, Btcacc.Serialize));
    assert w1.Complete() && w1.bytes == eh + en;
    assert w2.Complete() && w2.bytes == eh + en + el;
    assert CompactEncoding(u, c).bytes == eh + en + el + ep;
    Regroup4(eh, en, el, ep, rest);
  }

  /** The compact encoding read back: every field but the TTLs, which come
      back empty, when the proof has one target per record; a refusal naming
      both counts otherwise. Whatever follows the proof is ignored. */
  lemma CompactRoundTrip(u: UData, c: ProofCodec, rest: seq<Byte>)
    requires Sound(c) && Encodable(u) && InU32(|u.stxos|)
    ensures CompactEncoding(u, c).Complete()
    ensures CompactDecoding(CompactEncoding(u, c).bytes + rest, c) ==
      if ProofSanity(u) then Ok(u.(txoTtls := []))
      else Err(CompactDecode(TargetCountMismatch(|u.accProof.targets|, |u.stxos|)))
  {
    var ep := c.encode(u.accProof);
    var el := WriteAll(u.stxos, Btcacc.Serialize).bytes;
    LeavesWritten(u.stxos, ep + rest);
    CompactLayout(u, c, rest);
    I32RoundTrip(u.height, EncU32(|u.stxos|) + (el + (ep + rest)));
    U32RoundTrip(|u.stxos|, el + (ep + rest));
    assert c.decode(ep + rest) == Ok((u.accProof, rest));
  }

  // ---- gen_udata ----

  /** `[ld.leaf_hash() for ld in lds]`: the first record that cannot be
      serialized raises. */
  function LeafHashes(lds: seq<Btcacc.LeafData>, digest: seq<Byte> -> Hash): (r: Result<seq<Hash>>)
    ensures r.Ok? <==> forall i :: 0 <= i < |lds| ==> Btcacc.FieldsInRange(lds[i])
    ensures r.Ok? ==>
      && |r.value| == |lds|
      && forall i :: 0 <= i < |lds| ==> r.value[i] == Btcacc.LeafHash(lds[i], digest).value
  {
    if lds == [] then Ok([])
    else
      assert forall i :: 1 <= i < |lds| ==> lds[i] == lds[1..][i - 1];
      match Btcacc.LeafHash(lds[0], digest)
      case Err(e) => Err(e)
      case Ok(h) =>
        match LeafHashes(lds[1..], digest)
        case Err(e) => Err(e)
        case Ok(hs) => Ok([h] + hs)
  }

  /** `gen_udata`: hashes the spent records, asks the forest to prove them
      (`prove_batch` is a parameter), and insists on one target per record. */
  function GenUData(delLeaves: seq<Btcacc.LeafData>, proveBatch: seq<Hash> -> Result<BatchProof>,
                    height: int, digest: seq<Byte> -> Hash): (r: Result<UData>)
    ensures r.Ok? <==>
      && (forall i :: 0 <= i < |delLeaves| ==> Btcacc.FieldsInRange(delLeaves[i]))
      && proveBatch(LeafHashes(delLeaves, digest).value).Ok?
      && |proveBatch(LeafHashes(delLeaves, digest).value).value.targets| == |delLeaves|
    ensures r.Ok? ==>
      && r.value == UData(height, proveBatch(LeafHashes(delLeaves, digest).value).value, delLeaves, [])
      && ProofSanity(r.value)
  {
    match LeafHashes(delLeaves, digest)
    case Err(e) => Err(e)
    case Ok(delHashes) =>
      match proveBatch(delHashes)
      case Err(_) => Err(ProveFailed)
      case Ok(proof) =>
        if |proof.targets| != |delLeaves| then Err(TargetCountMismatch(|proof.targets|, |delLeaves|))
        else Ok(UData(height, proof, delLeaves, []))
  }
}
