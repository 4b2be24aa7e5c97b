/** Shared vocabulary: bytes, the failures the Python code raises, and the
    shape of a stream write that may stop half-way through. */
module Common {

  /** One octet of a Python `bytes` value. */
  type Byte = x: int | 0 <= x < 0x100

  datatype Option<+T> = None | Some(value: T)

  /** The exceptions the modelled code raises, one constructor per cause. */
  datatype Error =
    | BadHashLength                   // ValueError("Hash must be 32 bytes")
    | PackRange                       // struct.error: value outside the format's range
    | ShortRead                       // struct.error: fewer bytes than the format needs
    | ScriptTooLong                   // ValueError: pk_script longer than 10000 bytes
    | PrefixTooShort                  // pop_prefix_len16: fewer than 2 bytes
    | PrefixOverrun                   // pop_prefix_len16: declared length exceeds payload
    | BadTxidLength                   // outpoint_to_bytes: txid is not 32 bytes
    | NetworkNotSupported             // gen_hash_for_net: unknown network name
    | ProofDecodeFailed               // the accumulator could not decode a batch proof
    | UDataDecode(cause: Error)       // UData.deserialize re-raises every failure as ValueError
    | CompactDecode(cause: Error)     // UData.from_compact_bytes does the same
    | TargetCountMismatch(targets: nat, stxos: nat)
    | ProveFailed                     // forest.prove_batch raised
    | OutPointCountMismatch(height: int, needed: nat, proven: nat)
    | OutPointMismatch(position: nat)
    | ProofDataMismatch(height: int)

  datatype Result<+T> = Ok(value: T) | Err(error: Error)

  datatype Outcome = Pass | Fail(error: Error)

  /** What a sequence of `w.write(...)` calls leaves behind: the bytes written
      so far and, when an exception stopped the writer, its cause. */
  datatype Written = Written(bytes: seq<Byte>, failure: Option<Error>) {
    predicate Complete() { failure.None? }
  }

  function Emit(bytes: seq<Byte>): Written { Written(bytes, None) }

  function Raise(e: Error): Written { Written([], Some(e)) }

  /** Run `first`, and `second` only if `first` did not raise. */
  function Then(first: Written, second: Written): (w: Written)
    ensures w.Complete() <==> first.Complete() && second.Complete()
    ensures first.Complete() ==> w.bytes == first.bytes + second.bytes
    ensures !first.Complete() ==> w == first
  {
    if first.failure.Some? then first else Written(first.bytes + second.bytes, second.failure)
  }

  lemma ThenAssoc(a: Written, b: Written, c: Written)
    ensures Then(Then(a, b), c) == Then(a, Then(b, c))
  {
    if a.Complete() && b.Complete() {
      assert (a.bytes + b.bytes) + c.bytes == a.bytes + (b.bytes + c.bytes);
    }
  }

  /** The bytes `s` reversed, as Python's `s[::-1]` or `bytes(reversed(s))`. */
  function Reverse<T>(s: seq<T>): (r: seq<T>)
    ensures |r| == |s|
    ensures forall i :: 0 <= i < |s| ==> r[i] == s[|s| - 1 - i]
  {
    if s == [] then [] else Reverse(s[1..]) + [s[0]]
  }

  lemma ReverseReverse<T>(s: seq<T>)
    ensures Reverse(Reverse(s)) == s
  {
    var r := Reverse(Reverse(s));
    assert forall i :: 0 <= i < |s| ==> r[i] == s[i];
  }
}
