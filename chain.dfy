/** The parts of btcd's `OutPoint`, `TxOut`, `MsgTx` and `Block` that the
    modelled code reads, and the block-wide numbering of inputs and outputs
    that `dedupe_block`, `block_to_del_ops` and `block_to_add_leaves` share. */
module Chain {
  import opened Common
  import opened Hashes

  datatype OutPoint = OutPoint(hash: Hash, index: int)

  datatype TxOut = TxOut(value: int, pkScript: seq<Byte>)

  /** A transaction: its id (`tx.hash()`), the previous outpoint of each of
      its inputs in order, and its outputs in order. */
  datatype Tx = Tx(txid: Hash, inputs: seq<OutPoint>, outputs: seq<TxOut>)

  /** Transaction 0 is the coinbase. */
  datatype Block = Block(txs: seq<Tx>)

  /** One output in block order, with the outpoint it creates and the
      position of its transaction in the block. */
  datatype OutputRef = OutputRef(op: OutPoint, out: TxOut, txPos: nat)

  /** The previous outpoints of every input of `txs`, in block order; the
      position in this sequence is the input's number in the block. */
  function AllInputs(txs: seq<Tx>): seq<OutPoint>
  {
    if txs == [] then [] else AllInputs(txs[..|txs| - 1]) + txs[|txs| - 1].inputs
  }

  /** The outputs of `tx`, the transaction at position `t`. */
  function OutputsOf(tx: Tx, t: nat): (s: seq<OutputRef>)
    ensures |s| == |tx.outputs|
    ensures forall i :: 0 <= i < |s| ==> s[i] == OutputRef(OutPoint(tx.txid, i), tx.outputs[i], t)
  {
    seq(|tx.outputs|, i requires 0 <= i < |tx.outputs| => OutputRef(OutPoint(tx.txid, i), tx.outputs[i], t))
  }

  /** Every output of `txs` in block order; the position in this sequence is
      the output's number in the block (`txonum`). */
  function AllOutputs(txs: seq<Tx>): seq<OutputRef>
  {
    if txs == [] then [] else AllOutputs(txs[..|txs| - 1]) + OutputsOf(txs[|txs| - 1], |txs| - 1)
  }

  lemma AllInputsStep(txs: seq<Tx>, t: nat)
    requires t < |txs|
    ensures AllInputs(txs[..t + 1]) == AllInputs(txs[..t]) + txs[t].inputs
  {
    assert txs[..t + 1][..t] == txs[..t];
  }

  lemma AllOutputsStep(txs: seq<Tx>, t: nat)
    requires t < |txs|
    ensures AllOutputs(txs[..t + 1]) == AllOutputs(txs[..t]) + OutputsOf(txs[t], t)
  {
    assert txs[..t + 1][..t] == txs[..t];
  }

  lemma {:induction false} AllInputsPrefix(txs: seq<Tx>, t: nat)
    requires t <= |txs|
    ensures AllInputs(txs[..t]) <= AllInputs(txs)
    decreases |txs|
  {
    if t < |txs| {
      var pre := txs[..|txs| - 1];
      assert pre[..t] == txs[..t];
      AllInputsPrefix(pre, t);
    } else {
      assert txs[..t] == txs;
    }
  }

  lemma {:induction false} AllOutputsPrefix(txs: seq<Tx>, t: nat)
    requires t <= |txs|
    ensures AllOutputs(txs[..t]) <= AllOutputs(txs)
    decreases |txs|
  {
    if t < |txs| {
      var pre := txs[..|txs| - 1];
      assert pre[..t] == txs[..t];
      AllOutputsPrefix(pre, t);
    } else {
      assert txs[..t] == txs;
    }
  }

  /** Where output `i` of transaction `t` sits in the block-wide numbering. */
  lemma OutputAt(txs: seq<Tx>, t: nat, i: nat)
    requires t < |txs| && i < |txs[t].outputs|
    ensures |AllOutputs(txs[..t])| + i < |AllOutputs(txs)|
    ensures AllOutputs(txs)[|AllOutputs(txs[..t])| + i] == OutputRef(OutPoint(txs[t].txid, i), txs[t].outputs[i], t)
  {
    AllOutputsStep(txs, t);
    AllOutputsPrefix(txs, t + 1);
  }

  /** Where input `j` of transaction `t` sits in the block-wide numbering. */
  lemma InputAt(txs: seq<Tx>, t: nat, j: nat)
    requires t < |txs| && j < |txs[t].inputs|
    ensures |AllInputs(txs[..t])| + j < |AllInputs(txs)|
    ensures AllInputs(txs)[|AllInputs(txs[..t])| + j] == txs[t].inputs[j]
  {
    AllInputsStep(txs, t);
    AllInputsPrefix(txs, t + 1);
  }

  /** The inputs of transaction `t` are a contiguous run of the block's
      inputs, starting at the number of inputs before it. */
  lemma InputsSlice(txs: seq<Tx>, t: nat)
    requires t < |txs|
    ensures |AllInputs(txs[..t])| + |txs[t].inputs| <= |AllInputs(txs)|
    ensures AllInputs(txs)[|AllInputs(txs[..t])|..|AllInputs(txs[..t])| + |txs[t].inputs|] == txs[t].inputs
  {
    AllInputsStep(txs, t);
    AllInputsPrefix(txs, t + 1);
    var lo := |AllInputs(txs[..t])|;
    assert AllInputs(txs)[lo..lo + |txs[t].inputs|] == AllInputs(txs[..t + 1])[lo..];
  }

  /** Every output records the id of the transaction it belongs to. */
  lemma {:induction false} AllOutputsOwner(txs: seq<Tx>, k: nat)
    requires k < |AllOutputs(txs)|
    ensures AllOutputs(txs)[k].txPos < |txs|
    ensures AllOutputs(txs)[k].op.hash == txs[AllOutputs(txs)[k].txPos].txid
    ensures 0 <= AllOutputs(txs)[k].op.index < |txs[AllOutputs(txs)[k].txPos].outputs|
    ensures AllOutputs(txs)[k].out == txs[AllOutputs(txs)[k].txPos].outputs[AllOutputs(txs)[k].op.index]
    decreases |txs|
  {
    var pre := txs[..|txs| - 1];
    if k < |AllOutputs(pre)| {
      AllOutputsOwner(pre, k);
    }
  }

  /** Transaction ids are pairwise distinct. */
  ghost predicate DistinctTxids(txs: seq<Tx>)
  {
    forall a, b :: 0 <= a < b < |txs| ==> txs[a].txid != txs[b].txid
  }

  ghost predicate DistinctOutPoints(outs: seq<OutputRef>)
  {
    forall a, b :: 0 <= a < b < |outs| ==> outs[a].op != outs[b].op
  }

  /** With distinct transaction ids, no two outputs of a block share an
      outpoint. */
  lemma {:induction false} AllOutputsDistinct(txs: seq<Tx>)
    requires DistinctTxids(txs)
    ensures DistinctOutPoints(AllOutputs(txs))
    decreases |txs|
  {
    if txs != [] {
      var n := |txs| - 1;
      var pre := txs[..n];
      assert DistinctTxids(pre);
      AllOutputsDistinct(pre);
      var A, B := AllOutputs(pre), OutputsOf(txs[n], n);
      var all := AllOutputs(txs);
      assert all == A + B;
      forall a, b | 0 <= a < b < |all| ensures all[a].op != all[b].op {
        if b >= |A| && a < |A| {
          AllOutputsOwner(pre, a);
          assert all[a].op.hash == txs[A[a].txPos].txid;
        }
      }
    }
  }
}
