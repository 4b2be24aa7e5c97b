/** wire/umsgblock.py: `UBlock`, a block together with its Utreexo data: the
    leaves the block adds to the accumulator, the check that the data proves
    exactly the outpoints the block deletes, the UTXO view built from the
    data, and the size of the pair on the wire. */
module UMsgBlock {
  import opened Common
  import opened Hashes
  import opened Chain
  import opened Sorting
  import Btcacc
  import Util
  import Udata

  /** The accumulator library's `Leaf`: a leaf hash, and whether the forest
      should keep its proof. */
  datatype Leaf = Leaf(hash: Hash, remember: bool)

  /** The value `Leaf` gives `remember` when it is not set. */
  const DefaultRemember := false

  datatype UBlock = UBlock(utreexoData: Udata.UData, block: Block)

  // ---- block_to_add_leaves ----

  /** The `LeafData` built for output `o` of a block at `height`: the block
      hash keeps its zero default. */
  function LeafFor(o: OutputRef, height: int): Btcacc.LeafData
  {
    Btcacc.DefaultLeafData.(txHash := o.op.hash, index := o.op.index, height := height,
                            coinbase := o.txPos == 0, amt := o.out.value, pkScript := o.out.pkScript)
  }

  /** The leaf for output number `k`: the hash of its LeafData (which raises
      when a field is out of range), and `remember[k]` when the list is long
      enough. */
  function NewLeaf(o: OutputRef, k: nat, height: int, remember: seq<bool>, digest: seq<Byte> -> Hash): Result<Leaf>
  {
    match Btcacc.LeafHash(LeafFor(o, height), digest)
    case Err(e) => Err(e)
    case Ok(h) => Ok(Leaf(h, if |remember| > k then remember[k] else DefaultRemember))
  }

  /** `NewLeaf` for the block at `height` with the given `remember` list. */
  function Maker(height: int, remember: seq<bool>, digest: seq<Byte> -> Hash): (OutputRef, nat) -> Result<Leaf>
  {
    (o: OutputRef, k: nat) => NewLeaf(o, k, height, remember, digest)
  }

  /** `mk` makes the leaves as `NewLeaf` does; the trigger keeps the leaf
      hash out of proofs that never name `NewLeaf`. */
  ghost predicate Makes(mk: (OutputRef, nat) -> Result<Leaf>, height: int, remember: seq<bool>, digest: seq<Byte> -> Hash)
  {
    forall o: OutputRef, k: nat {:trigger NewLeaf(o, k, height, remember, digest)} ::
      mk(o, k) == NewLeaf(o, k, height, remember, digest)
  }

  /** The loop's state: the leaves so far and what is left of the skip list. */
  datatype AddState = AddState(leaves: seq<Leaf>, skip: seq<int>)

  /** The loop body for output number `k`, as written: an unspendable output
      is passed over before the skip list is looked at. `mk` makes the leaf. */
  function AddStep(st: AddState, o: OutputRef, k: nat, mk: (OutputRef, nat) -> Result<Leaf>): Result<AddState>
  {
    if Util.IsUnspendable(o.out) then Ok(st)
    else if |st.skip| > 0 && st.skip[0] == k then Ok(st.(skip := st.skip[1..]))
    else
      match mk(o, k)
      case Err(e) => Err(e)
      case Ok(l) => Ok(st.(leaves := st.leaves + [l]))
  }

  /** The state after the loop has seen `outs`, the first outputs of the
      block in block order. */
  function AddLeaves(outs: seq<OutputRef>, skip0: seq<int>, mk: (OutputRef, nat) -> Result<Leaf>): Result<AddState>
  {
    if outs == [] then Ok(AddState([], skip0))
    else
      match AddLeaves(outs[..|outs| - 1], skip0, mk)
      case Err(e) => Err(e)
      case Ok(st) => AddStep(st, outs[|outs| - 1], |outs| - 1, mk)
  }

  function LeavesOf(r: Result<AddState>): Result<seq<Leaf>>
  {
    match r
    case Err(e) => Err(e)
    case Ok(st) => Ok(st.leaves)
  }

  lemma {:induction false} AddLeavesStuck(pre: seq<OutputRef>, outs: seq<OutputRef>, skip0: seq<int>,
                                          mk: (OutputRef, nat) -> Result<Leaf>)
    requires pre <= outs && AddLeaves(pre, skip0, mk).Err?
    ensures AddLeaves(outs, skip0, mk) == AddLeaves(pre, skip0, mk)
    decreases |outs|
  {
    if |pre| < |outs| {
      AddLeavesStuck(pre, outs[..|outs| - 1], skip0, mk);
    } else {
      assert pre == outs;
    }
  }

  /** `UBlock.block_to_add_leaves`: one leaf per new output that is neither
      unspendable nor taken off the skip list, in block order. `out_count`
      is unused, as in the source. */
  method BlockToAddLeaves(blk: Block, remember: seq<bool>, skiplist: seq<int>, height: int, outCount: int,
                          digest: seq<Byte> -> Hash)
    returns (res: Result<seq<Leaf>>)
    ensures res == LeavesOf(AddLeaves(AllOutputs(blk.txs), skiplist, Maker(height, remember, digest)))
  {
    var txs := blk.txs;
    ghost var mk := Maker(height, remember, digest);
    var st := AddState([], skiplist);
    var txonum := 0;
    for t := 0 to |txs|
      invariant txonum == |AllOutputs(txs[..t])|
      invariant AddLeaves(AllOutputs(txs[..t]), skiplist, mk) == Ok(st)
    {
      AllOutputsStep(txs, t);
      AllOutputsPrefix(txs, t + 1);
      var r;
      r, txonum := AddTxLeaves(txs[t], t, txonum, st, AllOutputs(txs[..t]), skiplist, height, remember, digest, mk);
      if r.Err? {
        AddLeavesStuck(AllOutputs(txs[..t + 1]), AllOutputs(txs), skiplist, mk);
        return Err(r.error);
      }
      st := r.value;
    }
    assert txs[..|txs|] == txs;
    return Ok(st.leaves);
  }

  /** The inner loop of `block_to_add_leaves`, over the outputs of the
      transaction at position `t`, which follow the outputs `before`. */
  method AddTxLeaves(tx: Tx, t: nat, txonum0: int, st0: AddState, ghost before: seq<OutputRef>, ghost skiplist: seq<int>,
                     height: int, remember: seq<bool>, digest: seq<Byte> -> Hash, ghost mk: (OutputRef, nat) -> Result<Leaf>)
    returns (res: Result<AddState>, txonum: int)
    requires txonum0 == |before| && Makes(mk, height, remember, digest)
    requires AddLeaves(before, skiplist, mk) == Ok(st0)
    ensures res == AddLeaves(before + OutputsOf(tx, t), skiplist, mk)
    ensures res.Ok? ==> txonum == |before| + |tx.outputs|
  {
    var outs := OutputsOf(tx, t);
    var st := st0;
    txonum := txonum0;
    assert before + outs[..0] == before;
    for i := 0 to |tx.outputs|
      invariant txonum == |before| + i
      invariant AddLeaves(before + outs[..i], skiplist, mk) == Ok(st)
    {
      var r := AddOutput(st, outs[i], txonum, height, remember, digest, mk);
      AddLeavesNext(before, outs, i, skiplist, mk, st, r);
      if r.Err? {
        return r, txonum;
      }
      st := r.value;
      txonum := txonum + 1;
    }
    assert outs[..|outs|] == outs;
    return Ok(st), txonum;
  }

  /** One more output of `outs` after `before`: the loop body applied to the
      state so far; a failing body is the result for all of `outs`. */
  lemma AddLeavesNext(before: seq<OutputRef>, outs: seq<OutputRef>, i: nat, skip0: seq<int>,
                      mk: (OutputRef, nat) -> Result<Leaf>, st: AddState, r: Result<AddState>)
    requires i < |outs| && AddLeaves(before + outs[..i], skip0, mk) == Ok(st)
    requires r == AddStep(st, outs[i], |before| + i, mk)
    ensures r.Ok? ==> AddLeaves(before + outs[..i + 1], skip0, mk) == r
    ensures r.Err? ==> AddLeaves(before + outs, skip0, mk) == r
  {
    var seen := before + outs[..i + 1];
    assert seen[..|seen| - 1] == before + outs[..i];
    assert seen[|seen| - 1] == outs[i];
    if r.Err? {
      assert seen <= before + outs;
      AddLeavesStuck(seen, before + outs, skip0, mk);
    }
  }

  /** The body of the inner loop for output number `txonum`: pass over an
      unspendable output, then over one at the head of the skip list, else
      append its leaf. */
  method AddOutput(st: AddState, o: OutputRef, txonum: nat, height: int, remember: seq<bool>, digest: seq<Byte> -> Hash,
                   ghost mk: (OutputRef, nat) -> Result<Leaf>)
    returns (r: Result<AddState>)
    requires Makes(mk, height, remember, digest)
    ensures r == AddStep(st, o, txonum, mk)
  {
    if Util.IsUnspendable(o.out) {
      return Ok(st);
    }
    if |st.skip| > 0 && st.skip[0] == txonum {
      return Ok(st.(skip := st.skip[1..]));
    }
    var l := NewLeaf(o, txonum, height, remember, digest);
    if l.Err? {
      return Err(l.error);
    }
    return Ok(st.(leaves := st.leaves + [l.value]));
  }

  /** The leaves the loop is meant to produce: one per output, in block
      order, that is neither unspendable nor on the skip list. */
  function ExpectedLeaves(outs: seq<OutputRef>, skip0: seq<int>, mk: (OutputRef, nat) -> Result<Leaf>): Result<seq<Leaf>>
  {
    if outs == [] then Ok([])
    else
      match ExpectedLeaves(outs[..|outs| - 1], skip0, mk)
      case Err(e) => Err(e)
      case Ok(ls) =>
        var k := |outs| - 1;
        if Util.IsUnspendable(outs[k].out) || k in skip0 then Ok(ls)
        else
          match mk(outs[k], k)
          case Err(e) => Err(e)
          case Ok(l) => Ok(ls + [l])
  }

  /** The loop body with its two checks the other way round: a skip-list
      head equal to the output's number is dropped whether or not the output
      is spendable. */
  function AddStepIntended(st: AddState, o: OutputRef, k: nat, mk: (OutputRef, nat) -> Result<Leaf>): Result<AddState>
  {
    if |st.skip| > 0 && st.skip[0] == k then Ok(st.(skip := st.skip[1..]))
    else if Util.IsUnspendable(o.out) then Ok(st)
    else
      match mk(o, k)
      case Err(e) => Err(e)
      case Ok(l) => Ok(st.(leaves := st.leaves + [l]))
  }

  function AddLeavesIntended(outs: seq<OutputRef>, skip0: seq<int>, mk: (OutputRef, nat) -> Result<Leaf>): Result<AddState>
  {
    if outs == [] then Ok(AddState([], skip0))
    else
      match AddLeavesIntended(outs[..|outs| - 1], skip0, mk)
      case Err(e) => Err(e)
      case Ok(st) => AddStepIntended(st, outs[|outs| - 1], |outs| - 1, mk)
  }

  /** With the checks in the intended order and a strictly increasing skip
      list of output numbers, the leaves are exactly the expected ones: every
      output not unspendable and not listed, in block order. What remains of
      the skip list is its tail of numbers not yet reached. */
  lemma {:induction false} IntendedLeavesExpected(outs: seq<OutputRef>, skip0: seq<int>, mk: (OutputRef, nat) -> Result<Leaf>)
    requires StrictlyIncreasing(skip0) && forall x :: x in skip0 ==> x >= 0
    ensures LeavesOf(AddLeavesIntended(outs, skip0, mk)) == ExpectedLeaves(outs, skip0, mk)
    ensures AddLeavesIntended(outs, skip0, mk).Ok? ==>
      var skip := AddLeavesIntended(outs, skip0, mk).value.skip;
      && |skip| <= |skip0|
      && skip == skip0[|skip0| - |skip|..]
      && forall x :: x in skip0 ==> (x in skip <==> x >= |outs|)
  {
    if outs != [] {
      var k := |outs| - 1;
      IntendedLeavesExpected(outs[..k], skip0, mk);
      var r := AddLeavesIntended(outs[..k], skip0, mk);
      if r.Ok? {
        IntendedStep(r.value, outs[k], k, skip0, mk);
      }
    }
  }

  /** The head of a tail of a strictly increasing list is the least element
      of the tail. */
  lemma TailHeadLeast(skip0: seq<int>, skip: seq<int>, x: int)
    requires StrictlyIncreasing(skip0) && |skip| <= |skip0| && skip == skip0[|skip0| - |skip|..]
    requires x in skip
    ensures skip[0] <= x && skip[0] in skip0
  {
    var j := |skip0| - |skip|;
    var i :| 0 <= i < |skip| && skip[i] == x;
    assert skip0[j] == skip[0] && skip0[j + i] == x;
  }

  /** One step of the intended loop keeps the skip list a tail of the
      original holding exactly the numbers not yet reached. */
  lemma IntendedStep(st: AddState, o: OutputRef, k: nat, skip0: seq<int>, mk: (OutputRef, nat) -> Result<Leaf>)
    requires StrictlyIncreasing(skip0)
    requires |st.skip| <= |skip0| && st.skip == skip0[|skip0| - |st.skip|..]
    requires forall x :: x in skip0 ==> (x in st.skip <==> x >= k)
    ensures AddStepIntended(st, o, k, mk).Ok? ==>
      var skip := AddStepIntended(st, o, k, mk).value.skip;
      && |skip| <= |skip0|
      && skip == skip0[|skip0| - |skip|..]
      && forall x :: x in skip0 ==> (x in skip <==> x >= k + 1)
    ensures (|st.skip| > 0 && st.skip[0] == k) <==> k in skip0
  {
    var skip := st.skip;
    var j := |skip0| - |skip|;
    if k in skip0 {
      TailHeadLeast(skip0, skip, k);
      var rest := skip[1..];
      assert rest == skip0[|skip0| - |rest|..];
      forall x | x in rest ensures x >= k + 1 {
        var i :| 0 <= i < |rest| && rest[i] == x;
        assert skip0[j] == k && skip0[j + 1 + i] == x;
      }
      forall x | x in skip0 && x >= k + 1 ensures x in rest {
        var i :| 0 <= i < |skip| && skip[i] == x;
        assert rest[i - 1] == x;
      }
    } else if |skip| > 0 {
      TailHeadLeast(skip0, skip, skip[0]);
    }
  }

  /** When no unspendable output's number is on the skip list, the loop as
      written agrees with the intended one. */
  lemma {:induction false} AddLeavesAgree(outs: seq<OutputRef>, skip0: seq<int>, mk: (OutputRef, nat) -> Result<Leaf>)
    requires forall k :: 0 <= k < |outs| && Util.IsUnspendable(outs[k].out) ==> k !in skip0
    ensures AddLeaves(outs, skip0, mk) == AddLeavesIntended(outs, skip0, mk)
    ensures AddLeaves(outs, skip0, mk).Ok? ==> forall x :: x in AddLeaves(outs, skip0, mk).value.skip ==> x in skip0
  {
    if outs != [] {
      var k := |outs| - 1;
      AddLeavesAgree(outs[..k], skip0, mk);
      var r := AddLeaves(outs[..k], skip0, mk);
      if r.Ok? {
        var skip := r.value.skip;
        if |skip| > 0 {
          assert skip[0] in skip;
          assert forall x :: x in skip[1..] ==> x in skip;
          if Util.IsUnspendable(outs[k].out) {
            assert k !in skip0;
          }
        }
      }
    }
  }

  /** A block of three transactions: the coinbase pays only an OP_RETURN
      output (a witness commitment, say); transaction 1 spends an output of
      an earlier block and pays output 1 of the block; transaction 2 spends
      that output. Nothing in it breaks a consensus rule. */
  function StuckBlock(): Block
  {
    var hc: Hash := [4] + ZeroBytes(HashSize - 1);
    var h1: Hash := [1] + ZeroBytes(HashSize - 1);
    var h2: Hash := [2] + ZeroBytes(HashSize - 1);
    var earlier: Hash := [3] + ZeroBytes(HashSize - 1);
    var coinbase := Tx(hc, [OutPoint(ZeroHash, 0xffff_ffff)], [TxOut(0, [Util.OpReturn])]);
    var tx1 := Tx(h1, [OutPoint(earlier, 0)], [TxOut(50, [])]);
    var tx2 := Tx(h2, [OutPoint(h1, 0)], [TxOut(50, [])]);
    Block([coinbase, tx1, tx2])
  }

  /** Three transactions of one output each: output t of the block is the
      output of transaction t. */
  lemma ThreeOutputs(tx0: Tx, tx1: Tx, tx2: Tx)
    requires |tx0.outputs| == 1 && |tx1.outputs| == 1 && |tx2.outputs| == 1
    ensures AllOutputs([tx0, tx1, tx2]) == [
      OutputRef(OutPoint(tx0.txid, 0), tx0.outputs[0], 0),
      OutputRef(OutPoint(tx1.txid, 0), tx1.outputs[0], 1),
      OutputRef(OutPoint(tx2.txid, 0), tx2.outputs[0], 2)]
  {
    var txs := [tx0, tx1, tx2];
    assert txs[..1] == [tx0] && [tx0][..0] == [];
    assert txs[..2] == [tx0, tx1] && [tx0, tx1][..1] == [tx0];
    assert txs[..3] == txs;
    assert AllOutputs([tx0]) == OutputsOf(tx0, 0);
    AllOutputsStep(txs, 1);
    AllOutputsStep(txs, 2);
  }

  /** The block's outputs in block order. */
  lemma StuckBlockOutputs()
    ensures AllOutputs(StuckBlock().txs) == [
      OutputRef(OutPoint(StuckBlock().txs[0].txid, 0), TxOut(0, [Util.OpReturn]), 0),
      OutputRef(OutPoint(StuckBlock().txs[1].txid, 0), TxOut(50, []), 1),
      OutputRef(OutPoint(StuckBlock().txs[2].txid, 0), TxOut(50, []), 2)]
  {
    var txs := StuckBlock().txs;
    ThreeOutputs(txs[0], txs[1], txs[2]);
    assert txs == [txs[0], txs[1], txs[2]];
  }

  /** Three transactions of one input each: inputs 1 and 2 are the ones
      after the coinbase's. */
  lemma ThreeInputsMap(tx0: Tx, tx1: Tx, tx2: Tx)
    requires |tx0.inputs| == 1 && |tx1.inputs| == 1 && |tx2.inputs| == 1
    ensures Util.IndexMap(AllInputs([tx0, tx1, tx2]), 1) == map[tx1.inputs[0] := 1][tx2.inputs[0] := 2]
  {
    var txs := [tx0, tx1, tx2];
    assert txs[..1] == [tx0] && [tx0][..0] == [];
    assert txs[..2] == [tx0, tx1] && [tx0, tx1][..1] == [tx0];
    assert AllInputs([tx0]) == [] + tx0.inputs == tx0.inputs;
    assert AllInputs([tx0, tx1]) == tx0.inputs + tx1.inputs;
    var ins := AllInputs(txs);
    assert ins == tx0.inputs + tx1.inputs + tx2.inputs;
    assert ins[..2] == tx0.inputs + tx1.inputs && ins[..2][..1] == tx0.inputs;
    assert Util.IndexMap(ins[..2][..1], 1) == map[];
    assert Util.IndexMap(ins[..2], 1) == map[tx1.inputs[0] := 1];
  }

  /** The block spends one output of an earlier block, at input 1, and its
      own output 1, at input 2. */
  lemma StuckBlockInMap()
    ensures Util.InMap(StuckBlock()) ==
      map[OutPoint([3] + ZeroBytes(HashSize - 1), 0) := 1][OutPoint(StuckBlock().txs[1].txid, 0) := 2]
  {
    var txs := StuckBlock().txs;
    ThreeInputsMap(txs[0], txs[1], txs[2]);
    assert txs == [txs[0], txs[1], txs[2]];
  }

  /** `dedupe_block` lists output 0 (unspendable) and output 1 (spent in the
      block) of that block, and not output 2. */
  lemma StuckBlockOutSkip()
    ensures |AllOutputs(StuckBlock().txs)| == 3
    ensures Util.IsUnspendable(AllOutputs(StuckBlock().txs)[0].out)
    ensures !Util.IsUnspendable(AllOutputs(StuckBlock().txs)[1].out)
    ensures !Util.IsUnspendable(AllOutputs(StuckBlock().txs)[2].out)
    ensures Util.OutSkip(StuckBlock()) == [0, 1]
  {
    var blk := StuckBlock();
    var earlier: Hash := [3] + ZeroBytes(HashSize - 1);
    assert blk.txs[2].txid != blk.txs[1].txid && blk.txs[2].txid != earlier by {
      assert blk.txs[2].txid[0] == 2 && blk.txs[1].txid[0] == 1 && earlier[0] == 3;
    }
    StuckBlockOutputs();
    StuckBlockInMap();
    var outs := AllOutputs(blk.txs);
    var inmap := Util.InMap(blk);
    assert outs[1].op in inmap;
    assert outs[2].op !in inmap;
    ThreeOutSkip(outs, inmap);
  }

  /** Of three outputs, the first two skipped and the third not, only the
      first two are numbered on the output skip list. */
  lemma ThreeOutSkip(outs: seq<OutputRef>, inmap: map<OutPoint, int>)
    requires |outs| == 3
    requires Util.Skipped(outs[0], inmap) && Util.Skipped(outs[1], inmap) && !Util.Skipped(outs[2], inmap)
    ensures Util.OutSkipOf(outs, inmap) == [0, 1]
  {
    var o0, o1, o2 := outs[0], outs[1], outs[2];
    Util.SkipListsSnoc([], o0, inmap);
    Util.SkipListsSnoc([o0], o1, inmap);
    Util.SkipListsSnoc([o0, o1], o2, inmap);
    assert [] + [o0] == [o0] && [o0] + [o1] == [o0, o1] && [o0, o1] + [o2] == outs;
  }

  /** Three outputs, the first unspendable, with skip list [0, 1]: the loop
      as written passes over output 0 without consuming the skip list's 0,
      then never reaches 1 at the head, so it makes leaves for outputs 1
      and 2. */
  lemma StuckAdds(outs: seq<OutputRef>, mk: (OutputRef, nat) -> Result<Leaf>, l1: Leaf, l2: Leaf)
    requires |outs| == 3 && Util.IsUnspendable(outs[0].out)
    requires !Util.IsUnspendable(outs[1].out) && !Util.IsUnspendable(outs[2].out)
    requires mk(outs[1], 1) == Ok(l1) && mk(outs[2], 2) == Ok(l2)
    ensures AddLeaves(outs, [0, 1], mk) == Ok(AddState([l1, l2], [0, 1]))
  {
    assert outs[..2][..1] == outs[..1] && outs[..1][..0] == [] && outs[..2] == outs[..|outs| - 1];
    assert AddLeaves(outs[..1], [0, 1], mk) == Ok(AddState([], [0, 1]));
    assert outs[..2][1] == outs[1];
    assert [] + [l1] == [l1] && [l1] + [l2] == [l1, l2];
    assert AddLeaves(outs[..2], [0, 1], mk) == Ok(AddState([l1], [0, 1]));
  }

  /** On the same outputs the intended loop skips outputs 0 and 1 and makes
      the one leaf for output 2. */
  lemma StuckExpects(outs: seq<OutputRef>, mk: (OutputRef, nat) -> Result<Leaf>, l2: Leaf)
    requires |outs| == 3 && Util.IsUnspendable(outs[0].out)
    requires !Util.IsUnspendable(outs[1].out) && !Util.IsUnspendable(outs[2].out)
    requires mk(outs[2], 2) == Ok(l2)
    ensures ExpectedLeaves(outs, [0, 1], mk) == Ok([l2])
  {
    assert outs[..2][..1] == outs[..1] && outs[..1][..0] == [] && outs[..2] == outs[..|outs| - 1];
    assert ExpectedLeaves(outs[..1], [0, 1], mk) == Ok([]);
    assert ExpectedLeaves(outs[..2], [0, 1], mk) == Ok([]);
    assert 2 !in [0, 1];
    assert [] + [l2] == [l2];
  }

  /** On that block, fed `dedupe_block`'s `outskip`, the loop as written
      makes two leaves, one of them for the output spent inside the block,
      where one leaf is expected. */
  lemma StuckSkipHead(digest: seq<Byte> -> Hash)
    ensures
      var outs, mk := AllOutputs(StuckBlock().txs), Maker(0, [], digest);
      && Util.OutSkip(StuckBlock()) == [0, 1]
      && LeavesOf(AddLeaves(outs, [0, 1], mk)).Ok?
      && |LeavesOf(AddLeaves(outs, [0, 1], mk)).value| == 2
      && ExpectedLeaves(outs, [0, 1], mk).Ok?
      && |ExpectedLeaves(outs, [0, 1], mk).value| == 1
  {
    StuckBlockOutSkip();
    var outs, mk := AllOutputs(StuckBlock().txs), Maker(0, [], digest);
    assert Btcacc.FieldsInRange(LeafFor(outs[1], 0)) && Btcacc.FieldsInRange(LeafFor(outs[2], 0));
    var l1, l2 := mk(outs[1], 1).value, mk(outs[2], 2).value;
    StuckAdds(outs, mk, l1, l2);
    StuckExpects(outs, mk, l2);
  }

  // ---- proof_sanity ----

  /** The delete-list outpoint and the spent output's record name the same
      output. */
  predicate Matches(op: OutPoint, ld: Btcacc.LeafData)
  {
    op.hash == ld.txHash && op.index == ld.index
  }

  /** The first position where the two lists disagree, or `|ops|`. */
  function FirstMismatch(ops: seq<OutPoint>, stxos: seq<Btcacc.LeafData>, i: nat): (p: nat)
    requires |ops| == |stxos| && i <= |ops|
    ensures i <= p <= |ops|
    ensures forall j :: i <= j < p ==> Matches(ops[j], stxos[j])
    ensures p < |ops| ==> !Matches(ops[p], stxos[p])
    decreases |ops| - i
  {
    if i == |ops| || !Matches(ops[i], stxos[i]) then i else FirstMismatch(ops, stxos, i + 1)
  }

  /** `proof_sanity(nl, h)` as written, with the undefined
      `self.block_to_del_ops()` read as `block_to_del_ops(self.block)`: the
      count check and the position-by-position check; the closing UData
      check always passes there, so it never reports ProofDataMismatch. */
  function SanityCheckAsWritten(ub: UBlock): (o: Outcome)
    requires |ub.block.txs| >= 1
    ensures o.Fail? ==> !o.error.ProofDataMismatch?
    ensures o.Pass? ==> |Util.DelOps(ub.block)| == |ub.utreexoData.stxos|
  {
    var ops := Util.DelOps(ub.block);
    var u := ub.utreexoData;
    if |ops| != |u.stxos| then Fail(OutPointCountMismatch(u.height, |ops|, |u.stxos|))
    else if FirstMismatch(ops, u.stxos, 0) < |ops| then Fail(OutPointMismatch(FirstMismatch(ops, u.stxos, 0)))
    else if !Udata.ProofSanityAsWritten(u, 0, 0) then Fail(ProofDataMismatch(u.height))
    else Pass
  }

  /** As written, the check passes exactly when the records are the deleted
      outpoints, position by position, whatever the proof holds; a failure
      names the first thing that is wrong. */
  lemma SanityCheckAsWrittenSpec(ub: UBlock, i: int)
    requires |ub.block.txs| >= 1
    ensures var ops, u := Util.DelOps(ub.block), ub.utreexoData;
      SanityCheckAsWritten(ub).Pass? <==>
        && |ops| == |u.stxos|
        && (forall j :: 0 <= j < |ops| ==> Matches(ops[j], u.stxos[j]))
    ensures var ops, u := Util.DelOps(ub.block), ub.utreexoData;
      |ops| == |u.stxos| && 0 <= i < |ops| && !Matches(ops[i], u.stxos[i])
      && (forall j :: 0 <= j < i ==> Matches(ops[j], u.stxos[j]))
      ==> SanityCheckAsWritten(ub) == Fail(OutPointMismatch(i))
  {
    var ops, u := Util.DelOps(ub.block), ub.utreexoData;
    if |ops| == |u.stxos| {
      var p := FirstMismatch(ops, u.stxos, 0);
    }
  }

  /** The corrected check adds one failure to the check as written: a proof
      whose target count differs from the number of records. */
  lemma SanityCheckRefines(ub: UBlock)
    requires |ub.block.txs| >= 1
    ensures SanityCheckAsWritten(ub).Fail? ==> SanityCheck(ub) == SanityCheckAsWritten(ub)
    ensures SanityCheckAsWritten(ub).Pass? ==>
      SanityCheck(ub) == (if Udata.ProofSanity(ub.utreexoData) then Pass else Fail(ProofDataMismatch(ub.utreexoData.height)))
  {
  }

  /** A coinbase-only block deletes nothing, so a UData with no records but
      one proof target passes the check as written and fails the corrected
      one. */
  lemma SanityChecksDiffer(cb: Tx)
    requires |cb.inputs| == 1
    ensures var ub := UBlock(Udata.DefaultUData.(accProof := Udata.BatchProof([0], [])), Block([cb]));
      SanityCheckAsWritten(ub) == Pass && SanityCheck(ub) == Fail(ProofDataMismatch(0))
  {
    Util.CoinbaseOnlyBlock(Block([cb]));
  }

  /** `proof_sanity(nl, h)`, with the undefined `self.block_to_del_ops()`
      read as `block_to_del_ops(self.block)`, and the UData check the one
      its comment describes. A UBlock it passes also passes the check as
      written, and holds one record and one proof target per deleted outpoint. */
  function SanityCheck(ub: UBlock): (o: Outcome)
    requires |ub.block.txs| >= 1
    ensures o.Pass? ==> SanityCheckAsWritten(ub).Pass?
    ensures o.Pass? ==>
      |Util.DelOps(ub.block)| == |ub.utreexoData.stxos| == |ub.utreexoData.accProof.targets|
  {
    var ops := Util.DelOps(ub.block);
    var u := ub.utreexoData;
    if |ops| != |u.stxos| then Fail(OutPointCountMismatch(u.height, |ops|, |u.stxos|))
    else if FirstMismatch(ops, u.stxos, 0) < |ops| then Fail(OutPointMismatch(FirstMismatch(ops, u.stxos, 0)))
    else if !Udata.ProofSanity(u) then Fail(ProofDataMismatch(u.height))
    else Pass
  }

  /** The check passes exactly when the records are the deleted outpoints,
      position by position, and the proof has one target per record; a
      failure names the first thing that is wrong. */
  lemma SanityCheckSpec(ub: UBlock, i: int)
    requires |ub.block.txs| >= 1
    ensures var ops, u := Util.DelOps(ub.block), ub.utreexoData;
      SanityCheck(ub).Pass? <==>
        && |ops| == |u.stxos|
        && (forall j :: 0 <= j < |ops| ==> Matches(ops[j], u.stxos[j]))
        && |u.accProof.targets| == |u.stxos|
    ensures var ops, u := Util.DelOps(ub.block), ub.utreexoData;
      |ops| == |u.stxos| && 0 <= i < |ops| && !Matches(ops[i], u.stxos[i])
      && (forall j :: 0 <= j < i ==> Matches(ops[j], u.stxos[j]))
      ==> SanityCheck(ub) == Fail(OutPointMismatch(i))
  {
    var ops, u := Util.DelOps(ub.block), ub.utreexoData;
    if |ops| == |u.stxos| {
      var p := FirstMismatch(ops, u.stxos, 0);
    }
  }

  /** `UBlock.proof_sanity`: `None`, or the exception it raises. */
  method ProofSanity(ub: UBlock) returns (res: Outcome)
    requires |ub.block.txs| >= 1
    ensures res == SanityCheck(ub)
  {
    var proveOps := Util.BlockToDelOps(ub.block);
    var u := ub.utreexoData;
    if |proveOps| != |u.stxos| {
      return Fail(OutPointCountMismatch(u.height, |proveOps|, |u.stxos|));
    }
    for i := 0 to |proveOps|
      invariant forall j :: 0 <= j < i ==> Matches(proveOps[j], u.stxos[j])
    {
      var op := proveOps[i];
      var stxo := u.stxos[i];
      if op.hash != stxo.txHash || op.index != stxo.index {
        assert FirstMismatch(proveOps, u.stxos, 0) == i;
        return Fail(OutPointMismatch(i));
      }
    }
    if !Udata.ProofSanity(u) {
      return Fail(ProofDataMismatch(u.height));
    }
    return Pass;
  }

  // ---- to_utxo_view ----

  /** btcd's `UtxoEntry`: the output, its height and whether it is a
      coinbase output. */
  datatype UtxoEntry = UtxoEntry(txo: TxOut, height: int, coinbase: bool)

  function OutPointOf(ld: Btcacc.LeafData): OutPoint
  {
    OutPoint(ld.txHash, ld.index)
  }

  function EntryOf(ld: Btcacc.LeafData): UtxoEntry
  {
    UtxoEntry(TxOut(ld.amt, ld.pkScript), ld.height, ld.coinbase)
  }

  /** The view's entries after the records `stxos` have been added in order:
      at most one entry per record. */
  function UtxoView(stxos: seq<Btcacc.LeafData>): (m: map<OutPoint, UtxoEntry>)
    ensures |m| <= |stxos|
  {
    if stxos == [] then map[]
    else UtxoView(stxos[..|stxos| - 1])[OutPointOf(stxos[|stxos| - 1]) := EntryOf(stxos[|stxos| - 1])]
  }

  /** `UBlock.to_utxo_view`: fills the view's entries one record at a time. */
  method ToUtxoView(ub: UBlock) returns (entries: map<OutPoint, UtxoEntry>)
    ensures entries == UtxoView(ub.utreexoData.stxos)
  {
    var stxos := ub.utreexoData.stxos;
    entries := map[];
    for i := 0 to |stxos|
      invariant entries == UtxoView(stxos[..i])
    {
      assert stxos[..i + 1][..i] == stxos[..i];
      var ld := stxos[i];
      entries := entries[OutPoint(ld.txHash, ld.index) := UtxoEntry(TxOut(ld.amt, ld.pkScript), ld.height, ld.coinbase)];
    }
    assert stxos[..|stxos|] == stxos;
  }

  /** The view has an entry for exactly the records' outpoints, and each
      outpoint's entry comes from the last record that names it. */
  lemma {:induction false} UtxoViewLookup(stxos: seq<Btcacc.LeafData>, i: int)
    requires 0 <= i < |stxos|
    requires forall j :: i < j < |stxos| ==> OutPointOf(stxos[j]) != OutPointOf(stxos[i])
    ensures OutPointOf(stxos[i]) in UtxoView(stxos)
    ensures UtxoView(stxos)[OutPointOf(stxos[i])] == EntryOf(stxos[i])
  {
    var n := |stxos| - 1;
    if i < n {
      UtxoViewLookup(stxos[..n], i);
    }
  }

  lemma {:induction false} UtxoViewKeys(stxos: seq<Btcacc.LeafData>, op: OutPoint)
    ensures op in UtxoView(stxos) <==> exists i :: 0 <= i < |stxos| && OutPointOf(stxos[i]) == op
  {
    if stxos != [] {
      var n := |stxos| - 1;
      UtxoViewKeys(stxos[..n], op);
      if op in UtxoView(stxos[..n]) {
        var i :| 0 <= i < n && OutPointOf(stxos[..n][i]) == op;
        assert stxos[i] == stxos[..n][i];
      }
      if exists i :: 0 <= i < |stxos| && OutPointOf(stxos[i]) == op {
        var i :| 0 <= i < |stxos| && OutPointOf(stxos[i]) == op;
        if i < n {
          assert stxos[..n][i] == stxos[i];
        }
      }
    }
  }

  // ---- serialize / serialize_size ----

  /** `serialize(w)`: btcd's encoding of the block (a parameter here, which
      never raises), then the UData. */
  function Encoding(ub: UBlock, blockBytes: Block -> seq<Byte>, c: Udata.ProofCodec): Written
  {
    Then(Emit(blockBytes(ub.block)), Udata.Encoding(ub.utreexoData, c))
  }

  /** `serialize_size()`: btcd's size of the block (a parameter here) plus
      the UData's, which is at least 8 bytes plus the proof and 82 bytes per record. */
  function SerializeSize(ub: UBlock, blockSize: Block -> nat, c: Udata.ProofCodec): (n: nat)
    ensures n >= blockSize(ub.block) + 8 + |c.encode(ub.utreexoData.accProof)|
                 + (Btcacc.FixedSize + 2) * |ub.utreexoData.stxos|
  {
    blockSize(ub.block) + Udata.SerializeSize(ub.utreexoData, c)
  }

  /** `serialize_size()` is the number of bytes `serialize` writes, when
      btcd's block size is the length of its block encoding. */
  lemma SerializedLength(ub: UBlock, blockBytes: Block -> seq<Byte>, blockSize: Block -> nat, c: Udata.ProofCodec)
    requires Udata.Encodable(ub.utreexoData)
    requires blockSize(ub.block) == |blockBytes(ub.block)|
    ensures Encoding(ub, blockBytes, c).Complete()
    ensures |Encoding(ub, blockBytes, c).bytes| == SerializeSize(ub, blockSize, c)
  {
    Udata.SerializedLength(ub.utreexoData, c);
  }
}
