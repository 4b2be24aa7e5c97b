/** The block helpers of util/utils.py: which inputs and outputs of a block
    cancel out inside the block (`dedupe_block`), the outpoints a block
    deletes from the accumulator (`block_to_del_ops`), the 2-byte length
    prefix, the outpoint key and the network magic check. */
module Util {
  import opened Common
  import opened Bytes
  import opened Hashes
  import opened Chain
  import opened Sorting
  import Btcacc

  const OpReturn: Byte := 0x6a

  /** `is_unspendable`: a script over the size limit, or one that starts with
      OP_RETURN. */
  predicate IsUnspendable(o: TxOut)
    ensures !IsUnspendable(o) ==> |o.pkScript| <= Btcacc.MaxScriptSize
    ensures !IsUnspendable(o) && o.pkScript != [] ==> o.pkScript[0] != OpReturn
  {
    |o.pkScript| > Btcacc.MaxScriptSize || (|o.pkScript| > 0 && o.pkScript[0] == OpReturn)
  }

  // ---- dedupe_block ----

  /** `inmap` after the first loop of `dedupe_block`: every outpoint spent by
      an input numbered `lo` or later, mapped to the number of the last input
      that spends it (a later assignment overwrites an earlier one). */
  function IndexMap(ins: seq<OutPoint>, lo: nat): map<OutPoint, int>
  {
    if |ins| <= lo then map[] else IndexMap(ins[..|ins| - 1], lo)[ins[|ins| - 1] := |ins| - 1]
  }

  lemma {:induction false} IndexMapSpec(ins: seq<OutPoint>, lo: nat, p: OutPoint)
    ensures p in IndexMap(ins, lo) <==> exists j :: lo <= j < |ins| && ins[j] == p
    ensures p in IndexMap(ins, lo) ==>
      && lo <= IndexMap(ins, lo)[p] < |ins|
      && ins[IndexMap(ins, lo)[p]] == p
      && forall j :: IndexMap(ins, lo)[p] < j < |ins| ==> ins[j] != p
    decreases |ins|
  {
    if |ins| > lo {
      var pre := ins[..|ins| - 1];
      IndexMapSpec(pre, lo, p);
      if p != ins[|ins| - 1] && exists j :: lo <= j < |ins| && ins[j] == p {
        var j :| lo <= j < |ins| && ins[j] == p;
        assert pre[j] == p;
      }
    }
  }

  lemma IndexMapSnoc(ins: seq<OutPoint>, p: OutPoint, lo: nat)
    requires |ins| >= lo
    ensures IndexMap(ins + [p], lo) == IndexMap(ins, lo)[p := |ins|]
  {
    assert (ins + [p])[..|ins|] == ins;
  }

  /** The coinbase's inputs are numbered first but never enter `inmap`. */
  function InMap(blk: Block): map<OutPoint, int>
    requires |blk.txs| >= 1
  {
    IndexMap(AllInputs(blk.txs), |blk.txs[0].inputs|)
  }

  /** An output is skipped when it is unspendable or spent inside the block. */
  predicate Skipped(o: OutputRef, inmap: map<OutPoint, int>)
  {
    IsUnspendable(o.out) || o.op in inmap
  }

  /** The numbers of the skipped outputs among `outs`, in order. */
  function OutSkipOf(outs: seq<OutputRef>, inmap: map<OutPoint, int>): seq<int>
  {
    if outs == [] then []
    else
      var n := |outs| - 1;
      OutSkipOf(outs[..n], inmap) + (if Skipped(outs[n], inmap) then [n] else [])
  }

  /** The input numbers that the second loop of `dedupe_block` appends to
      `inskip`: for each spendable output spent inside the block, the number
      of the input that spends it. */
  function InSkipAdds(outs: seq<OutputRef>, inmap: map<OutPoint, int>): seq<int>
  {
    if outs == [] then []
    else
      var n := |outs| - 1;
      InSkipAdds(outs[..n], inmap)
        + (if !IsUnspendable(outs[n].out) && outs[n].op in inmap then [inmap[outs[n].op]] else [])
  }

  function OutSkip(blk: Block): seq<int>
    requires |blk.txs| >= 1
  {
    OutSkipOf(AllOutputs(blk.txs), InMap(blk))
  }

  /** Input 0 (the coinbase's) and the inputs spent inside the block, sorted. */
  function InSkip(blk: Block): seq<int>
    requires |blk.txs| >= 1
  {
    Sort([0] + InSkipAdds(AllOutputs(blk.txs), InMap(blk)))
  }

  lemma SkipListsSnoc(outs: seq<OutputRef>, o: OutputRef, inmap: map<OutPoint, int>)
    ensures OutSkipOf(outs + [o], inmap) == OutSkipOf(outs, inmap) + (if Skipped(o, inmap) then [|outs|] else [])
    ensures InSkipAdds(outs + [o], inmap)
      == InSkipAdds(outs, inmap) + (if !IsUnspendable(o.out) && o.op in inmap then [inmap[o.op]] else [])
  {
    assert (outs + [o])[..|outs|] == outs;
  }

  /** The first loop of `dedupe_block`: numbers every input of the block,
      binds `inskip` to `[0]` at the coinbase, and maps each outpoint spent by
      a non-coinbase input to its number. */
  method NumberInputs(blk: Block) returns (inCount: int, inmap: map<OutPoint, int>, inskip: seq<int>)
    requires |blk.txs| >= 1
    ensures inCount == |AllInputs(blk.txs)| && inmap == InMap(blk) && inskip == [0]
  {
    var txs := blk.txs;
    var cb := |txs[0].inputs|;
    var i := 0;
    inmap := map[];
    inskip := [];
    for t := 0 to |txs|
      invariant i == |AllInputs(txs[..t])|
      invariant inmap == IndexMap(AllInputs(txs[..t]), cb)
      invariant t >= 1 ==> inskip == [0] && i >= cb
    {
      AllInputsStep(txs, t);
      var tx := txs[t];
      if t == 0 {
        inskip := [0];
        i := i + |tx.inputs|;
        continue;
      }
      assert AllInputs(txs[..t]) + tx.inputs[..0] == AllInputs(txs[..t]);
      for j := 0 to |tx.inputs|
        invariant i == |AllInputs(txs[..t])| + j
        invariant inmap == IndexMap(AllInputs(txs[..t]) + tx.inputs[..j], cb)
      {
        ghost var before := AllInputs(txs[..t]) + tx.inputs[..j];
        assert AllInputs(txs[..t]) + tx.inputs[..j + 1] == before + [tx.inputs[j]];
        IndexMapSnoc(before, tx.inputs[j], cb);
        inmap := inmap[tx.inputs[j] := i];
        i := i + 1;
      }
      assert tx.inputs[..|tx.inputs|] == tx.inputs;
    }
    assert txs[..|txs|] == txs;
    inCount := i;
  }

  /** The body of the second loop of `dedupe_block` for transaction `t`,
      whose outputs follow `before` in block order. */
  method ScanTxOutputs(tx: Tx, t: nat, i0: int, inmap: map<OutPoint, int>, inskip0: seq<int>, outskip0: seq<int>,
                       ghost before: seq<OutputRef>, ghost base: seq<int>)
    returns (i: int, inskip: seq<int>, outskip: seq<int>)
    requires i0 == |before|
    requires outskip0 == OutSkipOf(before, inmap) && inskip0 == base + InSkipAdds(before, inmap)
    ensures i == |before| + |tx.outputs|
    ensures outskip == OutSkipOf(before + OutputsOf(tx, t), inmap)
    ensures inskip == base + InSkipAdds(before + OutputsOf(tx, t), inmap)
  {
    ghost var outs := OutputsOf(tx, t);
    i, inskip, outskip := i0, inskip0, outskip0;
    assert before + outs[..0] == before;
    for k := 0 to |tx.outputs|
      invariant i == |before| + k
      invariant outskip == OutSkipOf(before + outs[..k], inmap)
      invariant inskip == base + InSkipAdds(before + outs[..k], inmap)
    {
      ghost var seen := before + outs[..k];
      assert before + outs[..k + 1] == seen + [outs[k]];
      SkipListsSnoc(seen, outs[k], inmap);
      if IsUnspendable(tx.outputs[k]) {
        outskip := outskip + [i];
        i := i + 1;
        continue;
      }
      var op := OutPoint(tx.txid, k);
      if op in inmap {
        inskip := inskip + [inmap[op]];
        outskip := outskip + [i];
      }
      i := i + 1;
    }
    assert outs[..|outs|] == outs;
  }

  /** The second loop of `dedupe_block`: numbers every output, lists the
      skipped ones in `outskip`, and appends to `inskip` the number of the
      input that spends each spendable output spent inside the block. */
  method ScanOutputs(txs: seq<Tx>, inmap: map<OutPoint, int>, inskip0: seq<int>)
    returns (outCount: int, inskip: seq<int>, outskip: seq<int>)
    ensures outCount == |AllOutputs(txs)|
    ensures outskip == OutSkipOf(AllOutputs(txs), inmap)
    ensures inskip == inskip0 + InSkipAdds(AllOutputs(txs), inmap)
  {
    var i := 0;
    inskip := inskip0;
    outskip := [];
    assert inskip0 + [] == inskip0;
    for t := 0 to |txs|
      invariant i == |AllOutputs(txs[..t])|
      invariant outskip == OutSkipOf(AllOutputs(txs[..t]), inmap)
      invariant inskip == inskip0 + InSkipAdds(AllOutputs(txs[..t]), inmap)
    {
      AllOutputsStep(txs, t);
      i, inskip, outskip := ScanTxOutputs(txs[t], t, i, inmap, inskip, outskip, AllOutputs(txs[..t]), inskip0);
    }
    assert txs[..|txs|] == txs;
    outCount := i;
  }

  /** `dedupe_block`: counts the inputs and outputs of the block and lists
      the inputs and outputs that the accumulator never sees. */
  method DedupeBlock(blk: Block) returns (inCount: int, outCount: int, inskip: seq<int>, outskip: seq<int>)
    requires |blk.txs| >= 1
    ensures inCount == |AllInputs(blk.txs)| && outCount == |AllOutputs(blk.txs)|
    ensures inskip == InSkip(blk) && outskip == OutSkip(blk)
  {
    var inmap;
    inCount, inmap, inskip := NumberInputs(blk);
    outCount, inskip, outskip := ScanOutputs(blk.txs, inmap, inskip);
    inskip := Sort(inskip);
  }

  lemma {:induction false} OutSkipOfShape(outs: seq<OutputRef>, inmap: map<OutPoint, int>)
    ensures StrictlyIncreasing(OutSkipOf(outs, inmap))
    ensures forall x :: x in OutSkipOf(outs, inmap) ==> 0 <= x < |outs| && Skipped(outs[x], inmap)
  {
    if outs != [] {
      var n := |outs| - 1;
      var pre := outs[..n];
      OutSkipOfShape(pre, inmap);
      var s, tail := OutSkipOf(pre, inmap), if Skipped(outs[n], inmap) then [n] else [];
      assert OutSkipOf(outs, inmap) == s + tail;
      forall x | x in s ensures 0 <= x < |outs| && Skipped(outs[x], inmap) {
        assert pre[x] == outs[x];
      }
      forall a, b | 0 <= a < b < |s + tail| ensures (s + tail)[a] < (s + tail)[b] {
        if b >= |s| {
          assert (s + tail)[a] == s[a] && s[a] in s;
        }
      }
    }
  }

  lemma {:induction false} OutSkipOfComplete(outs: seq<OutputRef>, inmap: map<OutPoint, int>, k: nat)
    requires k < |outs| && Skipped(outs[k], inmap)
    ensures k in OutSkipOf(outs, inmap)
  {
    var n := |outs| - 1;
    if k < n {
      OutSkipOfComplete(outs[..n], inmap, k);
    }
  }

  /** Output k of `outs` makes the second loop append input number `x`. */
  ghost predicate Adds(outs: seq<OutputRef>, inmap: map<OutPoint, int>, k: int, x: int)
  {
    0 <= k < |outs| && !IsUnspendable(outs[k].out) && outs[k].op in inmap && inmap[outs[k].op] == x
  }

  lemma {:induction false} InSkipAddsMembers(outs: seq<OutputRef>, inmap: map<OutPoint, int>, x: int)
    ensures x in InSkipAdds(outs, inmap) <==> exists k :: Adds(outs, inmap, k, x)
  {
    if outs != [] {
      var n := |outs| - 1;
      var pre := outs[..n];
      InSkipAddsMembers(pre, inmap, x);
      if exists k :: Adds(outs, inmap, k, x) {
        var k :| Adds(outs, inmap, k, x);
        if k < n {
          assert pre[k] == outs[k];
          assert Adds(pre, inmap, k, x);
        }
      }
      if exists k :: Adds(pre, inmap, k, x) {
        var k :| Adds(pre, inmap, k, x);
        assert pre[k] == outs[k];
        assert Adds(outs, inmap, k, x);
      }
      if !IsUnspendable(outs[n].out) && outs[n].op in inmap && inmap[outs[n].op] == x {
        assert Adds(outs, inmap, n, x);
      }
    }
  }

  lemma InSkipOfMembers(outs: seq<OutputRef>, inmap: map<OutPoint, int>, x: int)
    ensures Sorted(Sort([0] + InSkipAdds(outs, inmap)))
    ensures x in Sort([0] + InSkipAdds(outs, inmap)) <==> x == 0 || exists k :: Adds(outs, inmap, k, x)
  {
    var adds := InSkipAdds(outs, inmap);
    SortMembers([0] + adds, x);
    assert x in [0] + adds <==> x == 0 || x in adds;
    InSkipAddsMembers(outs, inmap, x);
  }

  /** Output k of the block is in the output skip list exactly when it is
      unspendable or some non-coinbase input of the same block spends it;
      the list is strictly increasing and holds only output numbers. */
  lemma OutSkipSpec(blk: Block, k: int)
    requires |blk.txs| >= 1
    ensures StrictlyIncreasing(OutSkip(blk))
    ensures forall x :: x in OutSkip(blk) ==> 0 <= x < |AllOutputs(blk.txs)|
    ensures 0 <= k < |AllOutputs(blk.txs)| ==>
      (k in OutSkip(blk) <==>
        IsUnspendable(AllOutputs(blk.txs)[k].out)
        || exists j :: |blk.txs[0].inputs| <= j < |AllInputs(blk.txs)| && AllInputs(blk.txs)[j] == AllOutputs(blk.txs)[k].op)
  {
    var outs := AllOutputs(blk.txs);
    OutSkipOfShape(outs, InMap(blk));
    if 0 <= k < |outs| {
      IndexMapSpec(AllInputs(blk.txs), |blk.txs[0].inputs|, outs[k].op);
      if Skipped(outs[k], InMap(blk)) {
        OutSkipOfComplete(outs, InMap(blk), k);
      }
    }
  }

  /** The input skip list is sorted and holds input 0 and, besides it,
      exactly the numbers the second loop appends. */
  lemma InSkipSpec(blk: Block, x: int)
    requires |blk.txs| >= 1
    ensures Sorted(InSkip(blk)) && 0 in InSkip(blk)
    ensures x in InSkip(blk) && x != 0 ==> exists k :: Adds(AllOutputs(blk.txs), InMap(blk), k, x)
  {
    var outs, inmap := AllOutputs(blk.txs), InMap(blk);
    InSkipOfMembers(outs, inmap, x);
    InSkipOfMembers(outs, inmap, 0);
  }

  /** The input that spends a spendable output of the same block is in the
      input skip list. */
  lemma InSkipComplete(blk: Block, k: int)
    requires |blk.txs| >= 1
    requires 0 <= k < |AllOutputs(blk.txs)| && !IsUnspendable(AllOutputs(blk.txs)[k].out)
    requires AllOutputs(blk.txs)[k].op in InMap(blk)
    ensures InMap(blk)[AllOutputs(blk.txs)[k].op] in InSkip(blk)
  {
    var outs, inmap := AllOutputs(blk.txs), InMap(blk);
    var x := inmap[outs[k].op];
    assert Adds(outs, inmap, k, x);
    InSkipOfMembers(outs, inmap, x);
  }

  /** Every number in the input skip list other than 0 is a non-coinbase
      input that spends an output created in the same block. */
  lemma InSkipBounds(blk: Block, x: int)
    requires |blk.txs| >= 1
    requires x in InSkip(blk) && x != 0
    ensures |blk.txs[0].inputs| <= x < |AllInputs(blk.txs)|
    ensures exists k :: 0 <= k < |AllOutputs(blk.txs)| && AllInputs(blk.txs)[x] == AllOutputs(blk.txs)[k].op
  {
    var outs := AllOutputs(blk.txs);
    InSkipSpec(blk, x);
    var k :| Adds(outs, InMap(blk), k, x);
    IndexMapSpec(AllInputs(blk.txs), |blk.txs[0].inputs|, outs[k].op);
  }

  /** Two outpoints recorded in `IndexMap` never share an input number. */
  lemma IndexMapInjective(ins: seq<OutPoint>, lo: nat, p: OutPoint, q: OutPoint)
    requires p in IndexMap(ins, lo) && q in IndexMap(ins, lo)
    requires IndexMap(ins, lo)[p] == IndexMap(ins, lo)[q]
    ensures p == q
  {
    IndexMapSpec(ins, lo, p);
    IndexMapSpec(ins, lo, q);
  }

  lemma {:induction false} InSkipAddsDistinct(outs: seq<OutputRef>, ins: seq<OutPoint>, lo: nat)
    requires DistinctOutPoints(outs)
    ensures NoDuplicates(InSkipAdds(outs, IndexMap(ins, lo)))
  {
    var m := IndexMap(ins, lo);
    if outs != [] {
      var n := |outs| - 1;
      var pre := outs[..n];
      InSkipAddsDistinct(pre, ins, lo);
      if !IsUnspendable(outs[n].out) && outs[n].op in m {
        var x := m[outs[n].op];
        InSkipAddsMembers(pre, m, x);
        if x in InSkipAdds(pre, m) {
          var k :| Adds(pre, m, k, x);
          IndexMapInjective(ins, lo, pre[k].op, outs[n].op);
          assert outs[k].op == outs[n].op;
        }
      }
    }
  }

  /** When the coinbase has an input and transaction ids are distinct, no
      input number is listed twice, so the skip list is strictly increasing. */
  lemma InSkipStrict(blk: Block)
    requires |blk.txs| >= 1 && |blk.txs[0].inputs| >= 1
    requires DistinctTxids(blk.txs)
    ensures NoDuplicates(InSkip(blk)) && StrictlyIncreasing(InSkip(blk))
  {
    var outs := AllOutputs(blk.txs);
    var cb := |blk.txs[0].inputs|;
    var adds := InSkipAdds(outs, InMap(blk));
    AllOutputsDistinct(blk.txs);
    InSkipAddsDistinct(outs, AllInputs(blk.txs), cb);
    assert 0 !in adds by {
      InSkipAddsMembers(outs, InMap(blk), 0);
      if 0 in adds {
        var k :| Adds(outs, InMap(blk), k, 0);
        IndexMapSpec(AllInputs(blk.txs), cb, outs[k].op);
      }
    }
    assert NoDuplicates([0] + adds) by {
      forall a, b | 0 <= a < b < |[0] + adds| ensures ([0] + adds)[a] != ([0] + adds)[b] {
        if a == 0 {
          assert ([0] + adds)[b] == adds[b - 1];
        } else {
          assert ([0] + adds)[a] == adds[a - 1] && ([0] + adds)[b] == adds[b - 1];
        }
      }
    }
    SortKeepsNoDuplicates([0] + adds);
  }

  // ---- block_to_del_ops ----

  /** The inputs from number `k` on that the loop of `block_to_del_ops` keeps:
      an input is dropped when its number is at the head of the remaining
      skip list, which is then popped. */
  function Consume(ins: seq<OutPoint>, k: nat, skip: seq<int>): seq<OutPoint>
    decreases |ins| - k
  {
    if k >= |ins| then []
    else if skip != [] && skip[0] == k then Consume(ins, k + 1, skip[1..])
    else [ins[k]] + Consume(ins, k + 1, skip)
  }

  function DelOps(blk: Block): seq<OutPoint>
    requires |blk.txs| >= 1
  {
    Consume(AllInputs(blk.txs), 0, InSkip(blk))
  }

  /** The inner loop of `block_to_del_ops` over the inputs of one
      transaction, which are inputs `k0` onwards of `ins`. */
  method ConsumeTxInputs(tx: Tx, k0: nat, skip0: seq<int>, delOps0: seq<OutPoint>,
                         ghost ins: seq<OutPoint>, ghost target: seq<OutPoint>)
    returns (k: nat, skip: seq<int>, delOps: seq<OutPoint>)
    requires k0 + |tx.inputs| <= |ins| && ins[k0..k0 + |tx.inputs|] == tx.inputs
    requires delOps0 + Consume(ins, k0, skip0) == target
    ensures k == k0 + |tx.inputs| && delOps + Consume(ins, k, skip) == target
  {
    k, skip, delOps := k0, skip0, delOps0;
    for j := 0 to |tx.inputs|
      invariant k == k0 + j
      invariant delOps + Consume(ins, k, skip) == target
    {
      assert ins[k] == ins[k0..k0 + |tx.inputs|][j];
      if skip != [] && skip[0] == k {
        skip := skip[1..];
        k := k + 1;
        continue;
      }
      delOps := delOps + [tx.inputs[j]];
      k := k + 1;
    }
  }

  /** `block_to_del_ops` */
  method BlockToDelOps(blk: Block) returns (delOps: seq<OutPoint>)
    requires |blk.txs| >= 1
    ensures delOps == DelOps(blk)
  {
    var txs := blk.txs;
    var _, _, inskip, _ := DedupeBlock(blk);
    ghost var ins := AllInputs(txs);
    ghost var target := Consume(ins, 0, inskip);
    delOps := [];
    var inputInBlock: nat := 0;
    for t := 0 to |txs|
      invariant inputInBlock == |AllInputs(txs[..t])|
      invariant delOps + Consume(ins, inputInBlock, inskip) == target
    {
      AllInputsStep(txs, t);
      InputsSlice(txs, t);
      inputInBlock, inskip, delOps := ConsumeTxInputs(txs[t], inputInBlock, inskip, delOps, ins, target);
    }
    assert txs[..|txs|] == txs;
  }

  /** The inputs from number `k` on whose numbers are not listed in `skip`:
      the reference meaning of the del-op list. */
  function Unskipped(ins: seq<OutPoint>, k: nat, skip: seq<int>): seq<OutPoint>
    decreases |ins| - k
  {
    if k >= |ins| then [] else (if k in skip then [] else [ins[k]]) + Unskipped(ins, k + 1, skip)
  }

  lemma {:induction false} UnskippedMembers(ins: seq<OutPoint>, k: nat, skip: seq<int>, p: OutPoint)
    ensures p in Unskipped(ins, k, skip) <==> exists j :: k <= j < |ins| && j !in skip && ins[j] == p
    decreases |ins| - k
  {
    if k < |ins| {
      UnskippedMembers(ins, k + 1, skip, p);
    }
  }

  lemma {:induction false} UnskippedAgree(ins: seq<OutPoint>, k: nat, a: seq<int>, b: seq<int>)
    requires forall x :: x >= k ==> (x in a <==> x in b)
    ensures Unskipped(ins, k, a) == Unskipped(ins, k, b)
    decreases |ins| - k
  {
    if k < |ins| {
      UnskippedAgree(ins, k + 1, a, b);
    }
  }

  /** Popping the head of a strictly increasing skip list agrees with
      skipping every listed number. */
  lemma {:induction false} ConsumeUnskipped(ins: seq<OutPoint>, k: nat, skip: seq<int>)
    requires StrictlyIncreasing(skip)
    requires forall x :: x in skip ==> x >= k
    ensures Consume(ins, k, skip) == Unskipped(ins, k, skip)
    decreases |ins| - k
  {
    if k < |ins| {
      if skip != [] && skip[0] == k {
        var tail := skip[1..];
        assert forall x :: x in tail ==> x >= k + 1 by {
          forall x | x in tail ensures x >= k + 1 {
            var i :| 0 <= i < |tail| && tail[i] == x;
            assert skip[i + 1] == x;
          }
        }
        ConsumeUnskipped(ins, k + 1, tail);
        assert skip == [k] + tail;
        UnskippedAgree(ins, k + 1, tail, skip);
      } else {
        forall x | x in skip ensures x >= k + 1 {
          var i :| 0 <= i < |skip| && skip[i] == x;
          assert skip[0] in skip;
          if i > 0 {
            assert skip[0] < skip[i];
          }
        }
        ConsumeUnskipped(ins, k + 1, skip);
      }
    }
  }

  /** With a coinbase input and distinct transaction ids, an input becomes a
      del op exactly when it is not input 0 and it does not spend an output
      created in the same block (for an outpoint spent twice in the block,
      the last spend is the one dropped). */
  lemma DelOpsSpec(blk: Block, j: int)
    requires |blk.txs| >= 1 && |blk.txs[0].inputs| >= 1
    requires DistinctTxids(blk.txs)
    requires 0 <= j < |AllInputs(blk.txs)|
    ensures DelOps(blk) == Unskipped(AllInputs(blk.txs), 0, InSkip(blk))
    ensures j !in InSkip(blk) ==> AllInputs(blk.txs)[j] in DelOps(blk)
  {
    var ins := AllInputs(blk.txs);
    InSkipStrict(blk);
    forall x | x in InSkip(blk) ensures x >= 0 {
      if x != 0 {
        InSkipBounds(blk, x);
      }
    }
    ConsumeUnskipped(ins, 0, InSkip(blk));
    UnskippedMembers(ins, 0, InSkip(blk), ins[j]);
  }

  /** An outpoint created by a spendable output and spent by exactly one
      non-coinbase input of the same block is not a del op. */
  lemma SameBlockSpendNotDeleted(blk: Block, k: int, j: int)
    requires |blk.txs| >= 1 && |blk.txs[0].inputs| >= 1
    requires DistinctTxids(blk.txs)
    requires 0 <= k < |AllOutputs(blk.txs)| && !IsUnspendable(AllOutputs(blk.txs)[k].out)
    requires |blk.txs[0].inputs| <= j < |AllInputs(blk.txs)| && AllInputs(blk.txs)[j] == AllOutputs(blk.txs)[k].op
    requires forall i :: 0 <= i < |AllInputs(blk.txs)| && i != j ==> AllInputs(blk.txs)[i] != AllOutputs(blk.txs)[k].op
    ensures AllOutputs(blk.txs)[k].op !in DelOps(blk)
    ensures k in OutSkip(blk)
  {
    var ins, outs := AllInputs(blk.txs), AllOutputs(blk.txs);
    var op := outs[k].op;
    OutSkipSpec(blk, k);
    IndexMapSpec(ins, |blk.txs[0].inputs|, op);
    assert InMap(blk)[op] == j;
    InSkipComplete(blk, k);
    DelOpsSpec(blk, j);
    UnskippedMembers(ins, 0, InSkip(blk), op);

  }

  /** A block holding only a coinbase with one input deletes nothing: its
      single input is number 0, which is always skipped. */
  lemma CoinbaseOnlyBlock(blk: Block)
    requires |blk.txs| == 1 && |blk.txs[0].inputs| == 1
    ensures DelOps(blk) == []
  {
    var ins := AllInputs(blk.txs);
    assert blk.txs[..0] == [];
    assert AllInputs(blk.txs[..0]) == [];
    assert ins == blk.txs[0].inputs;
    InSkipSpec(blk, 0);
    var s := InSkip(blk);
    forall x | x in s ensures x == 0 {
      if x != 0 {
        InSkipBounds(blk, x);
      }
    }
    assert s[0] in s;
    assert Consume(ins, 0, s) == Consume(ins, 1, s[1..]);
  }

  // ---- prefix_len16 / pop_prefix_len16 ----

  /** `prefix_len16`: the length as a big-endian u16, then the bytes; too
      long an input makes `struct.pack` raise. */
  function PrefixLen16(b: seq<Byte>): (r: Result<seq<Byte>>)
    ensures r.Ok? <==> |b| < TWO16
    ensures r.Ok? ==> |r.value| == |b| + 2 && r.value[2..] == b && FromBE(r.value[..2]) == |b|
  {
    if InU16(|b|) then
      var len := EncU16(|b|);
      U16RoundTrip(|b|, b);
      assert (len + b)[..2] == len;
      Ok(len + b)
    else Err(PackRange)
  }

  /** `pop_prefix_len16`: the payload the prefix announces, and what follows
      it. */
  function PopPrefixLen16(b: seq<Byte>): (r: Result<(seq<Byte>, seq<Byte>)>)
    ensures |b| < 2 ==> r == Err(PrefixTooShort)
    ensures |b| >= 2 && FromBE(b[..2]) > |b| - 2 ==> r == Err(PrefixOverrun)
    ensures |b| >= 2 && FromBE(b[..2]) <= |b| - 2 ==> r.Ok?
    ensures r.Ok? ==> |b| >= 2 && |r.value.0| == FromBE(b[..2]) && b == b[..2] + r.value.0 + r.value.1
  {
    if |b| < 2 then Err(PrefixTooShort)
    else
      var l := FromBE(b[..2]);
      var payload := b[2..];
      if l > |payload| then Err(PrefixOverrun)
      else
        assert b == b[..2] + payload[..l] + payload[l..];
        Ok((payload[..l], payload[l..]))
  }

  /** Popping the prefix gives back exactly what was prefixed, and leaves
      whatever followed untouched. */
  lemma PrefixRoundTrip(b: seq<Byte>, rest: seq<Byte>)
    requires |b| < TWO16
    ensures PopPrefixLen16(PrefixLen16(b).value + rest) == Ok((b, rest))
  {
    var p := PrefixLen16(b).value;
    assert (p + rest)[..2] == p[..2];
    assert (p + rest)[2..] == b + rest;
    assert (b + rest)[..|b|] == b;
    assert (b + rest)[|b|..] == rest;
  }

  // ---- outpoint_to_bytes (util/utils.py) ----

  /** The txid bytes as stored, then the index as a big-endian u32. */
  function OutPointToBytes(op: OutPoint): (r: Result<seq<Byte>>)
    ensures r.Ok? <==> InU32(op.index)
    ensures r.Ok? ==> |r.value| == HashSize + 4 && r.value[..HashSize] == op.hash && FromBE(r.value[HashSize..]) == op.index
  {
    if InU32(op.index) then
      var idx := EncU32(op.index);
      U32RoundTrip(op.index, []);
      assert (op.hash + idx)[HashSize..] == idx;
      assert idx + [] == idx;
      Ok(op.hash + idx)
    else Err(PackRange)
  }

  lemma OutPointToBytesInjective(a: OutPoint, b: OutPoint)
    requires OutPointToBytes(a).Ok? && OutPointToBytes(a) == OutPointToBytes(b)
    ensures a == b
  {
  }

  // ---- check_magic_byte ----

  const TestnetMagic: seq<Byte> := [0x0b, 0x11, 0x09, 0x07]
  const MainnetMagic: seq<Byte> := [0xf9, 0xbe, 0xb4, 0xd9]
  const RegtestMagic: seq<Byte> := [0xfa, 0xbf, 0xb5, 0xda]
  const SignetMagic: seq<Byte> := [0x0a, 0x03, 0xcf, 0x40]

  /** `check_magic_byte`: whether the four bytes are one of the four
      networks' magic; the message printed on a mismatch is left out. */
  function CheckMagicByte(given: seq<Byte>): (ok: bool)
    ensures ok ==> |given| == 4
    ensures ok <==> given == TestnetMagic || given == MainnetMagic || given == RegtestMagic || given == SignetMagic
  {
    given in {TestnetMagic, MainnetMagic, RegtestMagic, SignetMagic}
  }
}
