/** csn/idb.py: the compact-state node's initial block download. Each block
    taken from the queue is checked against its Utreexo data, then scanned
    for outputs paying a watched address (which join the node's UTXO store)
    and inputs spending a stored outpoint (which leave it); `total_score`
    follows the amounts. The accumulator itself is not modelled. */
module Idb {
  import opened Common
  import opened Hashes
  import opened Chain
  import Btcacc
  import Util
  import UMsgBlock

  // ---- scan_block, as a function of values ----

  /** The part of the node that `scan_block` changes: the UTXO store, the
      score and the transaction channel (absent when `tx_chan` is None). */
  datatype Wallet = Wallet(store: map<OutPoint, Btcacc.LeafData>, score: int, txChan: Option<seq<Tx>>)

  /** `tx_chan.append(tx)` when there is a channel. */
  function Send(chan: Option<seq<Tx>>, tx: Tx): Option<seq<Tx>>
  {
    if chan.Some? then Some(chan.value + [tx]) else None
  }

  /** One input of `tx` spending `op`: a stored outpoint is dropped and its
      amount deducted; any other input changes nothing. */
  function LoseInput(w: Wallet, tx: Tx, op: OutPoint): Wallet
  {
    if op in w.store then Wallet(w.store - {op}, w.score - w.store[op].amt, Send(w.txChan, tx)) else w
  }

  /** The inputs `ins` of `tx`, in order. */
  function LoseInputs(w: Wallet, tx: Tx, ins: seq<OutPoint>): Wallet
  {
    if ins == [] then w else LoseInput(LoseInputs(w, tx, ins[..|ins| - 1]), tx, ins[|ins| - 1])
  }

  /** The length of a pay-to-witness-key-hash script: version, push, 20 bytes. */
  const AddressScriptSize := 22

  /** An output pays a watched address: its script has 22 bytes and bytes
      2 to 21 are in `watch`. */
  predicate Pays(out: TxOut, watch: set<seq<Byte>>)
  {
    |out.pkScript| == AddressScriptSize && out.pkScript[2..AddressScriptSize] in watch
  }

  /** `LeafData(tx_hash=..., index=..., amt=...)`: every other field keeps
      its default. */
  function GainedLeaf(txid: Hash, index: int, amt: int): Btcacc.LeafData
  {
    Btcacc.DefaultLeafData.(txHash := txid, index := index, amt := amt)
  }

  /** Output `i` of `tx`: one that pays a watched address is stored (over any
      entry already there) and its value added to the score. */
  function GainOutput(w: Wallet, tx: Tx, i: nat, watch: set<seq<Byte>>): Wallet
    requires i < |tx.outputs|
  {
    var out := tx.outputs[i];
    if Pays(out, watch) then
      Wallet(w.store[OutPoint(tx.txid, i) := GainedLeaf(tx.txid, i, out.value)], w.score + out.value, Send(w.txChan, tx))
    else w
  }

  /** The first `n` outputs of `tx`, in order. */
  function GainOutputs(w: Wallet, tx: Tx, n: nat, watch: set<seq<Byte>>): Wallet
    requires n <= |tx.outputs|
  {
    if n == 0 then w else GainOutput(GainOutputs(w, tx, n - 1, watch), tx, n - 1, watch)
  }

  /** One transaction: its inputs first, then its outputs. */
  function ScanTx(w: Wallet, tx: Tx, watch: set<seq<Byte>>): Wallet
  {
    GainOutputs(LoseInputs(w, tx, tx.inputs), tx, |tx.outputs|, watch)
  }

  function ScanTxs(w: Wallet, txs: seq<Tx>, watch: set<seq<Byte>>): Wallet
  {
    if txs == [] then w else ScanTx(ScanTxs(w, txs[..|txs| - 1], watch), txs[|txs| - 1], watch)
  }

  /** The first `n` blocks of `ublocks`, in order. */
  function ScanBlocks(w: Wallet, ublocks: seq<UMsgBlock.UBlock>, n: nat, watch: set<seq<Byte>>): Wallet
    requires n <= |ublocks|
  {
    if n == 0 then w
    else ScanTxs(ScanBlocks(w, ublocks, n - 1, watch), ublocks[n - 1].block.txs, watch)
  }

  // ---- the score invariant ----

  /** The sum of the amounts in the store. */
  ghost function Total(m: map<OutPoint, Btcacc.LeafData>): int
    decreases m.Keys
  {
    if m == map[] then 0
    else
      var k :| k in m;
      m[k].amt + Total(m - {k})
  }

  /** The sum does not depend on which entry is taken first. */
  lemma {:induction false} TotalRemove(m: map<OutPoint, Btcacc.LeafData>, k: OutPoint)
    requires k in m
    ensures Total(m) == m[k].amt + Total(m - {k})
    decreases m.Keys
  {
    var j :| j in m && Total(m) == m[j].amt + Total(m - {j});
    if j != k {
      TotalRemove(m - {j}, k);
      TotalRemove(m - {k}, j);
      assert m - {j} - {k} == m - {k} - {j};
    }
  }

  lemma TotalInsert(m: map<OutPoint, Btcacc.LeafData>, k: OutPoint, v: Btcacc.LeafData)
    requires k !in m
    ensures Total(m[k := v]) == v.amt + Total(m)
  {
    TotalRemove(m[k := v], k);
    assert m[k := v] - {k} == m;
  }

  /** `total_score` is the sum of the amounts in the store. */
  ghost predicate Consistent(w: Wallet)
  {
    w.score == Total(w.store)
  }

  lemma {:induction false} LoseInputsConsistent(w: Wallet, tx: Tx, ins: seq<OutPoint>)
    requires Consistent(w)
    ensures Consistent(LoseInputs(w, tx, ins))
    ensures LoseInputs(w, tx, ins).store.Keys <= w.store.Keys
  {
    if ins != [] {
      var pre := LoseInputs(w, tx, ins[..|ins| - 1]);
      LoseInputsConsistent(w, tx, ins[..|ins| - 1]);
      var op := ins[|ins| - 1];
      if op in pre.store {
        TotalRemove(pre.store, op);
      }
    }
  }

  lemma {:induction false} GainOutputsConsistent(w: Wallet, tx: Tx, n: nat, watch: set<seq<Byte>>)
    requires n <= |tx.outputs|
    requires Consistent(w)
    requires forall i :: OutPoint(tx.txid, i) !in w.store
    ensures Consistent(GainOutputs(w, tx, n, watch))
    ensures forall op :: op in GainOutputs(w, tx, n, watch).store ==>
      op in w.store || (op.hash == tx.txid && 0 <= op.index < n)
  {
    if n > 0 {
      GainOutputsConsistent(w, tx, n - 1, watch);
      var pre := GainOutputs(w, tx, n - 1, watch);
      if Pays(tx.outputs[n - 1], watch) {
        TotalInsert(pre.store, OutPoint(tx.txid, n - 1), GainedLeaf(tx.txid, n - 1, tx.outputs[n - 1].value));
      }
    }
  }

  /** `scan_block` keeps `total_score` equal to the sum of the stored amounts,
      as long as no output it stores is already a key of the store: the
      transactions have distinct ids and none of their outpoints is stored
      before the scan. The store then holds only outpoints it held before
      and outpoints of the scanned transactions. */
  lemma {:induction false} ScanTxsConsistent(w: Wallet, txs: seq<Tx>, watch: set<seq<Byte>>)
    requires Consistent(w)
    requires DistinctTxids(txs)
    requires forall t, i :: 0 <= t < |txs| ==> OutPoint(txs[t].txid, i) !in w.store
    ensures Consistent(ScanTxs(w, txs, watch))
    ensures forall op :: op in ScanTxs(w, txs, watch).store ==>
      op in w.store || exists t :: 0 <= t < |txs| && op.hash == txs[t].txid
  {
    if txs != [] {
      var n := |txs| - 1;
      var tx := txs[n];
      assert DistinctTxids(txs[..n]);
      ScanTxsConsistent(w, txs[..n], watch);
      var pre := ScanTxs(w, txs[..n], watch);
      LoseInputsConsistent(pre, tx, tx.inputs);
      var lost := LoseInputs(pre, tx, tx.inputs);
      assert forall t :: 0 <= t < n ==> txs[..n][t].txid != tx.txid;
      GainOutputsConsistent(lost, tx, |tx.outputs|, watch);
    }
  }

  /** What one transaction does to the store: every output paying a watched
      address is stored with its id, index and value; a stored outpoint that
      one of its inputs spends is gone unless the transaction recreates it;
      any other entry is untouched. */
  lemma ScanTxEffect(w: Wallet, tx: Tx, watch: set<seq<Byte>>, op: OutPoint)
    ensures var r := ScanTx(w, tx, watch);
      && (op.hash == tx.txid && 0 <= op.index < |tx.outputs| && Pays(tx.outputs[op.index], watch) ==>
            op in r.store && r.store[op] == GainedLeaf(tx.txid, op.index, tx.outputs[op.index].value))
      && (op in tx.inputs && op.hash != tx.txid ==> op !in r.store)
      && (op !in tx.inputs && op.hash != tx.txid ==> (op in r.store <==> op in w.store))
      && (op !in tx.inputs && op.hash != tx.txid && op in w.store ==> r.store[op] == w.store[op])
  {
    LoseInputsEffect(w, tx, tx.inputs, op);
    GainOutputsEffect(LoseInputs(w, tx, tx.inputs), tx, |tx.outputs|, watch, op);
  }

  lemma {:induction false} LoseInputsEffect(w: Wallet, tx: Tx, ins: seq<OutPoint>, op: OutPoint)
    ensures op in ins ==> op !in LoseInputs(w, tx, ins).store
    ensures op !in ins ==> (op in LoseInputs(w, tx, ins).store <==> op in w.store)
    ensures op !in ins && op in w.store ==> LoseInputs(w, tx, ins).store[op] == w.store[op]
  {
    if ins != [] {
      var pre := ins[..|ins| - 1];
      LoseInputsEffect(w, tx, pre, op);
      assert ins == pre + [ins[|ins| - 1]];
      if op in ins && op != ins[|ins| - 1] {
        assert op in pre;
      }
    }
  }

  lemma {:induction false} GainOutputsEffect(w: Wallet, tx: Tx, n: nat, watch: set<seq<Byte>>, op: OutPoint)
    requires n <= |tx.outputs|
    ensures op.hash == tx.txid && 0 <= op.index < n && Pays(tx.outputs[op.index], watch) ==>
      op in GainOutputs(w, tx, n, watch).store
      && GainOutputs(w, tx, n, watch).store[op] == GainedLeaf(tx.txid, op.index, tx.outputs[op.index].value)
    ensures op.hash != tx.txid ==> (op in GainOutputs(w, tx, n, watch).store <==> op in w.store)
    ensures op.hash != tx.txid && op in w.store ==> GainOutputs(w, tx, n, watch).store[op] == w.store[op]
  {
    if n > 0 {
      GainOutputsEffect(w, tx, n - 1, watch, op);
    }
  }

  // ---- the Csn object ----

  /** `ibd_thread` stops after this many blocks: all of the queue, or, when
      `quit_after` is not -1, the first block count that reaches it (at
      least one block, since the count is tested after a block). */
  function StopCount(queued: nat, quitAfter: int): (n: nat)
    ensures n <= queued
    ensures quitAfter <= -1 ==> n == queued
    ensures quitAfter > -1 ==> (n == queued || (n >= 1 && n >= quitAfter))
    ensures quitAfter > -1 && n >= 2 ==> n - 1 < quitAfter
  {
    if quitAfter > -1 then
      (if quitAfter < 1 then (if queued < 1 then queued else 1)
       else if queued < quitAfter then queued else quitAfter)
    else queued
  }

  /** `cs` holds the outcome of the proof check of each block of `ublocks`;
      a block without transactions, which is never checked, gets Pass. */
  ghost predicate Checked(ublocks: seq<UMsgBlock.UBlock>, cs: seq<Outcome>)
  {
    && |cs| == |ublocks|
    && (forall i {:trigger UMsgBlock.SanityCheck(ublocks[i])} ::
          0 <= i < |ublocks| && |ublocks[i].block.txs| >= 1 ==> cs[i] == UMsgBlock.SanityCheck(ublocks[i]))
    && (forall i {:trigger ublocks[i].block.txs} ::
          0 <= i < |ublocks| && |ublocks[i].block.txs| == 0 ==> cs[i] == Pass)
  }

  /** The outcome of the proof check of each block. `Checked` pins down every
      position, so the value chosen is the one `CheckAll` lists. The choice
      keeps the check's definition out of sight of the callers' proofs. */
  ghost function Checks(ublocks: seq<UMsgBlock.UBlock>): (cs: seq<Outcome>)
    ensures Checked(ublocks, cs)
  {
    var all := CheckAll(ublocks);
    assert Checked(ublocks, all);
    var cs :| Checked(ublocks, cs);
    cs
  }

  /** Each block's proof check, position by position. */
  ghost function CheckAll(ublocks: seq<UMsgBlock.UBlock>): seq<Outcome>
  {
    seq(|ublocks|, i requires 0 <= i < |ublocks| =>
      if |ublocks[i].block.txs| >= 1 then UMsgBlock.SanityCheck(ublocks[i]) else Pass)
  }

  /** There is only one sequence of outcomes that `Checked` accepts. */
  lemma ChecksIsCheckAll(ublocks: seq<UMsgBlock.UBlock>)
    ensures Checks(ublocks) == CheckAll(ublocks)
  {
    var cs, all := Checks(ublocks), CheckAll(ublocks);
    forall i | 0 <= i < |ublocks|
      ensures cs[i] == all[i]
    {
      if |ublocks[i].block.txs| >= 1 {
        assert cs[i] == UMsgBlock.SanityCheck(ublocks[i]);
      }
    }
  }

  lemma ChecksAt(ublocks: seq<UMsgBlock.UBlock>, i: nat)
    requires i < |ublocks| && |ublocks[i].block.txs| >= 1
    ensures Checks(ublocks)[i] == UMsgBlock.SanityCheck(ublocks[i])
  {
  }

  lemma FirstFailureAt(cs: seq<Outcome>, n: nat, f: nat)
    requires f <= n <= |cs|
    requires forall i :: 0 <= i < f ==> cs[i].Pass?
    requires f < n ==> cs[f].Fail?
    ensures FirstFailure(cs, n) == f
  {
  }

  function FirstFailure(cs: seq<Outcome>, n: nat): (f: nat)
    requires n <= |cs|
    ensures f <= n
    ensures forall i :: 0 <= i < f ==> cs[i].Pass?
    ensures f < n ==> cs[f].Fail?
  {
    if n == 0 then 0
    else if FirstFailure(cs, n - 1) < n - 1 then FirstFailure(cs, n - 1)
    else if cs[n - 1].Fail? then n - 1
    else n
  }

  /** The heights `ibd_thread` sends on `height_chan`: one per processed
      block, before the height is raised. */
  function Heights(from: int, count: nat): (hs: seq<int>)
    ensures |hs| == count && forall i :: 0 <= i < count ==> hs[i] == from + i
  {
    if count == 0 then [] else Heights(from, count - 1) + [from + count - 1]
  }

  /** `height_chan` after `count` blocks from height `from`. */
  function SendHeights(chan: Option<seq<int>>, from: int, count: nat): Option<seq<int>>
  {
    if count == 0 then chan
    else
      var sent := SendHeights(chan, from, count - 1);
      if sent.Some? then Some(sent.value + [from + count - 1]) else None
  }

  lemma {:induction false} SentHeights(chan: Option<seq<int>>, from: int, count: nat)
    ensures SendHeights(chan, from, count) == (if chan.Some? then Some(chan.value + Heights(from, count)) else None)
  {
    if count > 0 {
      SentHeights(chan, from, count - 1);
      if chan.Some? {
        assert Heights(from, count) == Heights(from, count - 1) + [from + count - 1];
        assert chan.value + Heights(from, count) == (chan.value + Heights(from, count - 1)) + [from + count - 1];
      }
    } else if chan.Some? {
      assert chan.value + Heights(from, 0) == chan.value;
    }
  }

  class Csn {
    var currentHeight: int
    var remoteHost: string
    var heightChan: Option<seq<int>>
    var totalScore: int
    var utxoStore: map<OutPoint, Btcacc.LeafData>
    var watchAddrs: set<seq<Byte>>
    var txChan: Option<seq<Tx>>
    var checkSignatures: bool

    /** `Csn()`: height 0, no channels, an empty store and a zero score.
        The pollard and the chain parameters are not modelled. */
    constructor()
      ensures currentHeight == 0 && remoteHost == "" && heightChan == None
      ensures totalScore == 0 && utxoStore == map[] && watchAddrs == {} && txChan == None
      ensures !checkSignatures
    {
      currentHeight := 0;
      remoteHost := "";
      heightChan := None;
      totalScore := 0;
      utxoStore := map[];
      watchAddrs := {};
      txChan := None;
      checkSignatures := false;
    }

    function ScanState(): Wallet
      reads this
    {
      Wallet(utxoStore, totalScore, txChan)
    }

    /** The scan loop over the inputs of `tx`. */
    method LoseTxInputs(tx: Tx)
      modifies this
      ensures ScanState() == LoseInputs(old(ScanState()), tx, tx.inputs)
      ensures currentHeight == old(currentHeight) && heightChan == old(heightChan) && watchAddrs == old(watchAddrs)
      ensures remoteHost == old(remoteHost) && checkSignatures == old(checkSignatures)
    {
      for j := 0 to |tx.inputs|
        invariant ScanState() == LoseInputs(old(ScanState()), tx, tx.inputs[..j])
        invariant currentHeight == old(currentHeight) && heightChan == old(heightChan) && watchAddrs == old(watchAddrs)
        invariant remoteHost == old(remoteHost) && checkSignatures == old(checkSignatures)
      {
        assert tx.inputs[..j + 1][..j] == tx.inputs[..j];
        var op := tx.inputs[j];
        if op !in utxoStore {
          continue;
        }
        var lostTxo := utxoStore[op];
        utxoStore := utxoStore - {op};
        totalScore := totalScore - lostTxo.amt;
        if txChan.Some? {
          txChan := Some(txChan.value + [tx]);
        }
      }
      assert tx.inputs[..|tx.inputs|] == tx.inputs;
    }

    /** The scan loop over the outputs of `tx`; `register_out_point` does
        nothing in this class. */
    method GainTxOutputs(tx: Tx)
      modifies this
      ensures ScanState() == GainOutputs(old(ScanState()), tx, |tx.outputs|, watchAddrs)
      ensures currentHeight == old(currentHeight) && heightChan == old(heightChan) && watchAddrs == old(watchAddrs)
      ensures remoteHost == old(remoteHost) && checkSignatures == old(checkSignatures)
    {
      for i := 0 to |tx.outputs|
        invariant ScanState() == GainOutputs(old(ScanState()), tx, i, watchAddrs)
        invariant currentHeight == old(currentHeight) && heightChan == old(heightChan) && watchAddrs == old(watchAddrs)
        invariant remoteHost == old(remoteHost) && checkSignatures == old(checkSignatures)
      {
        var out := tx.outputs[i];
        if |out.pkScript| != AddressScriptSize {
          continue;
        }
        var curAddr := out.pkScript[2..AddressScriptSize];
        if curAddr in watchAddrs {
          var newOut := OutPoint(tx.txid, i);
          utxoStore := utxoStore[newOut := GainedLeaf(newOut.hash, newOut.index, out.value)];
          totalScore := totalScore + out.value;
          if txChan.Some? {
            txChan := Some(txChan.value + [tx]);
          }
        }
      }
    }

    /** `scan_block`: every transaction of the block in order. */
    method ScanBlock(block: Block)
      modifies this
      ensures ScanState() == ScanTxs(old(ScanState()), block.txs, watchAddrs)
      ensures currentHeight == old(currentHeight) && heightChan == old(heightChan) && watchAddrs == old(watchAddrs)
      ensures remoteHost == old(remoteHost) && checkSignatures == old(checkSignatures)
    {
      var txs := block.txs;
      for t := 0 to |txs|
        invariant ScanState() == ScanTxs(old(ScanState()), txs[..t], watchAddrs)
        invariant currentHeight == old(currentHeight) && heightChan == old(heightChan) && watchAddrs == old(watchAddrs)
        invariant remoteHost == old(remoteHost) && checkSignatures == old(checkSignatures)
      {
        assert txs[..t + 1][..t] == txs[..t];
        LoseTxInputs(txs[t]);
        GainTxOutputs(txs[t]);
      }
      assert txs[..|txs|] == txs;
    }

    /** `put_block_in_pollard`, up to where the source stops: `dedupe_block`
        on the block, whose results are unused, then the block's proof
        check, whose exception propagates. */
    method PutBlockInPollard(ub: UMsgBlock.UBlock) returns (res: Outcome)
      requires |ub.block.txs| >= 1
      ensures res == UMsgBlock.SanityCheck(ub)
    {
      var _, outCount, _, outSkip := Util.DedupeBlock(ub.block);
      res := UMsgBlock.ProofSanity(ub);
    }

    /** Block `k` of `queue`, in one round of `ibd_thread`: its proof check,
        then its height on `height_chan`, then `scan_block`. A failed check
        changes nothing. */
    method ProcessBlock(queue: seq<UMsgBlock.UBlock>, k: nat) returns (r: Outcome)
      requires forall i :: 0 <= i < |queue| ==> |queue[i].block.txs| >= 1
      requires k < |queue|
      modifies this
      ensures r == Checks(queue)[k]
      ensures r.Fail? ==> ScanState() == old(ScanState()) && heightChan == old(heightChan)
      ensures r.Pass? ==> ScanState() == ScanTxs(old(ScanState()), queue[k].block.txs, watchAddrs)
      ensures r.Pass? ==> heightChan == (if old(heightChan).Some? then Some(old(heightChan).value + [currentHeight]) else None)
      ensures currentHeight == old(currentHeight) && watchAddrs == old(watchAddrs)
      ensures remoteHost == old(remoteHost) && checkSignatures == old(checkSignatures)
    {
      ChecksAt(queue, k);
      r := PutBlockInPollard(queue[k]);
      if r.Fail? {
        return;
      }
      if heightChan.Some? {
        heightChan := Some(heightChan.value + [currentHeight]);
      }
      ScanBlock(queue[k].block);
    }

    /** `ibd_thread` over the blocks `queue`: each block is checked, its
        height sent, then scanned, and the height raised by one. The loop
        ends on an empty queue or once `quit_after` blocks are done, with
        one True on `sig_chan`; a failed check ends it with the exception
        and nothing sent. */
    method IbdThread(queue: seq<UMsgBlock.UBlock>, quitAfter: int) returns (res: Outcome, sig: seq<bool>)
      requires forall i :: 0 <= i < |queue| ==> |queue[i].block.txs| >= 1
      modifies this
      ensures var f := FirstFailure(Checks(queue), StopCount(|queue|, quitAfter));
        && res == (if f < StopCount(|queue|, quitAfter) then Checks(queue)[f] else Pass)
        && sig == (if res.Pass? then [true] else [])
        && currentHeight == old(currentHeight) + f
        && ScanState() == ScanBlocks(old(ScanState()), queue, f, watchAddrs)
        && heightChan == (if old(heightChan).Some? then Some(old(heightChan).value + Heights(old(currentHeight), f)) else None)
      ensures watchAddrs == old(watchAddrs) && remoteHost == old(remoteHost) && checkSignatures == old(checkSignatures)
    {
      ghost var n := StopCount(|queue|, quitAfter);
      ghost var cs := Checks(queue);
      ghost var w0 := ScanState();
      ghost var h0 := currentHeight;
      ghost var chan0 := heightChan;
      var stop := false;
      var blockCount := 0;
      sig := [];
      while !stop
        invariant 0 <= blockCount <= n
        invariant forall i :: 0 <= i < blockCount ==> cs[i].Pass?
        invariant stop ==> blockCount == n && sig == [true]
        invariant !stop ==> sig == [] && (quitAfter > -1 ==> blockCount == 0 || blockCount < quitAfter)
        invariant currentHeight == h0 + blockCount
        invariant ScanState() == ScanBlocks(w0, queue, blockCount, watchAddrs)
        invariant heightChan == SendHeights(chan0, h0, blockCount)
        invariant watchAddrs == old(watchAddrs) && remoteHost == old(remoteHost) && checkSignatures == old(checkSignatures)
        decreases |queue| - blockCount
      {
        // the queue is empty once every block has been taken
        if blockCount == |queue| {
          sig := sig + [true];
          break;
        }
        var r := ProcessBlock(queue, blockCount);
        if r.Fail? {
          FirstFailureAt(cs, n, blockCount);
          SentHeights(chan0, h0, blockCount);
          return r, sig;
        }
        blockCount := blockCount + 1;
        if quitAfter > -1 && blockCount >= quitAfter {
          sig := sig + [true];
          stop := true;
        }
        currentHeight := currentHeight + 1;
      }
      FirstFailureAt(cs, n, blockCount);
      SentHeights(chan0, h0, blockCount);
      res := Pass;
    }
  }
}
