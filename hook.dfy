/** csn/hook.py: the compact-state node as a wallet sees it. `Csn` keeps the
    outpoints and addresses it watches as dictionaries whose values are
    always True; registering sets an entry, unregistering removes it. */
module Hook {
  import opened Common
  import opened Hashes
  import opened Chain
  import Btcacc

  // ---- the watch dictionaries ----

  /** `d[key] = True`. */
  function Watch<K>(d: map<K, bool>, key: K): map<K, bool>
  {
    d[key := true]
  }

  /** `if key in d: del d[key]`. */
  function Unwatch<K>(d: map<K, bool>, key: K): map<K, bool>
  {
    if key in d then d - {key} else d
  }

  /** Only True is ever stored. */
  ghost predicate AllTrue<K>(d: map<K, bool>)
  {
    forall k :: k in d ==> d[k]
  }

  /** After registering, the key is watched; no other key changes. */
  lemma WatchEffect<K>(d: map<K, bool>, key: K, other: K)
    ensures key in Watch(d, key) && Watch(d, key)[key]
    ensures other != key ==> (other in Watch(d, key) <==> other in d)
    ensures other != key && other in d ==> Watch(d, key)[other] == d[other]
  {
  }

  /** After unregistering, the key is not watched; no other key changes. An
      absent key is no error. */
  lemma UnwatchEffect<K>(d: map<K, bool>, key: K, other: K)
    ensures key !in Unwatch(d, key)
    ensures key !in d ==> Unwatch(d, key) == d
    ensures other != key ==> (other in Unwatch(d, key) <==> other in d)
    ensures other != key && other in d ==> Unwatch(d, key)[other] == d[other]
  {
  }

  /** Registering and unregistering keep every value True. */
  lemma WatchKeepsAllTrue<K>(d: map<K, bool>, key: K)
    requires AllTrue(d)
    ensures AllTrue(Watch(d, key)) && AllTrue(Unwatch(d, key))
  {
  }

  /** Unregistering undoes registering a key that was not watched, and a
      second registration or removal changes nothing. */
  lemma WatchUnwatch<K>(d: map<K, bool>, key: K)
    ensures key !in d ==> Unwatch(Watch(d, key), key) == d
    ensures Watch(Watch(d, key), key) == Watch(d, key)
    ensures Unwatch(Unwatch(d, key), key) == Unwatch(d, key)
  {
    if key !in d {
      assert Unwatch(Watch(d, key), key) == d[key := true] - {key};
      assert d[key := true] - {key} == d;
    }
  }

  /** Registrations of different keys commute. */
  lemma WatchCommutes<K>(d: map<K, bool>, a: K, b: K)
    ensures Watch(Watch(d, a), b) == Watch(Watch(d, b), a)
    ensures Unwatch(Unwatch(d, a), b) == Unwatch(Unwatch(d, b), a)
  {
    if a != b {
      assert Unwatch(Unwatch(d, a), b) == d - {a, b};
      assert Unwatch(Unwatch(d, b), a) == d - {a, b};
    }
  }

  // ---- the Csn object ----

  /** The node; `Params` is the chain parameters object it is given, which
      it only stores. */
  class Csn<Params> {
    var currentHeight: int
    var watchOps: map<OutPoint, bool>
    var watchAddresses: map<seq<Byte>, bool>
    var txChannel: seq<Tx>
    var heightChannel: seq<int>
    var checkSignatures: bool
    var params: Params
    var remoteHost: string
    var utxoStore: map<OutPoint, Btcacc.LeafData>
    var totalScore: int

    /** `Csn(params)`: height 0, nothing watched, empty channels and store,
        signatures not checked. The pollard placeholder is not modelled. */
    constructor(params: Params)
      ensures currentHeight == 0 && watchOps == map[] && watchAddresses == map[]
      ensures txChannel == [] && heightChannel == [] && !checkSignatures
      ensures this.params == params && remoteHost == "" && utxoStore == map[] && totalScore == 0
    {
      currentHeight := 0;
      watchOps := map[];
      watchAddresses := map[];
      txChannel := [];
      heightChannel := [];
      checkSignatures := false;
      this.params := params;
      remoteHost := "";
      utxoStore := map[];
      totalScore := 0;
    }

    /** Every field except the two watch dictionaries is as in `old`. */
    twostate predicate RestUnchanged()
      reads this
    {
      && currentHeight == old(currentHeight) && txChannel == old(txChannel)
      && heightChannel == old(heightChannel) && checkSignatures == old(checkSignatures)
      && params == old(params) && remoteHost == old(remoteHost)
      && utxoStore == old(utxoStore) && totalScore == old(totalScore)
    }

    method RegisterOutPoint(outPoint: OutPoint)
      modifies this
      ensures watchOps == Watch(old(watchOps), outPoint)
      ensures watchAddresses == old(watchAddresses) && RestUnchanged()
    {
      watchOps := watchOps[outPoint := true];
    }

    method UnregisterOutPoint(outPoint: OutPoint)
      modifies this
      ensures watchOps == Unwatch(old(watchOps), outPoint)
      ensures watchAddresses == old(watchAddresses) && RestUnchanged()
    {
      if outPoint in watchOps {
        watchOps := watchOps - {outPoint};
      }
    }

    method RegisterAddress(address: seq<Byte>)
      modifies this
      ensures watchAddresses == Watch(old(watchAddresses), address)
      ensures watchOps == old(watchOps) && RestUnchanged()
    {
      watchAddresses := watchAddresses[address := true];
    }

    /** `push_tx` is not implemented: it prints a notice and returns None,
        leaving the node as it was. */
    method PushTx(tx: Tx)
      ensures unchanged(this)
    {
    }
  }
}
