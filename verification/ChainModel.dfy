/**
 * The chain as the provider shows it: transactions with inputs and outputs in index
 * order, the spending transaction of every consumed output, spend redeemers by input
 * index in any order, and a tip. A snapshot fixes all of it for one sync pass.
 */
module ChainModel {
  import opened Wrappers
  import opened Beacons
  import opened Orders
  import opened OrderDatum
  import opened Ledger

  datatype SpendRedeemer = SpendRedeemer(txIndex: nat, scriptHash: string, alternative: nat)

  /** pos is the transaction's place in chain order. */
  datatype LedgerTx = LedgerTx(
    inputs: seq<OutRef>,
    outputs: seq<TxOut>,
    redeemers: seq<SpendRedeemer>,
    height: nat,
    pos: nat)

  datatype Chain = Chain(txs: map<string, LedgerTx>, spentBy: map<OutRef, string>) {
    /** getTxOutput: a transaction's output whether or not it is spent. */
    function OutputAt(ref: OutRef): Option<TxOut> {
      if ref.txHash in txs && ref.index < |txs[ref.txHash].outputs|
      then Some(txs[ref.txHash].outputs[ref.index]) else None
    }

    /** getUtxo: only if still unspent. */
    function UnspentAt(ref: OutRef): Option<TxOut> {
      if ref in spentBy then None else OutputAt(ref)
    }

    /** Every consumed output is recorded with the transaction that lists it as an input. */
    ghost predicate SpendsRecorded() {
      forall id, i | id in txs && 0 <= i < |txs[id].inputs| ::
        txs[id].inputs[i] in spentBy && spentBy[txs[id].inputs[i]] == id
    }
  }

  datatype Tip = Tip(slot: int, height: int)

  /** An output as a listing shows it. */
  datatype Utxo = Utxo(ref: OutRef, output: TxOut)

  /** What one sync pass sees: holders and their listings come in any order. */
  datatype Snapshot = Snapshot(
    chain: Chain,
    tip: Tip,
    holders: seq<Address>,
    listing: map<Address, seq<Utxo>>)

  /** getTxConfirmations at the snapshot's tip. */
  function Confirmations(s: Snapshot, txHash: string): Option<int> {
    if txHash !in s.chain.txs then None
    else
      var n := s.tip.height - s.chain.txs[txHash].height + 1;
      Some(if n < 0 then 0 else n)
  }

  function ListingOf(s: Snapshot, holder: Address): seq<Utxo> {
    if holder in s.listing then s.listing[holder] else []
  }

  ghost predicate Listed(s: Snapshot, u: Utxo) {
    exists h | h in s.holders :: u in ListingOf(s, h)
  }

  /** The listings show exactly the unspent outputs that hold an order beacon, as they stand on the chain. */
  ghost predicate Consistent(proto: Protocol, s: Snapshot) {
    && s.chain.SpendsRecorded()
    && (forall i | 0 <= i < |s.holders| :: s.holders[i] in s.listing)
    && (forall u: Utxo :: Listed(s, u) <==> s.chain.UnspentAt(u.ref) == Some(u.output) && HasOrderBeacon(proto, u.output))
  }
}
