/**
 What the transaction a send signs does on chain, read off the transaction itself, and how it matches
 what the send did to the wallet's rows.
 */
module OnChain {
  import opened Prelude
  import opened Ledger

  /** How much of the token of a contract a transaction moves from its sender to an account: calling the
      contract with a transfer to that account moves the amount (transfer, in the Methods part of the
      Specification section of EIP-20). */
  ghost function TokensMoved(tx: SignedTx, contract: nat, recipient: nat): nat {
    if tx.to == contract && tx.data.TransferCall? && tx.data.to == recipient then tx.data.amount else 0
  }

  /** How much ether it moves to an account when it succeeds. */
  ghost function EtherMoved(tx: SignedTx, recipient: nat): nat {
    if tx.to == recipient then tx.value else 0
  }

  /** The transaction behind the row a broadcast send has added. */
  ghost predicate Added(t: Tables, t': Tables, row: Record, tx: SignedTx) {
    t'.log == t.log + [row] && row.status.Broadcasting? && row.hash == Some(Signed(tx)) && row.nonce == Some(tx.nonce)
  }

  /** The row and the transaction of an accepted send. */
  lemma SendAdds(t: Tables, o: Order, q: Quote, chainPending: nat) returns (row: Record, tx: SignedTx)
    requires Refuse(t, o, q).None?
    ensures Added(t, Send(t, o, q, chainPending, true), row, tx)
    ensures row.wallet == o.wallet && row.amount == o.amount && tx.gasLimit == q.gasLimit
    ensures row.kind == (if o.payment.Call? then Contract else Withdrawal)
    ensures row.token == (if o.payment.Erc20? then Some(o.payment.token) else None)
    ensures tx == ToSign(o, q, tx.nonce)
  {
    var nonce := NextNonce(chainPending, t.log);
    row, tx := SentRow(o, q, nonce), ToSign(o, q, nonce);
  }

  /** An accepted token send signs a transaction that moves, of that token and to the account asked for,
      exactly what the wallet's row of the token lost; it moves nothing of any other token, nothing to
      anybody else, and no ether; and of the wallet's rows only ether for gas and that one changed. */
  lemma TokenSendMovesWhatItTook(t: Tables, o: Order, q: Quote, chainPending: nat) returns (row: Record, tx: SignedTx)
    requires Refuse(t, o, q).None? && o.payment.Erc20?
    ensures Added(t, Send(t, o, q, chainPending, true), row, tx)
    ensures var t', asset := Send(t, o, q, chainPending, true), AssetOf(o.payment.token);
            && TokensMoved(tx, o.payment.token.account, o.to) == Bal(t, o.wallet, asset) - Bal(t', o.wallet, asset)
            && TokensMoved(tx, o.payment.token.account, o.to) == o.amount
            && (forall contract, recipient :: contract != o.payment.token.account || recipient != o.to ==>
                  TokensMoved(tx, contract, recipient) == 0)
            && (forall recipient :: EtherMoved(tx, recipient) == 0)
            && Bal(t, o.wallet, Native) - Bal(t', o.wallet, Native) == q.gasLimit * q.gasPrice
            && (forall x: WalletId, a: Asset :: x != o.wallet || (a != Native && a != asset) ==>
                Bal(t', x, a) == Bal(t, x, a))
  {
    row, tx := SendAdds(t, o, q, chainPending);
  }

  /** An accepted ether send moves the amount to the account asked for and carries no data. A contract
      write calls the account asked for with the order's data, and moves its value unless that is
      negative. Beyond gas at the full limit, the wallet's ether row lost what is moved, exactly when the
      value is not negative. */
  lemma EtherSendMovesWhatItTook(t: Tables, o: Order, q: Quote, chainPending: nat) returns (row: Record, tx: SignedTx)
    requires Refuse(t, o, q).None? && !o.payment.Erc20?
    ensures Added(t, Send(t, o, q, chainPending, true), row, tx)
    ensures tx.to == o.to && tx.data == (if o.payment.Call? then o.data else NoData)
    ensures var t' := Send(t, o, q, chainPending, true);
            var lost := Bal(t, o.wallet, Native) - Bal(t', o.wallet, Native) - q.gasLimit * q.gasPrice;
            && lost == o.amount
            && (EtherMoved(tx, o.to) == lost <==> o.amount >= 0)
            && (forall recipient :: recipient != o.to ==> EtherMoved(tx, recipient) == 0)
            && (o.payment.Ether? ==> forall contract, recipient :: TokensMoved(tx, contract, recipient) == 0)
            && (forall x: WalletId, a: Asset :: x != o.wallet || a != Native ==> Bal(t', x, a) == Bal(t, x, a))
  {
    row, tx := SendAdds(t, o, q, chainPending);
  }
}
