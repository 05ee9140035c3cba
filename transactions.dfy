/**
 * What the two panels share about the one contract write each of them owns:
 * the status that the write hook and the receipt hook report, the busy labels
 * both buttons show, and the calls they send to the faucet contract.
 */
module Transactions {

  /** `isPending` (the wallet has not answered yet) and `isConfirming` (waiting for the receipt). */
  datatype TxStatus = TxStatus(isPending: bool, isConfirming: bool)

  predicate IsBusy(tx: TxStatus) {
    tx.isPending || tx.isConfirming
  }

  const PendingLabel: string := "确认交易..."
  const ConfirmingLabel: string := "等待确认..."

  /** The text of a busy button: the wallet prompt first, then the wait for the receipt. */
  function BusyLabel(tx: TxStatus): (text: string)
    requires IsBusy(tx)
    ensures text == PendingLabel <==> tx.isPending
    ensures text == ConfirmingLabel <==> !tx.isPending
  {
    if tx.isPending then PendingLabel else ConfirmingLabel
  }

  /** claimTokens() takes nothing; fundFaucet() is payable and carries the donation in wei. */
  datatype Call = ClaimTokens | FundFaucet(value: nat)

  /** A contract write: the faucet contract's address and the call. */
  datatype Write = Write(contract: string, call: Call)
}
