/** Algorand transactions, as the contracts see the fields of their group. */
module Transactions {
  import opened Bytes

  datatype TxType = Payment | AssetTransfer | ApplicationCall | OtherType
  datatype Completion = NoOp | OptIn | CloseOut | ClearState | UpdateApplication | DeleteApplication

  /**
   * `accounts[0]` is the sender, as on the AVM. `amount` and `receiver` are those of the payment or of the
   * asset transfer.
   */
  datatype Txn = Txn(
    kind: TxType,
    sender: bytes,
    rekeyTo: bytes,
    fee: nat,
    applicationId: nat,
    completion: Completion,
    args: seq<bytes>,
    accounts: seq<bytes>,
    amount: nat,
    receiver: bytes,
    xferAsset: nat,
    closeRemainderTo: bytes,
    assetCloseTo: bytes)

  function AppCall(sender: bytes, fee: nat, applicationId: nat, args: seq<bytes>, accounts: seq<bytes>): Txn
  {
    Txn(ApplicationCall, sender, ZERO_ADDRESS, fee, applicationId, NoOp, args, accounts, 0, ZERO_ADDRESS, 0,
      ZERO_ADDRESS, ZERO_ADDRESS)
  }

  const ZERO_ADDRESS: bytes := Zeros(32)

  // Method names, first application argument
  const VERIFY_SIGS: bytes := [118, 101, 114, 105, 102, 121, 83, 105, 103, 115]
  const VERIFY_VAA: bytes := [118, 101, 114, 105, 102, 121, 86, 65, 65]
  const NOP: bytes := [110, 111, 112]
  const INIT: bytes := [105, 110, 105, 116]
  const GOVERNANCE: bytes := [103, 111, 118, 101, 114, 110, 97, 110, 99, 101]

  const RECEIVE_ATTEST: bytes := [114, 101, 99, 101, 105, 118, 101, 65, 116, 116, 101, 115, 116]
  const SEND_TRANSFER: bytes := [115, 101, 110, 100, 84, 114, 97, 110, 115, 102, 101, 114]
  const COMPLETE_TRANSFER: bytes := [99, 111, 109, 112, 108, 101, 116, 101, 84, 114, 97, 110, 115, 102, 101, 114]

  // Storage slots and tags
  const GUARDIAN: bytes := [103, 117, 97, 114, 100, 105, 97, 110]
  const NATIVE: bytes := [110, 97, 116, 105, 118, 101]
  const DUPLICATE: bytes := [100, 117, 112, 108, 105, 99, 97, 116, 101]
  const PUBLISH_MESSAGE: bytes := [112, 117, 98, 108, 105, 115, 104, 77, 101, 115, 115, 97, 103, 101]
  const ASSET: bytes := [97, 115, 115, 101, 116]

  /** The transaction's method is `name`. */
  predicate Calls(t: Txn, name: bytes)
  {
    |t.args| > 0 && t.args[0] == name
  }

  /** Algorand's own chain id, as it stands in messages. */
  const ALGORAND_CHAIN: bytes := [0, 8]

  /** The seed payment and the opt-in are as the client sends them; the account is handed over to the application. */
  predicate OptinOk(appId: nat, appAddress: bytes, t: Txn, seed: Txn, seedAmount: nat)
  {
    && seed.kind == Payment && seed.amount == seedAmount && seed.receiver == t.sender
    && t.kind == ApplicationCall && t.completion == OptIn && t.applicationId == appId
    && t.rekeyTo == appAddress && |t.args| == 0
  }
}
