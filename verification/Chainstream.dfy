/** The values that travel through the pipeline (internal/chainstream/block.go, blockchain.go). */
module Chainstream {
  import opened Wrappers
  import opened HexNumbers

  /** Errors are compared by identity only; a name stands for the identity. */
  type Error = string

  datatype Transaction = Transaction(hash: string, from: string, to: string)

  datatype Block = Block(height: Hex, hash: string, transactions: seq<Transaction>)

  const ZERO_BLOCK := Block("", "", [])

  datatype BlockchainEvent = BlockchainEvent(height: Hex, block: Block, err: Option<Error>)

  datatype ObservedBlock = ObservedBlock(network: string, block: Block)

  datatype BlockDispatchFailure = BlockDispatchFailure(network: string, height: Hex, errors: seq<Error>)
}
