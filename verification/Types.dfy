/** The values exchanged by the nodes: messages, blocks, and consensus packets. */
module Types {

  datatype Option<+T> = None | Some(value: T)

  /** The address a node is configured with; addresses of distinct nodes differ. */
  datatype Address = Address(text: string)

  datatype Message = Message(timestamp: nat, data: string, author: string)

  datatype BlockState = PENDING | COMPLETED

  datatype Block = Block(state: BlockState, timestamp: nat, slot: nat, data: seq<Message>)

  /** The block of a default-constructed context; its clock readings are never used. */
  const EMPTY_BLOCK := Block(PENDING, 0, 0, [])

  /** What one node publishes to another during a slot. */
  datatype Packet =
    | Inspection(isContributing: bool)
    | Election(value: nat)
    | Upload(block: Block)
    | Broadcast(block: Block)

  /** What a node's storage knows about one node in one slot. */
  datatype ConsensusContext = ConsensusContext(
    isContributing: Option<bool>,
    isValidator: bool,
    electionValue: nat,
    block: Block,
    isResolved: bool)

  const FRESH_CONTEXT := ConsensusContext(None, false, 0, EMPTY_BLOCK, false)

  /** The bounds of the uniform draw of an election value. */
  const MIN_DRAW: nat := 1
  const MAX_DRAW: nat := 65535
}
