/** Values shared by the consensus core, the ledger and the network codec. */
module Types {

  datatype Option<+T> = None | Some(value: T)

  type Byte = b: int | 0 <= b < 256

  /** The number that bytes encode, most significant byte first. */
  function BigEndian(bytes: seq<Byte>): nat {
    if bytes == [] then 0 else 256 * BigEndian(bytes[..|bytes| - 1]) + bytes[|bytes| - 1]
  }

  /** A validator address: 160 bits, compared as a number. */
  type Address = nat

  /** A digest. The length is left open above 32 bytes: over a fixed length no
      collision-free hash function exists, and hypotheses that ask for one would be empty. */
  type Hash = h: seq<Byte> | 32 <= |h| witness seq(32, _ => 0)

  const U64: nat := 0x1_0000_0000_0000_0000

  /** A 64-bit time; sums of times are checked. */
  type Time = t: nat | t < U64

  /** What the check of a block's transactions finds: all are signed and match the root in the header, they do not, or
      the tree library has no root for them. */
  datatype TxCheck = TxsFit | TxsUnfit | NoRoot

  /** What consensus reads of a block: its hash, height, parent and time, what the check of its transactions
      finds, and whether the date library can print its time. */
  datatype Block = Block(hash: Hash, height: nat, prevHash: Hash, time: Time, txs: TxCheck, datable: bool)

  /** What consensus reads of a block in the ledger. */
  datatype Entry = Entry(hash: Hash, time: Time)

  function EntryOf(block: Block): Entry {
    Entry(block.hash, block.time)
  }

  /** Rounds are 64-bit numbers, and sums of them are checked. */
  type Round = r: nat | r < U64

  const MAX_ROUND: Round := U64 - 1

  datatype View = View(height: nat, round: Round)

  datatype Subject = Subject(view: View, digest: Hash)

  /** A commit seal: the signature of a signer over a digest, or bytes that no signer can be recovered from. */
  datatype Seal = Seal(signer: Address, digest: Hash) | Unrecoverable

  /** Gossip messages. The sender is the address recovered from the signature. */
  datatype Message =
    | Preprepare(sender: Address, view: View, proposal: Block)
    | Prepare(sender: Address, subject: Subject)
    | Commit(sender: Address, subject: Subject, seal: Option<Seal>)
    | RoundChange(sender: Address, subject: Subject)

  datatype ConsensusError =
    | FutureMessage
    | FutureRoundMessage
    | FutureBlockMessage(height: nat)
    | InconsistentSubject
    | OldMessage
    | UnauthorizedAddress
    | WaitNewRound
    | NotFromProposer
    | InvalidProposal
    | Unknown

  /** Outcome of a handler; `Panic` is a failed assertion or unwrap. */
  datatype Result = Ok | Err(error: ConsensusError) | Panic
}
