/** The values validators exchange, and the cryptography they rest on.
    Hashing and signing are parameters: every theorem holds for every choice of them,
    and says so where it needs the hash to be collision free or signatures unforgeable. */
module Messages {

  type Id = string          // a public key in hexadecimal
  type Hash = string
  type Signature = string

  const NIL: Hash := "NIL"
  const GENESIS: Hash := "GENESIS"
  const GENESIS_TIME := 1_700_000_000

  datatype Option<+T> = None | Some(value: T)

  ghost predicate Distinct(ids: seq<Id>) { forall i, j :: 0 <= i < j < |ids| ==> ids[i] != ids[j] }

  datatype Phase = Prevote | Precommit

  datatype Transaction = Transaction(
    sender: Id, key: string, value: string, nonce: int, signature: Option<Signature>)
  {
    /** The signed part: everything but the signature. */
    function Payload(): Transaction { this.(signature := None) }
  }

  datatype BlockHeader = BlockHeader(
    height: int, parentHash: Hash, proposer: Id, stateRoot: Hash, txRoot: Hash, timestamp: int,
    signature: Option<Signature>)
  {
    function Payload(): BlockHeader { this.(signature := None) }
  }

  datatype Block = Block(header: BlockHeader, transactions: seq<Transaction>)

  datatype Vote = Vote(validator: Id, height: int, round: int, phase: Phase, blockHash: Hash)

  /** Objects that are hashed: a transaction, a header, a state, a list of hashes. */
  datatype Hashable =
    | TxObject(tx: Transaction)
    | HeaderObject(header: BlockHeader)
    | DataObject(data: map<string, string>)
    | ListObject(hashes: seq<Hash>)

  /** Signed messages; the constructor is the domain the signature is separated by. */
  datatype Signable = TxDomain(tx: Transaction) | HeaderDomain(header: BlockHeader) | VoteDomain(vote: Vote)

  datatype Crypto = Crypto(
    hash: Hashable -> Hash,
    sign: (Id, Signable) -> Signature,
    check: (Id, Signable, Signature) -> bool)
  {
    predicate Verifies(signer: Id, message: Signable, signature: Option<Signature>) {
      signature.Some? && check(signer, message, signature.value)
    }

    function TxHash(tx: Transaction): Hash { hash(TxObject(tx.Payload())) }

    predicate TxVerifies(tx: Transaction) { Verifies(tx.sender, TxDomain(tx.Payload()), tx.signature) }

    function HeaderHash(header: BlockHeader): Hash { hash(HeaderObject(header.Payload())) }

    predicate HeaderVerifies(header: BlockHeader) {
      Verifies(header.proposer, HeaderDomain(header.Payload()), header.signature)
    }

    function SignedHeader(header: BlockHeader, key: Id): BlockHeader {
      header.(signature := Some(sign(key, HeaderDomain(header.Payload()))))
    }

    function BlockHash(block: Block): Hash { HeaderHash(block.header) }

    function TxHashes(txs: seq<Transaction>): (hs: seq<Hash>)
      ensures |hs| == |txs| && forall i :: 0 <= i < |txs| ==> hs[i] == TxHash(txs[i])
    {
      seq(|txs|, i requires 0 <= i < |txs| => TxHash(txs[i]))
    }

    function TxRoot(txs: seq<Transaction>): Hash { hash(ListObject(TxHashes(txs))) }

    /** No two objects share a hash. */
    ghost predicate CollisionFree() { forall x, y :: hash(x) == hash(y) ==> x == y }

    /** A signature made with a key checks against that key. */
    ghost predicate SignaturesCheck() { forall i, m :: check(i, m, sign(i, m)) }
  }

  /** What travels on the wire. A body request names who asks, so that it can be answered. */
  datatype Message =
    | Proposal(header: BlockHeader, txHashes: seq<Hash>, round: int)
    | VoteMessage(phase: Phase, vote: Vote, signature: Option<Signature>)
    | BodyRequest(round: int, txHashes: seq<Hash>, requester: Id)
    | BodyResponse(round: int, bodies: seq<Transaction>)

  /** What the clock calls back. */
  datatype Callback = RoundTimeout(node: Id) | Deliver(to: Id, message: Message)
}
