/** The Aegis block structures, and the parts of the system that the model leaves
    uninterpreted. Every theorem holds for all values of the function fields below. */
module Blocks {
  import opened Common

  // Fixed-width byte strings are read as big-endian numbers, so that the
  // lexicographic order on ids is the numeric order.
  type Hash = nat
  type Id = Hash
  type Nullifier = nat
  type CmBytes = nat
  // A point of the even curve (a decoded note commitment).
  type Point = nat

  const EMPTY_TX_ROOT: Hash := 0x61656769732f656d7074792d74782d726f6f742f76312e2e2e2e2e2e2e2e2e2e
  const EMPTY_TREE_ROOT: Hash := 0x61656769732f656d7074792d63757276652d747265652d726f6f742f76312e2e
  const EMPTY_NULLIFIER_DIGEST: Hash := 0x61656769732f656d7074792d6e756c6c69666965722d7365742f76312e2e2e2e
  const EMPTY_REWARD_CLAIM: CmBytes := 0

  datatype Header = Header(
    version: nat,
    prevId: Id,
    height: nat,
    timestampMs: nat,
    txRoot: Hash,
    cmTreeRoot: Hash,
    nullifierDigest: Hash,
    potBalance: nat,
    scNbits: nat,
    rewardClaim: CmBytes)

  datatype Output = Output(noteCm: CmBytes, epk: nat, ct: nat, outCt: nat)

  // Two inputs, two outputs, one proof blob.
  datatype Transfer = Transfer(nf0: Nullifier, nf1: Nullifier, out0: Output, out1: Output, proof: seq<byte>)

  // Peg-mints travel as opaque envelope bytes.
  datatype Body = Body(transfers: seq<Transfer>, pegMints: seq<seq<byte>>)

  datatype MintProof = MintProof(evenProof: seq<byte>, cm: Point)

  datatype Block = Block(header: Header, body: Body, coinbase: Option<MintProof>)

  // A decoded peg-in proof; only the verdict of its verification matters here.
  type PegProof = nat

  datatype PegEffect = PegEffect(noteValue: nat, scDest: nat, boxId: Hash, potCredit: nat)

  /** Peg-in validation context. `steps` is every check of the peg verifier except the
      last one (the used-set lookup), run against the configured anchor and pins. */
  datatype PegConfig = PegConfig(
    steps: PegProof -> Option<PegEffect>,
    note: PegEffect -> Option<Point>)

  /** The cryptography and external codecs, as uninterpreted functions. */
  datatype Primitives = Primitives(
    headerId: Header -> Id,
    merkleRoot: seq<Transfer> -> Hash,
    decodeCm: CmBytes -> Option<Point>,
    encodeCm: Point -> CmBytes,
    isIdentity: Point -> bool,
    foldDigest: (Hash, seq<Nullifier>, seq<Hash>) -> Hash,
    treeRoot: seq<Point> -> Hash,
    verifyTransfer: (seq<Point>, Transfer, nat) -> bool,
    verifyMint: (nat, MintProof) -> bool,
    decodePeg: seq<byte> -> Option<PegProof>,
    encodePeg: PegProof -> Option<seq<byte>>,
    decodeBits: nat -> nat)

  datatype ProofMode = StubProofs | RealProofs

  /** Everything a chain is configured with: the network parameters, the difficulty
      retarget as a function of the (timestamp, nbits) view, and the peg context. */
  datatype Rules = Rules(
    prim: Primitives,
    proofMode: ProofMode,
    scTxFee: nat,
    rTarget: nat,
    genesisTimestampMs: nat,
    minNbits: nat,
    retarget: seq<(nat, nat)> -> nat,
    peg: Option<PegConfig>)
  {
    function HeaderId(h: Header): Id {
      prim.headerId(h)
    }

    function BlockId(b: Block): Id {
      HeaderId(b.header)
    }

    function GenesisHeader(): Header {
      Header(1, 0, 0, genesisTimestampMs, EMPTY_TX_ROOT, EMPTY_TREE_ROOT,
             EMPTY_NULLIFIER_DIGEST, 0, minNbits, EMPTY_REWARD_CLAIM)
    }

    function GenesisBlock(): Block {
      Block(GenesisHeader(), Body([], []), None)
    }

    function GenesisId(): Id {
      HeaderId(GenesisHeader())
    }

    // A body without transfers has a fixed root, any other one the root of its transfer ids.
    function TxRoot(b: Body): Hash {
      if b.transfers == [] then EMPTY_TX_ROOT else prim.merkleRoot(b.transfers)
    }

    function CmRoot(leaves: seq<Point>): Hash {
      if leaves == [] then EMPTY_TREE_ROOT else prim.treeRoot(leaves)
    }
  }
}
