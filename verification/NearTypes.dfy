/** What the NEAR light-client contracts on Ethereum exchange, once decoded. */
module NearTypes {
  import opened Prelude

  type Bytes32 = s: seq<Byte> | |s| == 32 witness seq(32, _ => 0)

  /** A hash function. */
  type Sha = Bytes -> Bytes32

  const ZERO32: Bytes32 :=
    [0, 0, 0, 0, 0, 0, 0, 0, 0, 0, 0, 0, 0, 0, 0, 0, 0, 0, 0, 0, 0, 0, 0, 0, 0, 0, 0, 0, 0, 0, 0, 0]

  datatype PublicKey =
    | Ed25519Key(xy: Bytes32)
    | Secp256k1Key(x: U256, y: U256)

  datatype Signature =
    | Ed25519Signature(r: Bytes32, s: Bytes32)
    | Secp256k1Signature(r1: Bytes32, s1: Bytes32, v: Byte)

  datatype ValidatorStake = ValidatorStake(accountId: seq<Byte>, publicKey: PublicKey, stake: U128)

  /** A list of validators together with the hash of its encoding. */
  datatype StakeList = StakeList(stakes: seq<ValidatorStake>, hash: Bytes32)

  datatype InnerLite = InnerLite(
    height: U64, epochId: Bytes32, nextEpochId: Bytes32, prevStateRoot: Bytes32, outcomeRoot: Bytes32,
    timestamp: U64, nextBpHash: Bytes32, blockMerkleRoot: Bytes32,
    hash: Bytes32)

  datatype LightClientBlock = LightClientBlock(
    prevBlockHash: Bytes32, nextBlockInnerHash: Bytes32, innerLite: InnerLite, innerRestHash: Bytes32,
    nextBps: Option<StakeList>, approvals: seq<Option<Signature>>,
    hash: Bytes32, nextHash: Bytes32)
}
