/**
 * The libraries the signing rounds call into: FROST threshold signatures
 * over RedJubjub (`redjubjub`), and reading and writing a proved
 * transaction (`zcash_primitives`). Their record types are written out as
 * the wallet uses them; their operations are functions the caller hands in,
 * about which the model supposes nothing.
 */
module Primitives {
  import opened Wrappers
  import opened Bytes
  import opened Wallet

  /** The compressed 32-byte encoding of a Jubjub point. */
  type Point = seq<byte>

  /** A signer's private nonces for one signing (`redjubjub::SigningNonces`). */
  datatype Nonces = Nonces(randomizer: Scalar, hiding: Scalar, binding: Scalar)

  /** A signer's public commitments to those nonces (`redjubjub::SigningCommitments`). */
  datatype Commitments = Commitments(index: u32, randomizer: Point, hiding: Point, binding: Point)

  datatype SigningPackage = SigningPackage(message: seq<byte>, signingCommitments: seq<Commitments>, randomized: bool)

  datatype RandomizerPackage = RandomizerPackage(signingCommitments: seq<Commitments>, randomizers: seq<Scalar>)

  datatype SignatureShare = SignatureShare(index: u32, share: Scalar)

  datatype Signature = Signature(rBytes: seq<byte>, sBytes: seq<byte>)

  /** A signer's secret share, as the dealer hands it out. */
  datatype SharePackage = SharePackage(index: u32, secretShare: Scalar, groupPublic: Point)

  datatype PublicKeyPackage = PublicKeyPackage(signerPubkeys: seq<Point>, groupPublic: Point)

  /** A proved transaction as `Transaction::read` gives it: the spends' authorization slots, and the rest. */
  datatype ProvedTransaction = ProvedTransaction(spendAuthSigs: seq<Option<Signature>>, body: seq<byte>)

  /** The operations of those libraries, as opaque functions. */
  datatype Library = Library(
    // the single (nonces, commitments) pair of the k-th call `preprocess(1, index, rng)`
    preprocess: (u32, nat) -> (Nonces, Commitments),
    getRandomizer: RandomizerPackage -> Scalar,
    sign: (SigningPackage, Nonces, SharePackage) -> Option<SignatureShare>,
    randomize: (PublicKeyPackage, SigningPackage) -> Option<PublicKeyPackage>,
    aggregate: (SigningPackage, seq<SignatureShare>, PublicKeyPackage) -> Option<Signature>,
    verify: (Point, seq<byte>, Signature) -> bool,
    // the crate's `decode_extended_point` and `decode_scalar` on hex text
    decodePoint: string -> Point,
    decodeScalar: string -> Scalar,
    readTransaction: seq<byte> -> Option<ProvedTransaction>,
    writeTransaction: ProvedTransaction -> seq<byte>)

  /** The commitments of one input's signers, decoded for the library, in list order. */
  function DecodeCommitments(lib: Library, cs: seq<SigningCommitments>): (r: seq<Commitments>)
    ensures |r| == |cs|
  {
    seq(|cs|, j requires 0 <= j < |cs| =>
      Commitments(cs[j].index, lib.decodePoint(cs[j].randomizer), lib.decodePoint(cs[j].hiding), lib.decodePoint(cs[j].binding)))
  }
}
