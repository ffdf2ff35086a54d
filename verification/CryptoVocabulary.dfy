/** Keys, algorithms and the request/reply vocabulary between a chain execution
    and the crypto runtime. */
module CryptoVocabulary {
  import opened Bytes

  datatype ChildNumber = ChildNumber(index: u32, hardened: bool)

  datatype KeyPurpose =
    | Account
    | ExternalAddress
    | ChangeAddress
    | Authentication
    | Staking
    | Encryption
    | CustomPurpose(tag: u16)

  /** What a host may ask for: an account-relative key. */
  datatype KeyTarget = KeyTarget(account: u32, path: seq<ChildNumber>, purpose: KeyPurpose)

  /** A key bound to the wallet of the unlocked session. */
  datatype KeyLocator = KeyLocator(wallet: u32, target: KeyTarget)

  /** The capability handed out by an unlocked wallet state. */
  datatype ExecutionContext = ExecutionContext(wallet: u32) {
    function BindKey(target: KeyTarget): KeyLocator {
      KeyLocator(wallet, target)
    }
  }

  datatype Curve = Secp256k1 | Ed25519Curve | P256 | Sr25519Curve | Bls12381Curve | CustomCurve(tag: u16)

  datatype SignatureScheme =
    | Ecdsa(curve: Curve, recoverable: bool)
    | SchnorrSecp256k1
    | Ed25519
    | Sr25519
    | Bls12381
    | CustomScheme(tag: u16)

  datatype HashAlgorithm =
    | NoHash
    | Sha256
    | DoubleSha256
    | Hash160
    | Keccak256
    | Blake2b256
    | Blake2b512
    | Sha512_256
    | CustomHash(tag: u16)

  datatype PublicKeyFormat = Raw | Compressed | Uncompressed | XOnly | Extended | CustomFormat(tag: u16)

  datatype CryptoOperation =
    | DerivePublicKey(key: KeyLocator, format: PublicKeyFormat)
    | Hash(algorithm: HashAlgorithm, payload: u32)
    | Sign(signKey: KeyLocator, scheme: SignatureScheme, prehash: HashAlgorithm, signPayload: u32)

  /** A reply of the crypto runtime. Buffer capacities bound every byte string. */
  datatype CryptoOutput =
    | PublicKey(format: PublicKeyFormat, keyBytes: bytes)
    | Digest(algorithm: HashAlgorithm, digestBytes: bytes)
    | Signature(scheme: SignatureScheme, signatureBytes: bytes, recoveryId: Option<byte>)

  datatype ExecutionStep<+R> = Crypto(operation: CryptoOperation) | Complete(response: R)
}
