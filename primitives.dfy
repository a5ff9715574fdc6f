/** Values and collaborators shared by every part of the backup tool: bytes,
    the error values it passes around, and the cryptographic primitives it
    calls but does not implement (SHA-256, the AES block cipher and GCM). */
module Primitives {

  type byte = x: int | 0 <= x < 256

  /** Length in bytes of a SHA-256 digest. */
  const DigestSize: nat := 32

  /** Nonce length of the standard GCM mode returned by cipher.NewGCM. */
  const StandardNonceSize: nat := 12

  type Digest = s: seq<byte> | |s| == DigestSize witness seq(32, _ => 0)

  type Nonce = s: seq<byte> | |s| == StandardNonceSize witness seq(12, _ => 0)

  /** The errors the tool can see. Everything the operating system, the random
      source or the object store reports is an opaque `External` error. */
  datatype Error =
    | KeySizeError(size: nat)       // aes.NewCipher rejects a key of this length
    | AuthenticationFailed          // gcm.Open could not authenticate the input
    | External(reason: string)

  datatype Option<+T> = None | Some(value: T)

  /** A Go `(T, error)` return: a value when the error is nil, the error otherwise. */
  datatype Result<+T> = Ok(value: T) | Err(error: Error) {
    predicate IsFailure() { Err? }

    function PropagateFailure<U>(): Result<U>
      requires Err?
    {
      Err(error)
    }

    function Extract(): T
      requires Ok?
    {
      value
    }
  }

  /** A Go `error` return on its own: nil or an error. */
  datatype Status = Done | Failed(error: Error)

  function StatusOf<T>(r: Result<T>): Status {
    match r
    case Ok(_) => Done
    case Err(e) => Failed(e)
  }

  /** The cryptographic primitives, left uninterpreted: SHA-256, and AES-GCM
      sealing and opening under (key, nonce, message, associated data). */
  datatype Crypto = Crypto(
    sha256: seq<byte> -> Digest,
    seal: (seq<byte>, Nonce, seq<byte>, seq<byte>) -> seq<byte>,
    open: (seq<byte>, Nonce, seq<byte>, seq<byte>) -> Option<seq<byte>>)

  /** The one property of AES-256-GCM the tool relies on: opening what was
      sealed under the same 32-byte key, nonce and associated data gives back
      the plaintext. */
  ghost predicate OpensWhatItSeals(c: Crypto) {
    forall key: Digest, nonce: Nonce, plaintext: seq<byte>, ad: seq<byte> ::
      c.open(key, nonce, c.seal(key, nonce, plaintext, ad), ad) == Some(plaintext)
  }

  /** aes.NewCipher: accepts keys of 16, 24 or 32 bytes only. */
  datatype Block = AesBlock(key: seq<byte>)

  function NewCipher(key: seq<byte>): Result<Block> {
    if |key| == 16 || |key| == 24 || |key| == 32 then Ok(AesBlock(key))
    else Err(KeySizeError(|key|))
  }

  /** cipher.NewGCM: fails only for a block size other than 16 bytes, which an
      AES block never has. */
  function NewGCM(block: Block): Result<Gcm> {
    Ok(Gcm(block.key))
  }

  datatype Gcm = Gcm(key: seq<byte>) {
    function NonceSize(): nat { StandardNonceSize }

    /** Appends the sealed message to dst, as Go's AEAD.Seal does. */
    function Seal(c: Crypto, dst: seq<byte>, nonce: Nonce, plaintext: seq<byte>, ad: seq<byte>): seq<byte> {
      dst + c.seal(key, nonce, plaintext, ad)
    }

    /** Appends the opened plaintext to dst; on failure no plaintext at all. */
    function Open(c: Crypto, dst: seq<byte>, nonce: Nonce, ciphertext: seq<byte>, ad: seq<byte>): Result<seq<byte>> {
      match c.open(key, nonce, ciphertext, ad)
      case None => Err(AuthenticationFailed)
      case Some(plaintext) => Ok(dst + plaintext)
    }
  }
}
