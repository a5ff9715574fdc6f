/** The encrypted envelope written for every backup: the 12-byte GCM nonce
    followed by the AES-256-GCM sealed snapshot, under a key that is the
    SHA-256 digest of the passphrase. */
module Envelope {
  import opened Primitives

  /** The key both directions use: SHA-256 of the passphrase bytes. Go's
      string-to-bytes conversion is the identity on the bytes of a string,
      so the passphrase is taken as bytes directly. */
  function DeriveKey(c: Crypto, passphrase: seq<byte>): Digest {
    c.sha256(passphrase)
  }

  /** The bytes encryptFileAES256 hands to os.WriteFile: a fresh nonce drawn
      from the random source, followed by the data sealed under that nonce
      with no associated data. Because the key is a 32-byte digest, the cipher
      set-up cannot fail, so the random source is the only thing that can. */
  function Encrypt(c: Crypto, data: seq<byte>, passphrase: seq<byte>, entropy: Result<Nonce>): (r: Result<seq<byte>>)
    ensures r.Err? <==> entropy.Err?
    ensures r.Err? ==> r.error == entropy.error
    ensures r.Ok? ==>
      && |r.value| >= StandardNonceSize
      && r.value[..StandardNonceSize] == entropy.value
      && r.value[StandardNonceSize..] == c.seal(DeriveKey(c, passphrase), entropy.value, data, [])
  {
    var key := DeriveKey(c, passphrase);
    match NewCipher(key)
    case Err(e) => Err(e)
    case Ok(block) =>
      match NewGCM(block)
      case Err(e) => Err(e)
      case Ok(gcm) =>
        var nonce :- entropy;
        Ok(gcm.Seal(c, nonce, nonce, data, []))
  }

  /** encryptFileAES256 as a whole: on success, the bytes the target file now
      holds; otherwise the first error, from the random source or the write. */
  function EncryptFile(c: Crypto, data: seq<byte>, passphrase: seq<byte>, entropy: Result<Nonce>, write: Status): (r: Result<seq<byte>>)
    ensures r.Ok? <==> entropy.Ok? && write.Done?
    ensures r.Ok? ==> Encrypt(c, data, passphrase, entropy) == r
    ensures r.Err? ==> r.error == if entropy.Err? then entropy.error else write.error
  {
    var sealed :- Encrypt(c, data, passphrase, entropy);
    match write
    case Done => Ok(sealed)
    case Failed(e) => Err(e)
  }

  /** decryptFileAES256. The input is split at the nonce length: the prefix is
      the nonce and only the rest goes to Open. A failed Open yields the error
      and no plaintext at all. Input shorter than the nonce is reported as
      success with empty plaintext, because the function returns the `err`
      variable, which is nil at that point. */
  function Decrypt(c: Crypto, ciphertext: seq<byte>, passphrase: seq<byte>): (r: Result<seq<byte>>)
    ensures |ciphertext| < StandardNonceSize ==> r == Ok([])
    ensures r.Err? ==> r.error == AuthenticationFailed
    ensures |ciphertext| >= StandardNonceSize && r.Ok? ==>
      c.open(DeriveKey(c, passphrase), ciphertext[..StandardNonceSize], ciphertext[StandardNonceSize..], []) == Some(r.value)
    ensures |ciphertext| >= StandardNonceSize && r.Err? ==>
      c.open(DeriveKey(c, passphrase), ciphertext[..StandardNonceSize], ciphertext[StandardNonceSize..], []) == None
  {
    var key := DeriveKey(c, passphrase);
    match NewCipher(key)
    case Err(e) => Err(e)
    case Ok(block) =>
      match NewGCM(block)
      case Err(e) => Err(e)
      case Ok(gcm) =>
        if |ciphertext| < gcm.NonceSize() then
          Ok([])
        else
          var nonce, rest := ciphertext[..gcm.NonceSize()], ciphertext[gcm.NonceSize()..];
          var plaintext := gcm.Open(c, [], nonce, rest, []);
          assert plaintext.Ok? ==> plaintext.value == c.open(key, nonce, rest, []).value;
          plaintext
  }

  /** Decrypting what Encrypt produced, with the same passphrase, gives back
      the original data. */
  lemma RoundTrip(c: Crypto, data: seq<byte>, passphrase: seq<byte>, nonce: Nonce)
    requires OpensWhatItSeals(c)
    ensures Encrypt(c, data, passphrase, Ok(nonce)).Ok?
    ensures Decrypt(c, Encrypt(c, data, passphrase, Ok(nonce)).value, passphrase) == Ok(data)
  {
  }

  /** The same round trip through the file: whatever EncryptFile leaves in
      the file decrypts to the data it was given. */
  lemma FileRoundTrip(c: Crypto, data: seq<byte>, passphrase: seq<byte>, entropy: Result<Nonce>, write: Status)
    requires OpensWhatItSeals(c)
    requires EncryptFile(c, data, passphrase, entropy, write).Ok?
    ensures Decrypt(c, EncryptFile(c, data, passphrase, entropy, write).value, passphrase) == Ok(data)
  {
    RoundTrip(c, data, passphrase, entropy.value);
  }
}
