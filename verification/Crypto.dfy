/** Payload encryption: a random nonce in front of what an authenticated cipher seals. */
module Crypto {
  import opened Records

  const NONCE_SIZE: nat := 12

  /** An authenticated cipher: `seal(key, nonce, plain)` and `open(key, nonce, sealed)`. */
  datatype Aead = Aead(seal: (Bytes, Bytes, Bytes) -> Bytes, open: (Bytes, Bytes, Bytes) -> Option<Bytes>)

  ghost predicate OpenInvertsSeal(a: Aead) {
    forall k, n, p :: a.open(k, n, a.seal(k, n, p)) == Some(p)
  }

  datatype CryptoError = InvalidCiphertext | NoRandomness

  datatype Crypto = Crypto(aead: Aead, key: Bytes) {

    /** `random` is what the random source delivers; it may deliver too little. */
    function Encrypt(plain: Bytes, random: Bytes): Result<Bytes, CryptoError> {
      if |random| < NONCE_SIZE then Failure(NoRandomness)
      else Success(random[..NONCE_SIZE] + aead.seal(key, random[..NONCE_SIZE], plain))
    }

    function Decrypt(ciphertext: Bytes): Result<Bytes, CryptoError> {
      if |ciphertext| < NONCE_SIZE then Failure(InvalidCiphertext)
      else
        match aead.open(key, ciphertext[..NONCE_SIZE], ciphertext[NONCE_SIZE..])
        case None => Failure(InvalidCiphertext)
        case Some(plain) => Success(plain)
    }

    /** Decryption undoes encryption under the same key, whatever the nonce; a ciphertext is never empty. */
    lemma DecryptEncrypt(plain: Bytes, random: Bytes)
      requires OpenInvertsSeal(aead)
      requires Encrypt(plain, random).Success?
      ensures |Encrypt(plain, random).value| >= 12 && Encrypt(plain, random).value[..12] == random[..12]
      ensures Decrypt(Encrypt(plain, random).value) == Success(plain)
    {
    }

    /** Exactly what the cipher opens under the nonce in front is decrypted; a payload too short for a nonce is
        refused, and so is an encryption without enough randomness for one. */
    lemma DecryptExactly(nonce: Bytes, sealed: Bytes, plain: Bytes)
      requires |nonce| == 12
      ensures Decrypt(nonce + sealed) == Success(plain) <==> aead.open(key, nonce, sealed) == Some(plain)
      ensures forall c: Bytes :: |c| < 12 ==> Decrypt(c) == Failure(InvalidCiphertext)
      ensures forall r: Bytes :: Encrypt(plain, r).Success? <==> |r| >= 12
    {
      assert (nonce + sealed)[..12] == nonce && (nonce + sealed)[12..] == sealed;
    }
  }
}
