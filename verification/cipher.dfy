/**
 The Fernet primitive the vault relies on, seen from outside. Fernet keys and
 tokens are URL-safe base64 text, so keys, tokens and payloads are all strings.
 Each encryption draws a fresh IV and timestamp; here that draw is the `nonce`
 argument supplied by the caller.
 */
module Cipher {
  import opened Base

  /**
   `seal(key, nonce, plaintext)` is `Fernet(key).encrypt(plaintext)` under the
   given fresh randomness; `open(key, token)` is `Fernet(key).decrypt(token)`,
   with `None` standing for the `InvalidToken` failure.
   */
  datatype Crypto = Crypto(
    seal: (string, string, string) -> string,
    open: (string, string) -> Option<string>)

  /** Authenticated encryption round-trips: opening a token under the key that sealed it yields the plaintext. */
  ghost predicate Sound(c: Crypto) {
    forall key, nonce, msg :: c.open(key, c.seal(key, nonce, msg)) == Some(msg)
  }

  /** A transparent stand-in cipher: the token is the key followed by the plaintext. */
  function Toy(): Crypto {
    Crypto(
      (key: string, nonce: string, msg: string) => key + msg,
      (key: string, token: string) =>
        if |key| <= |token| && token[..|key|] == key then Some(token[|key|..]) else None)
  }

  /** The round-trip hypothesis is not vacuous: the stand-in cipher meets it. */
  lemma ToyIsSound()
    ensures Sound(Toy())
  {
    forall key: string, nonce: string, msg: string
      ensures Toy().open(key, Toy().seal(key, nonce, msg)) == Some(msg)
    {
      var token := key + msg;
      assert token[..|key|] == key;
      assert token[|key|..] == msg;
    }
  }
}
