/**
 * The symmetric cipher used for wallet blobs (simplecrypt's encrypt/decrypt
 * behind base64), reduced to what the wallet relies on: a blob opens with the
 * password that sealed it and with no other.
 */
module Sealing {
  import opened Wrappers

  /** An opaque ciphertext: `content` sealed under `key`. */
  datatype Sealed<T> = Cipher(key: string, content: T)

  /** Encrypts `x` under password `pw`. */
  function Seal<T>(pw: string, x: T): (c: Sealed<T>)
    ensures c.key == pw
  {
    Cipher(pw, x)
  }

  /** Decrypts `c` with password `pw`; `None` models the decryption error. */
  function Open<T>(pw: string, c: Sealed<T>): (r: Option<T>)
    ensures r.Some? <==> pw == c.key
    ensures r.Some? ==> r.value == c.content
  {
    if pw == c.key then Some(c.content) else None
  }

  /** Sealing then opening gives back the plaintext iff the passwords agree. */
  lemma OpenSeal<T>(pw: string, pw': string, x: T)
    ensures Open(pw', Seal(pw, x)) == Some(x) <==> pw' == pw
  {
  }
}
