/** Symbolic key material for the hybrid double ratchet: hashes and HMACs are free constructors, Diffie-Hellman and CSIDH
    secrets are unordered pairs of private keys, and a sealed box opens only under the key that sealed it. */
module RatchetTerms {

  /** A Curve25519 private key and a CSIDH private key, drawn together. Public keys are named by their private keys. */
  datatype Secret = Secret(ec: nat, pq: nat)

  datatype Public = Public(ec: nat, pq: nat, pqValid: bool)

  function PublicOf(s: Secret): Public { Public(s.ec, s.pq, true) }

  /** The value both sides of an exchange compute. */
  datatype SharedSecret = Shared(lo: nat, hi: nat)

  function Agree(priv: nat, pub: nat): SharedSecret {
    if priv <= pub then Shared(priv, pub) else Shared(pub, priv)
  }

  lemma AgreeCommutes(a: nat, b: nat)
    ensures Agree(a, b) == Agree(b, a)
  {}

  datatype Label = ChainKey | HeaderKey | NextHeaderKey | RootKey | MessageKey | ChainStep

  datatype Key =
    | Zero
    | Exchanged(ec: SharedSecret, pq: SharedSecret)                  // HMAC key of the initial exchange
    | Updated(root: Key, ec: SharedSecret, pq: SharedSecret)         // hash of root key and fresh secrets
    | Hmac(key: Key, purpose: Label)

  function Step(chain: Key): Key { Hmac(chain, ChainStep) }

  function MessageKeyOf(chain: Key): Key { Hmac(chain, MessageKey) }

  /** The chain key after n steps. */
  function Chain(base: Key, n: nat): Key {
    if n == 0 then base else Step(Chain(base, n - 1))
  }

  lemma {:induction false} ChainAdds(base: Key, m: nat, n: nat)
    ensures Chain(Chain(base, m), n) == Chain(base, m + n)
  {
    if n > 0 {
      ChainAdds(base, m, n - 1);
    }
  }

  type Plaintext = string

  /** The plaintext header of a message. */
  datatype Header = Header(num: nat, prev: nat, public: Public, nonce: nat)

  /** A message on the wire: a header sealed under one key, a body sealed under another. */
  datatype Ciphertext =
    | TooShort
    | Sealed(headerKey: Key, header: Header, bodyKey: Key, bodyNonce: nat, body: Plaintext)
  {
    predicate HeaderOpens(k: Key) { Sealed? && headerKey == k }

    predicate BodyOpens(k: Key)
      requires Sealed?
    {
      bodyKey == k && bodyNonce == header.nonce
    }
  }
}
