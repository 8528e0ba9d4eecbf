/** FallBackSessionCipher: encryption with a static key agreement between the
    local private key and the recipient's public key, used before a ratcheted
    session exists. The key agreement, the authenticated encryption and hex
    decoding are supplied from outside as `FallbackPrimitives`; what is
    modelled is the key normalisation, the lazy one-time derivations and the
    nil-on-failure behaviour. */
module FallbackCipher {
  import opened Common

  /** The foreign primitives: `Data(hex:)`,
      `Curve25519.generateSharedSecret(fromPublicKey:privateKey:)`, and
      `DiffieHellman.encrypt`/`decrypt`. Encryption draws random bytes, which
      are passed in explicitly. */
  datatype FallbackPrimitives = FallbackPrimitives(
    hexDecode: string -> Bytes,
    generateSharedSecret: (Bytes, Bytes) -> Result<Bytes, ThrownError>,
    encrypt: (Bytes, Bytes, Bytes) -> Result<Bytes, ThrownError>,
    decrypt: (Bytes, Bytes) -> Result<Bytes, ThrownError>)

  /** The hex public key with its one-byte key-type prefix "05" removed when it
      is 66 characters long and carries that prefix; any other string is kept. */
  function NormalizedPublicKeyHex(hex: string): string
  {
    if |hex| == 66 && hex[..2] == "05" then hex[2..] else hex
  }

  /** A 66-character key starting with "05" loses exactly those two
      characters; every other key string is decoded as it is. */
  lemma NormalizedPublicKeyHexSpec(hex: string)
    ensures var r := NormalizedPublicKeyHex(hex);
      && (|hex| == 66 && hex[0] == '0' && hex[1] == '5' ==> |r| == 64 && hex == "05" + r)
      && (!(|hex| == 66 && hex[0] == '0' && hex[1] == '5') ==> r == hex)
  {
    if |hex| == 66 && hex[0] == '0' && hex[1] == '5' {
      assert hex[..2] == "05";
    } else {
      assert |hex| == 66 ==> hex[..2][0] == hex[0] && hex[..2][1] == hex[1];
    }
  }

  /** The value of the lazy `recipientPubKey`. */
  function RecipientPubKey(crypto: FallbackPrimitives, recipientPublicKey: string): Bytes
  {
    crypto.hexDecode(NormalizedPublicKeyHex(recipientPublicKey))
  }

  /** The value of the lazy `symmetricKey`: nil without a private key, and nil
      (`try?`) when the key agreement throws. */
  function SymmetricKey(crypto: FallbackPrimitives, recipientPublicKey: string, privateKey: Option<Bytes>): Option<Bytes>
  {
    match privateKey
    case None => None
    case Some(k) =>
      match crypto.generateSharedSecret(RecipientPubKey(crypto, recipientPublicKey), k)
      case Failure(_) => None
      case Success(secret) => Some(secret)
  }

  /** What `encrypt(plaintext)` returns when the primitive draws `randomness`. */
  function EncryptResult(crypto: FallbackPrimitives, recipientPublicKey: string, privateKey: Option<Bytes>,
                         plaintext: Bytes, randomness: Bytes): Option<Bytes>
  {
    match SymmetricKey(crypto, recipientPublicKey, privateKey)
    case None => None
    case Some(key) =>
      match crypto.encrypt(plaintext, key, randomness)
      case Failure(_) => None
      case Success(c) => Some(c)
  }

  /** What `decrypt(ivAndCiphertext)` returns. */
  function DecryptResult(crypto: FallbackPrimitives, recipientPublicKey: string, privateKey: Option<Bytes>,
                         ivAndCiphertext: Bytes): Option<Bytes>
  {
    match SymmetricKey(crypto, recipientPublicKey, privateKey)
    case None => None
    case Some(key) =>
      match crypto.decrypt(ivAndCiphertext, key)
      case Failure(_) => None
      case Success(p) => Some(p)
  }

  /** Without a private key nothing can be encrypted or decrypted. */
  lemma NoPrivateKeyUnavailable(crypto: FallbackPrimitives, recipientPublicKey: string, plaintext: Bytes, randomness: Bytes, blob: Bytes)
    ensures SymmetricKey(crypto, recipientPublicKey, None) == None
    ensures EncryptResult(crypto, recipientPublicKey, None, plaintext, randomness) == None
    ensures DecryptResult(crypto, recipientPublicKey, None, blob) == None
  {
  }

  /** When the key agreement throws, the symmetric key is nil and so are both
      operations' results. */
  lemma FailedAgreementUnavailable(crypto: FallbackPrimitives, recipientPublicKey: string, privateKey: Bytes,
                                   plaintext: Bytes, randomness: Bytes, blob: Bytes)
    requires crypto.generateSharedSecret(RecipientPubKey(crypto, recipientPublicKey), privateKey).Failure?
    ensures SymmetricKey(crypto, recipientPublicKey, Some(privateKey)) == None
    ensures EncryptResult(crypto, recipientPublicKey, Some(privateKey), plaintext, randomness) == None
    ensures DecryptResult(crypto, recipientPublicKey, Some(privateKey), blob) == None
  {
  }

  /** With a symmetric key, `encrypt` and `decrypt` return the primitive's
      result unchanged, and nil exactly when the primitive throws. */
  lemma AvailableOperationsPassThrough(crypto: FallbackPrimitives, recipientPublicKey: string, privateKey: Bytes,
                                       plaintext: Bytes, randomness: Bytes, blob: Bytes)
    requires crypto.generateSharedSecret(RecipientPubKey(crypto, recipientPublicKey), privateKey).Success?
    ensures var key := crypto.generateSharedSecret(RecipientPubKey(crypto, recipientPublicKey), privateKey).value;
      && SymmetricKey(crypto, recipientPublicKey, Some(privateKey)) == Some(key)
      && EncryptResult(crypto, recipientPublicKey, Some(privateKey), plaintext, randomness) ==
           (match crypto.encrypt(plaintext, key, randomness) case Success(c) => Some(c) case Failure(_) => None)
      && DecryptResult(crypto, recipientPublicKey, Some(privateKey), blob) ==
           (match crypto.decrypt(blob, key) case Success(p) => Some(p) case Failure(_) => None)
  {
  }

  /** The cipher object, with its two lazily computed fields. */
  class FallBackSessionCipher {
    const recipientPublicKey: string
    const privateKey: Option<Bytes>
    const ivSize: int32 := 16
    const crypto: FallbackPrimitives

    /** Storage of `lazy var recipientPubKey`: None until first use. */
    var recipientPubKeyCache: Option<Bytes>
    /** Storage of `lazy var symmetricKey`: None until first use. */
    var symmetricKeyCache: Option<Option<Bytes>>
    /** How many times each lazy initialiser has run. No method lowers them,
        so with `Valid()` a filled cache is never cleared. */
    ghost var pubKeyDerivations: nat
    ghost var symmetricKeyDerivations: nat

    /** Each cache, once filled, holds its initialiser's value, and each
        initialiser has run once if its cache is filled and never otherwise. */
    ghost predicate Valid()
      reads this
    {
      && (recipientPubKeyCache.Some? ==> recipientPubKeyCache.value == RecipientPubKey(crypto, recipientPublicKey))
      && (symmetricKeyCache.Some? ==> symmetricKeyCache.value == SymmetricKey(crypto, recipientPublicKey, privateKey))
      && pubKeyDerivations == (if recipientPubKeyCache.Some? then 1 else 0)
      && symmetricKeyDerivations == (if symmetricKeyCache.Some? then 1 else 0)
    }

    constructor (recipientPublicKey: string, privateKey: Option<Bytes>, crypto: FallbackPrimitives)
      ensures Valid()
      ensures this.recipientPublicKey == recipientPublicKey && this.privateKey == privateKey && this.crypto == crypto
      ensures recipientPubKeyCache == None && symmetricKeyCache == None
    {
      this.recipientPublicKey := recipientPublicKey;
      this.privateKey := privateKey;
      this.crypto := crypto;
      recipientPubKeyCache := None;
      symmetricKeyCache := None;
      pubKeyDerivations := 0;
      symmetricKeyDerivations := 0;
    }

    /** Reading `recipientPubKey`: computed on first use, then reused. */
    method GetRecipientPubKey() returns (k: Bytes)
      requires Valid()
      modifies this
      ensures Valid()
      ensures k == RecipientPubKey(crypto, recipientPublicKey)
      ensures recipientPubKeyCache == Some(k)
      ensures symmetricKeyCache == old(symmetricKeyCache)
      ensures old(recipientPubKeyCache).Some? ==> pubKeyDerivations == old(pubKeyDerivations)
      ensures pubKeyDerivations >= old(pubKeyDerivations) && symmetricKeyDerivations >= old(symmetricKeyDerivations)
    {
      if recipientPubKeyCache.None? {
        var hex := recipientPublicKey;
        if |hex| == 66 && hex[..2] == "05" {
          hex := hex[2..];
        }
        recipientPubKeyCache := Some(crypto.hexDecode(hex));
        pubKeyDerivations := pubKeyDerivations + 1;
      }
      k := recipientPubKeyCache.value;
    }

    /** Reading `symmetricKey`: computed on first use, then reused. The public
        key is only derived when there is a private key. */
    method GetSymmetricKey() returns (k: Option<Bytes>)
      requires Valid()
      modifies this
      ensures Valid()
      ensures k == SymmetricKey(crypto, recipientPublicKey, privateKey)
      ensures symmetricKeyCache == Some(k)
      ensures privateKey.None? ==> recipientPubKeyCache == old(recipientPubKeyCache)
      ensures old(symmetricKeyCache).Some? ==>
        pubKeyDerivations == old(pubKeyDerivations) && symmetricKeyDerivations == old(symmetricKeyDerivations)
      ensures pubKeyDerivations >= old(pubKeyDerivations) && symmetricKeyDerivations >= old(symmetricKeyDerivations)
    {
      if symmetricKeyCache.None? {
        var derived: Option<Bytes>;
        match privateKey {
          case None =>
            derived := None;
          case Some(pk) =>
            var pub := GetRecipientPubKey();
            derived := match crypto.generateSharedSecret(pub, pk)
              case Failure(_) => None
              case Success(secret) => Some(secret);
        }
        symmetricKeyCache := Some(derived);
        symmetricKeyDerivations := symmetricKeyDerivations + 1;
      }
      k := symmetricKeyCache.value;
    }

    /** `encrypt`: nil when there is no symmetric key or the primitive throws,
        else the primitive's ciphertext. */
    method Encrypt(plaintext: Bytes, randomness: Bytes) returns (r: Option<Bytes>)
      requires Valid()
      modifies this
      ensures Valid()
      ensures r == EncryptResult(crypto, recipientPublicKey, privateKey, plaintext, randomness)
      ensures symmetricKeyCache.Some?
      ensures pubKeyDerivations >= old(pubKeyDerivations) && symmetricKeyDerivations >= old(symmetricKeyDerivations)
    {
      var symmetricKey := GetSymmetricKey();
      if symmetricKey.None? {
        return None;
      }
      match crypto.encrypt(plaintext, symmetricKey.value, randomness)
      case Failure(_) =>
        r := None;
      case Success(c) =>
        r := Some(c);
    }

    /** `decrypt`: nil when there is no symmetric key or the primitive throws,
        else the primitive's plaintext. */
    method Decrypt(ivAndCiphertext: Bytes) returns (r: Option<Bytes>)
      requires Valid()
      modifies this
      ensures Valid()
      ensures r == DecryptResult(crypto, recipientPublicKey, privateKey, ivAndCiphertext)
      ensures symmetricKeyCache.Some?
      ensures pubKeyDerivations >= old(pubKeyDerivations) && symmetricKeyDerivations >= old(symmetricKeyDerivations)
    {
      var symmetricKey := GetSymmetricKey();
      if symmetricKey.None? {
        return None;
      }
      match crypto.decrypt(ivAndCiphertext, symmetricKey.value)
      case Failure(_) =>
        r := None;
      case Success(p) =>
        r := Some(p);
    }
  }
}
