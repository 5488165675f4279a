/** The keychain: one root secret, an IV, keys derived from the secret, and the one
    mutable field, the server-issued authentication nonce. Cryptography is symbolic: a
    key is the term naming its derivation, a ciphertext is the term naming the key, IV
    and plaintext it seals, and HMAC signing and base64 are uninterpreted parameters. */
module Keychains {
  import opened Wrappers
  import opened Common

  /** Key material, named by the derivation that produced it. */
  datatype Key =
    | Hkdf(secret: seq<Byte>, info: string)                    // HKDF-SHA-256 with an empty salt (RFC 5869)
    | Pbkdf2(password: string, salt: string, iterations: nat)  // PBKDF2-SHA-256 (RFC 8018)
    | Imported(raw: seq<Byte>)                                 // raw bytes imported as an HMAC key

  /** The foreign functions the keychain relies on, left uninterpreted. */
  datatype Primitives = Primitives(
    toB64: seq<Byte> -> string,           // `arrayToB64`
    fromB64: string -> seq<Byte>,         // `b64ToArray`
    sign: (Key, seq<Byte>) -> seq<Byte>,  // HMAC-SHA-256 signature
    serialize: Descriptor -> seq<Byte>,   // `JSON.stringify`, then UTF-8 encoding
    parse: seq<Byte> -> Option<Descriptor>)  // UTF-8 decoding, then `JSON.parse`; None when it throws

  datatype Keychain = Keychain(nonce: string, iv: seq<Byte>, rawSecret: seq<Byte>, authKey: Key)

  /** The nonce a keychain starts with when none is supplied. */
  const DefaultNonce: string := "yRCdyQ1EMSA3mo4rqSkuNQ=="
  const IvLength: nat := 12
  const SecretLength: nat := 16
  /** Iterations of the password-based derivation. */
  const PasswordIterations: nat := 100
  /** The scheme that prefixes every credential the client sends. */
  const AuthScheme: string := "send-v1 "
  /** The type a descriptor records when the file has none. */
  const DefaultMimeType: string := "application/octet-stream"

  /** The reachable keychains: the setter never stores a falsy nonce. */
  predicate Valid(k: Keychain)
  {
    k.nonce != ""
  }

  /** `count` bytes drawn from `entropy`, starting at `from`. */
  function Draw(entropy: nat -> Byte, from: nat, count: nat): (r: seq<Byte>)
    ensures |r| == count
  {
    seq(count, i requires 0 <= i < count => entropy(from + i))
  }

  /** The constructor. Falsy arguments fall back to the default nonce and to fresh random
      bytes (12 for the IV, then 16 for the secret); supplied ones are base64-decoded. The
      three working keys are HKDF derivations of the secret under fixed labels. */
  function New(p: Primitives, secretKeyB64: Option<string>, nonce: Option<string>,
               ivB64: Option<string>, entropy: nat -> Byte): (k: Keychain)
    ensures Valid(k)
    ensures Truthy(nonce) ==> k.nonce == nonce.value
    ensures !Truthy(nonce) ==> k.nonce == DefaultNonce
    ensures Truthy(ivB64) ==> k.iv == p.fromB64(ivB64.value)
    ensures !Truthy(ivB64) ==> |k.iv| == IvLength
    ensures Truthy(secretKeyB64) ==> k.rawSecret == p.fromB64(secretKeyB64.value)
    ensures !Truthy(secretKeyB64) ==> |k.rawSecret| == SecretLength
    ensures k.authKey == Hkdf(k.rawSecret, "authentication")
  {
    var iv := if Truthy(ivB64) then p.fromB64(ivB64.value) else Draw(entropy, 0, IvLength);
    var secret := if Truthy(secretKeyB64) then p.fromB64(secretKeyB64.value)
                  else Draw(entropy, IvLength, SecretLength);
    Keychain(if Truthy(nonce) then nonce.value else DefaultNonce, iv, secret, Hkdf(secret, "authentication"))
  }

  /** The key for whole-file encryption: derived from the secret under its own label,
      so it is neither the freshly derived authentication key nor the metadata key. */
  function EncryptKey(k: Keychain): (key: Key)
    ensures key.Hkdf? && key.secret == k.rawSecret
    ensures key != Hkdf(k.rawSecret, "authentication")
  {
    Hkdf(k.rawSecret, "encryption")
  }

  /** The key for metadata encryption: derived from the same secret under another label. */
  function MetaKey(k: Keychain): (key: Key)
    ensures key.Hkdf? && key.secret == k.rawSecret
    ensures key != Hkdf(k.rawSecret, "authentication")
    ensures key != EncryptKey(k)
  {
    Hkdf(k.rawSecret, "metadata")
  }

  /** The guarded `nonce` setter: a falsy value, or the current nonce, leaves the
      keychain as it is; any other value replaces the nonce and nothing else. */
  function SetNonce(k: Keychain, n: Option<string>): (r: Keychain)
    ensures Truthy(n) ==> r == k.(nonce := n.value)
    ensures !Truthy(n) ==> r == k
    ensures Valid(k) ==> Valid(r)
  {
    if Truthy(n) && n.value != k.nonce then k.(nonce := n.value) else k
  }

  /** Setting a nonce twice is setting it once, and setting the current nonce changes nothing. */
  lemma SetNonceIdempotent(k: Keychain, n: Option<string>)
    ensures SetNonce(SetNonce(k, n), n) == SetNonce(k, n)
    ensures SetNonce(k, Some(k.nonce)) == k
  {
  }

  /** `setIV`: replace the IV by a decoded one. */
  function SetIv(k: Keychain, p: Primitives, ivB64: string): (r: Keychain)
    ensures r.iv == p.fromB64(ivB64)
    ensures r.(iv := k.iv) == k
  {
    k.(iv := p.fromB64(ivB64))
  }

  /** `setPassword`: the authentication key becomes a PBKDF2 derivation of the password,
      salted with the share URL. */
  function SetPassword(k: Keychain, password: string, shareUrl: string): (r: Keychain)
    ensures r.authKey == Pbkdf2(password, shareUrl, PasswordIterations)
    ensures r.(authKey := k.authKey) == k
  {
    k.(authKey := Pbkdf2(password, shareUrl, PasswordIterations))
  }

  /** `setAuthKey`: the authentication key becomes the decoded raw bytes. */
  function SetAuthKey(k: Keychain, p: Primitives, authKeyB64: string): (r: Keychain)
    ensures r.authKey == Imported(p.fromB64(authKeyB64))
    ensures r.(authKey := k.authKey) == k
  {
    k.(authKey := Imported(p.fromB64(authKeyB64)))
  }

  /** The signature over the current nonce, base64-encoded. */
  function SignedNonce(k: Keychain, p: Primitives): string
  {
    p.toB64(p.sign(k.authKey, p.fromB64(k.nonce)))
  }

  /** `authHeader`: the scheme, then the base64 signature over the current nonce. */
  function AuthHeader(k: Keychain, p: Primitives): (h: string)
    ensures |h| >= |AuthScheme| && h[..|AuthScheme|] == AuthScheme
    ensures h[|AuthScheme|..] == p.toB64(p.sign(k.authKey, p.fromB64(k.nonce)))
  {
    AuthScheme + SignedNonce(k, p)
  }

  /** What a verifier reads from an Authorization value: the credential after the scheme. */
  function Credential(h: string): Option<string>
  {
    if |h| >= |AuthScheme| && h[..|AuthScheme|] == AuthScheme then Some(h[|AuthScheme|..]) else None
  }

  /** The header carries the signed nonce under the expected scheme, and it changes only
      with the nonce or the authentication key: the setter's no-op cases keep it. */
  lemma AuthHeaderCredential(k: Keychain, p: Primitives, n: Option<string>)
    ensures Credential(AuthHeader(k, p)) == Some(SignedNonce(k, p))
    ensures !Truthy(n) ==> AuthHeader(SetNonce(k, n), p) == AuthHeader(k, p)
    ensures Truthy(n) ==> Credential(AuthHeader(SetNonce(k, n), p)) ==
                          Some(p.toB64(p.sign(k.authKey, p.fromB64(n.value))))
  {
  }

  // ----- whole-blob authenticated encryption -----

  /** The archive listing a descriptor may carry; `{}` when the payload is one file. */
  datatype Manifest = EmptyManifest | FileList(files: seq<Entry>)

  /** What the sender knows about the payload; the type and manifest may be missing. */
  datatype Metadata = Metadata(name: string, size: nat, mimeType: Option<string>, manifest: Option<Manifest>)

  /** The plaintext descriptor encrypted under the metadata key. */
  datatype Descriptor = Descriptor(iv: string, name: string, size: nat, mimeType: string, manifest: Manifest)

  /** An AES-GCM ciphertext with a 128-bit tag: the key, IV and plaintext bytes it seals. */
  datatype Ciphertext = Sealed(key: Key, iv: seq<Byte>, plaintext: seq<Byte>)

  /** Serialization is faithful: parsing what was serialized gives the descriptor back. */
  ghost predicate Faithful(p: Primitives)
  {
    forall d :: p.parse(p.serialize(d)) == Some(d)
  }

  /** The fixed all-zero IV of metadata encryption. */
  function ZeroIv(): (z: seq<Byte>)
    ensures |z| == IvLength && forall i :: 0 <= i < |z| ==> z[i] == 0
  {
    seq(IvLength, _ => 0)
  }

  /** AES-GCM decryption: only the same key and IV open a ciphertext. */
  function Open(key: Key, iv: seq<Byte>, c: Ciphertext): (r: Result<seq<Byte>, Error>)
    ensures r.Success? <==> c.key == key && c.iv == iv
    ensures r.Success? ==> r.value == c.plaintext
    ensures r.Failure? ==> r.error == DecryptError
  {
    if c.key == key && c.iv == iv then Success(c.plaintext) else Failure(DecryptError)
  }

  /** The descriptor `encryptMetadata` seals: the keychain IV in base64, the name and size
      as given, the type defaulting to `application/octet-stream`, the manifest to `{}`. */
  function DescriptorOf(k: Keychain, p: Primitives, m: Metadata): (d: Descriptor)
    ensures d.iv == p.toB64(k.iv) && d.name == m.name && d.size == m.size
    ensures Truthy(m.mimeType) ==> d.mimeType == m.mimeType.value
    ensures !Truthy(m.mimeType) ==> d.mimeType == DefaultMimeType
    ensures m.manifest.Some? ==> d.manifest == m.manifest.value
    ensures m.manifest.None? ==> d.manifest == EmptyManifest
  {
    var manifest := if m.manifest.Some? then m.manifest.value else EmptyManifest;
    Descriptor(p.toB64(k.iv), m.name, m.size,
               if Truthy(m.mimeType) then m.mimeType.value else DefaultMimeType,
               manifest)
  }

  /** `encryptMetadata`: the serialized descriptor sealed under the metadata key and the
      zero IV. */
  function EncryptMetadata(k: Keychain, p: Primitives, m: Metadata): (c: Ciphertext)
    ensures c.key == MetaKey(k) && c.iv == ZeroIv()
    ensures c.plaintext == p.serialize(DescriptorOf(k, p, m))
  {
    Sealed(MetaKey(k), ZeroIv(), p.serialize(DescriptorOf(k, p, m)))
  }

  /** `decryptMetadata`: open under the metadata key and the zero IV, then parse. A
      rejected tag and a malformed plaintext both fail. */
  function DecryptMetadata(k: Keychain, p: Primitives, c: Ciphertext): (r: Result<Descriptor, Error>)
    ensures r.Success? <==> c.key == MetaKey(k) && c.iv == ZeroIv() && p.parse(c.plaintext).Some?
    ensures r.Success? ==> Some(r.value) == p.parse(c.plaintext)
    ensures r.Failure? && c.key == MetaKey(k) && c.iv == ZeroIv() ==> r.error == ParseError
    ensures r.Failure? && !(c.key == MetaKey(k) && c.iv == ZeroIv()) ==> r.error == DecryptError
  {
    match Open(MetaKey(k), ZeroIv(), c)
    case Failure(e) => Failure(e)
    case Success(bytes) =>
      match p.parse(bytes)
      case Some(d) => Success(d)
      case None => Failure(ParseError)
  }

  /** `encryptFile`: the bytes sealed under the encryption key and the keychain IV. */
  function EncryptFile(k: Keychain, data: seq<Byte>): (c: Ciphertext)
    ensures c.key == EncryptKey(k) && c.iv == k.iv && c.plaintext == data
  {
    Sealed(EncryptKey(k), k.iv, data)
  }

  /** `decryptFile`: open under the encryption key and the keychain IV. */
  function DecryptFile(k: Keychain, c: Ciphertext): (r: Result<seq<Byte>, Error>)
    ensures r.Success? <==> c.key == EncryptKey(k) && c.iv == k.iv
    ensures r.Success? ==> r.value == c.plaintext
    ensures r.Failure? ==> r.error == DecryptError
  {
    Open(EncryptKey(k), k.iv, c)
  }

  /** Metadata round trip: with faithful serialization, any keychain rebuilt from the
      same secret decrypts the descriptor, whatever its IV or nonce; a different secret
      cannot. */
  lemma MetadataRoundTrip(sender: Keychain, receiver: Keychain, p: Primitives, m: Metadata)
    requires Faithful(p)
    ensures receiver.rawSecret == sender.rawSecret ==>
      DecryptMetadata(receiver, p, EncryptMetadata(sender, p, m)) == Success(DescriptorOf(sender, p, m))
    ensures receiver.rawSecret != sender.rawSecret ==>
      DecryptMetadata(receiver, p, EncryptMetadata(sender, p, m)) == Failure(DecryptError)
  {
    var d := DescriptorOf(sender, p, m);
    assert p.parse(p.serialize(d)) == Some(d);
  }

  /** File round trip: decryption succeeds exactly when the receiver has the sender's
      secret and IV, and then returns the plaintext. */
  lemma FileRoundTrip(sender: Keychain, receiver: Keychain, data: seq<Byte>)
    ensures DecryptFile(receiver, EncryptFile(sender, data)).Success? <==>
      receiver.rawSecret == sender.rawSecret && receiver.iv == sender.iv
    ensures DecryptFile(receiver, EncryptFile(sender, data)).Success? ==>
      DecryptFile(receiver, EncryptFile(sender, data)).value == data
  {
  }

  /** Metadata and file ciphertexts never open as each other, even when the keychain IV
      is the zero IV and the bytes would parse: only the HKDF labels tell the two keys
      apart. */
  lemma KeysSeparated(k: Keychain, p: Primitives, m: Metadata, data: seq<Byte>)
    ensures DecryptFile(k, EncryptMetadata(k, p, m)) == Failure(DecryptError)
    ensures DecryptMetadata(k, p, EncryptFile(k, data)) == Failure(DecryptError)
  {
  }
}
