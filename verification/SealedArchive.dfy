/** Sealing, opening and signing of a backup archive. */
module SealedArchive {
  import opened Text
  import opened Octets
  import Sha256

  datatype SigningKey = SigningKey(keyId: string, secret: string)
  datatype EncryptionKey = EncryptionKey(keyId: string, secret: string)

  datatype Signature = Signature(keyId: string, algorithm: string, value: string)
  datatype Encryption = Encryption(keyId: string, algorithm: string, plaintextChecksum: string)

  datatype RemoteKind = FilesystemMirror | ObjectStore | S3Compatible
  datatype RemoteTarget = RemoteTarget(kind: RemoteKind, endpoint: string, prefix: string, required: bool)

  datatype Manifest = Manifest(
    format: string, artifactKey: string, checksum: string, plaintextChecksum: string, encrypted: bool,
    signature: Signature, encryption: Option<Encryption>, remoteTarget: Option<RemoteTarget>)

  datatype Sealed = Sealed(bytes: Bytes, manifest: Manifest)

  /** An artifact as stored: its key, bytes and recorded digest. */
  datatype Record = Record(key: string, bytes: Bytes, digest: string)

  /** The text encoding (UTF-8) is a parameter. */
  type Encode = string -> Bytes

  const ARCHIVE_FORMAT := "eva.backup.archive.v1"
  const SIGNATURE_ALGORITHM := "sha256-keyed-v1"
  const ENCRYPTION_ALGORITHM := "xor-sha256-stream-v1"

  function DigestBytes(bytes: Bytes): (d: string)
    ensures Sha256.IsDigestText(d)
  {
    Sha256.DigestText(Sha256.Hash(bytes))
  }

  // ---------------------------------------------------------------- the key stream

  function StreamSeed(key: EncryptionKey, block: nat): string {
    Unlines(["eva-backup-encryption-stream:v1", "key_id=" + key.keyId, "secret=" + key.secret,
        "block=" + Decimal(block)])
  }

  lemma DigestCharIsByte(d: string, i: nat)
    requires Sha256.IsDigestText(d) && i < |d|
    ensures 0 <= d[i] as int < 256
  {
    if i < 7 {
      assert d[i] == "sha256:"[i];
    } else {
      assert d[i] == d[7..][i - 7];
      assert IsHexDigit(d[i]);
    }
  }

  function StreamByte(encode: Encode, key: EncryptionKey, index: nat): byte {
    var d := DigestBytes(encode(StreamSeed(key, index / 71)));
    DigestCharIsByte(d, index % |d|);
    d[index % |d|] as int
  }

  function XorWithKey(encode: Encode, bytes: Bytes, key: EncryptionKey): (r: Bytes)
    ensures |r| == |bytes|
  {
    seq(|bytes|, i requires 0 <= i < |bytes| => Xor(bytes[i], StreamByte(encode, key, i)))
  }

  /** Unsealing with the sealing key undoes the sealing, for every key and every content. */
  lemma XorWithKeyInvolution(encode: Encode, bytes: Bytes, key: EncryptionKey)
    ensures XorWithKey(encode, XorWithKey(encode, bytes, key), key) == bytes
  {
    hide StreamByte, Xor;
    var once := XorWithKey(encode, bytes, key);
    var twice := XorWithKey(encode, once, key);
    forall i | 0 <= i < |bytes| ensures twice[i] == bytes[i] {
      XorInvolution(bytes[i], StreamByte(encode, key, i));
    }
  }

  // ---------------------------------------------------------------- the signed payload

  function KindName(k: RemoteKind): string {
    match k
    case FilesystemMirror => "filesystem_mirror"
    case ObjectStore => "object_store"
    case S3Compatible => "s3_compatible"
  }

  function BoolName(b: bool): string { if b then "true" else "false" }

  function EncryptionLines(e: Option<Encryption>): (ls: seq<string>)
    ensures |ls| == 2
  {
    if e.Some? then ["encryption_algorithm=" + e.value.algorithm, "encryption_key_id=" + e.value.keyId]
    else ["encryption_algorithm=none", "encryption_key_id=none"]
  }

  function RemoteLines(r: Option<RemoteTarget>): (ls: seq<string>)
    ensures |ls| == 4
  {
    if r.Some? then
      ["remote_kind=" + KindName(r.value.kind), "remote_endpoint=" + r.value.endpoint,
       "remote_prefix=" + r.value.prefix, "remote_required=" + BoolName(r.value.required)]
    else
      ["remote_kind=none", "remote_endpoint=none", "remote_prefix=none", "remote_required=false"]
  }

  function IdentityLines(key: string, checksum: string, plaintextChecksum: string): (ls: seq<string>)
    ensures |ls| == 4
  {
    ["eva-backup-signature:v1", "artifact_key=" + key, "checksum=" + checksum,
        "plaintext_checksum=" + plaintextChecksum]
  }

  function KeyLines(k: SigningKey): seq<string> { ["key_id=" + k.keyId, "secret=" + k.secret] }

  function SignedLines(
    key: string, checksum: string, plaintextChecksum: string, e: Option<Encryption>,
        r: Option<RemoteTarget>): seq<string>
  {
    IdentityLines(key, checksum, plaintextChecksum) + EncryptionLines(e) + RemoteLines(r)
  }

  /** The canonical text that is digested together with the secret. */
  function SignedPayload(
    key: string, checksum: string, plaintextChecksum: string, e: Option<Encryption>, r: Option<RemoteTarget>,
    signing: SigningKey): string
  {
    Unlines(SignedLines(key, checksum, plaintextChecksum, e, r)) + Unlines(KeyLines(signing))
  }

  function Sign(
    encode: Encode, key: string, checksum: string, plaintextChecksum: string, e: Option<Encryption>,
    r: Option<RemoteTarget>, signing: SigningKey): Signature
  {
    Signature(signing.keyId, SIGNATURE_ALGORITHM,
              DigestBytes(encode(SignedPayload(key, checksum, plaintextChecksum, e, r, signing))))
  }

  /** `sign_archive`, with its growing payload. */
  method SignArchive(
    encode: Encode, key: string, checksum: string, plaintextChecksum: string, e: Option<Encryption>,
    r: Option<RemoteTarget>, signing: SigningKey) returns (s: Signature)
    ensures s == Sign(encode, key, checksum, plaintextChecksum, e, r, signing)
  {
    hide IdentityLines, EncryptionLines, RemoteLines, KeyLines, Unlines, DigestBytes;
    var payload := Unlines(IdentityLines(key, checksum, plaintextChecksum));
    UnlinesAppend(IdentityLines(key, checksum, plaintextChecksum), EncryptionLines(e));
    payload := payload + Unlines(EncryptionLines(e));
    UnlinesAppend(IdentityLines(key, checksum, plaintextChecksum) + EncryptionLines(e), RemoteLines(r));
    payload := payload + Unlines(RemoteLines(r));
    payload := payload + Unlines(KeyLines(signing));
    s := Signature(signing.keyId, SIGNATURE_ALGORITHM, DigestBytes(encode(payload)));
  }

  // ---------------------------------------------------------------- seal, open, verify

  function Seal(
    encode: Encode, artifactKey: string, plaintext: Bytes, signing: SigningKey, encryptionKey: Option<EncryptionKey>,
    remote: Option<RemoteTarget>): Sealed
  {
    var plaintextChecksum := DigestBytes(plaintext);
    var bytes := if encryptionKey.Some? then XorWithKey(encode, plaintext, encryptionKey.value) else plaintext;
    var encryption :=
      if encryptionKey.Some? then Some(Encryption(encryptionKey.value.keyId, ENCRYPTION_ALGORITHM, plaintextChecksum))
          else None;
    var checksum := DigestBytes(bytes);
    Sealed(bytes, Manifest(ARCHIVE_FORMAT, artifactKey, checksum, plaintextChecksum, encryption.Some?,
                           Sign(encode, artifactKey, checksum, plaintextChecksum, encryption, remote, signing),
                               encryption, remote))
  }

  function VerifyRecordChecksum(record: Record, expected: string): Result<()> {
    if DigestBytes(record.bytes) != record.digest then Err(Conflict)
    else if record.digest != expected then Err(Conflict)
    else Ok(())
  }

  function Open(encode: Encode, record: Record, manifest: Manifest, key: Option<EncryptionKey>): Result<Bytes> {
    var _ :- VerifyRecordChecksum(record, manifest.checksum);
    if manifest.artifactKey != record.key then Err(Conflict)
    else
      var plaintext :- Unseal(encode, record.bytes, manifest.encryption, key);
      if DigestBytes(plaintext) != manifest.plaintextChecksum then Err(Conflict) else Ok(plaintext)
  }

  function Unseal(encode: Encode, bytes: Bytes, e: Option<Encryption>, key: Option<EncryptionKey>): Result<Bytes> {
    if e.None? then Ok(bytes)
    else if key.None? then Err(PermissionDenied)
    else if e.value.keyId != key.value.keyId then Err(PermissionDenied)
    else Ok(XorWithKey(encode, bytes, key.value))
  }

  function VerifySignature(encode: Encode, m: Manifest, signing: SigningKey): Result<string> {
    if m.format != ARCHIVE_FORMAT then Err(Unsupported)
    else if m.signature.keyId != signing.keyId then Err(PermissionDenied)
    else if m.signature.algorithm != SIGNATURE_ALGORITHM then Err(Unsupported)
    else
      var expected := Sign(encode, m.artifactKey, m.checksum, m.plaintextChecksum, m.encryption, m.remoteTarget,
          signing).value;
      if expected != m.signature.value then Err(Conflict) else Ok(expected)
  }

  // ---------------------------------------------------------------- round trip

  /**
   * The stored record of a sealed archive opens to the plaintext with the key it was sealed with, and
   * its signature verifies with the key it was signed with.
   */
  lemma SealedOpens(
    encode: Encode, artifactKey: string, plaintext: Bytes, signing: SigningKey, encryptionKey: Option<EncryptionKey>,
    remote: Option<RemoteTarget>)
    ensures var s := Seal(encode, artifactKey, plaintext, signing, encryptionKey, remote);
            && Open(encode, Record(artifactKey, s.bytes, DigestBytes(s.bytes)), s.manifest, encryptionKey) ==
                Ok(plaintext)
            && VerifySignature(encode, s.manifest, signing) == Ok(s.manifest.signature.value)
  {
    hide XorWithKey, DigestBytes, SignedPayload;
    if encryptionKey.Some? { XorWithKeyInvolution(encode, plaintext, encryptionKey.value); }
  }

  /**
   * What the manifest of a sealed archive records: the digests of the stored bytes and of the plaintext, whether and
   * with which key id they were encrypted, and the remote target. Without a key the stored bytes are the plaintext.
   */
  lemma SealRecords(
    encode: Encode, artifactKey: string, plaintext: Bytes, signing: SigningKey, encryptionKey: Option<EncryptionKey>,
    remote: Option<RemoteTarget>)
    ensures var s := Seal(encode, artifactKey, plaintext, signing, encryptionKey, remote);
            && s.manifest.artifactKey == artifactKey && s.manifest.remoteTarget == remote
            && s.manifest.checksum == DigestBytes(s.bytes) && s.manifest.plaintextChecksum == DigestBytes(plaintext)
            && (s.manifest.encrypted <==> encryptionKey.Some?) && s.manifest.encryption.Some? == encryptionKey.Some?
            && (encryptionKey.Some? ==>
                  s.manifest.encryption.value ==
                  Encryption(encryptionKey.value.keyId, ENCRYPTION_ALGORITHM, DigestBytes(plaintext)))
            && (encryptionKey.None? ==> s.bytes == plaintext)
            && s.manifest.signature.keyId == signing.keyId && |s.bytes| == |plaintext|
  {
    hide XorWithKey, DigestBytes, SignedPayload;
  }

  /** Opening without the key, or with a key of another id, is refused. */
  lemma SealedNeedsKey(
    encode: Encode, artifactKey: string, plaintext: Bytes, signing: SigningKey, sealing: EncryptionKey,
    remote: Option<RemoteTarget>, other: Option<EncryptionKey>)
    requires other.Some? ==> other.value.keyId != sealing.keyId
    ensures var s := Seal(encode, artifactKey, plaintext, signing, Some(sealing), remote);
            Open(encode, Record(artifactKey, s.bytes, DigestBytes(s.bytes)), s.manifest, other) == Err(PermissionDenied)
  {
    hide XorWithKey, DigestBytes, Sign;
  }

  /** Equal digests mean equal contents, for two given contents. */
  predicate CollisionFree(a: Bytes, b: Bytes) { DigestBytes(a) == DigestBytes(b) ==> a == b }

  /** Whatever record and whatever key are brought, a sealed manifest opens to nothing but its plaintext. */
  lemma SealedOpensToNothingElse(
    encode: Encode, artifactKey: string, plaintext: Bytes, signing: SigningKey, encryptionKey: Option<EncryptionKey>,
    remote: Option<RemoteTarget>, record: Record, key: Option<EncryptionKey>)
    requires var s := Seal(encode, artifactKey, plaintext, signing, encryptionKey, remote);
             && Open(encode, record, s.manifest, key).Ok?
             && CollisionFree(record.bytes, s.bytes)
             && CollisionFree(Open(encode, record, s.manifest, key).value, plaintext)
    ensures var s := Seal(encode, artifactKey, plaintext, signing, encryptionKey, remote);
            && Open(encode, record, s.manifest, key) == Ok(plaintext)
            && record == Record(artifactKey, s.bytes, s.manifest.checksum)
  {
    hide XorWithKey, DigestBytes, Sign;
  }

  // ---------------------------------------------------------------- what the signature binds

  predicate Unbroken(s: string) { '\n' !in s }

  /** No line break in the signed strings. */
  predicate Signable(m: Manifest) {
    && Unbroken(m.artifactKey) && Unbroken(m.checksum) && Unbroken(m.plaintextChecksum)
    && (m.encryption.Some? ==> Unbroken(m.encryption.value.algorithm) && Unbroken(m.encryption.value.keyId))
    && (m.remoteTarget.Some? ==> Unbroken(m.remoteTarget.value.endpoint) && Unbroken(m.remoteTarget.value.prefix))
  }

  function EncryptionKeyId(m: Manifest): Option<string> {
    if m.encryption.Some? then Some(m.encryption.value.keyId) else None
  }

  /** The algorithm and key id as signed: no encryption is written like an algorithm and a key named `none`. */
  function EncryptionNames(m: Manifest): (string, string) {
    if m.encryption.Some? then (m.encryption.value.algorithm, m.encryption.value.keyId) else ("none", "none")
  }

  predicate SameSignedFields(a: Manifest, b: Manifest) {
    && a.artifactKey == b.artifactKey && a.checksum == b.checksum && a.plaintextChecksum == b.plaintextChecksum
    && EncryptionNames(a) == EncryptionNames(b) && a.remoteTarget == b.remoteTarget
  }

  /** The signed names fix the key id: whoever has the same names has the same key id, or like `a` none. */
  ghost predicate NamesBindKeyId(a: Manifest) {
    forall b: Manifest :: EncryptionNames(b) == EncryptionNames(a) ==> EncryptionKeyId(b) == EncryptionKeyId(a)
  }

  /** They do for every algorithm and key id but the pair that stands for no encryption. */
  lemma NamesBindKeyIdExactly(a: Manifest)
    ensures NamesBindKeyId(a) <==> EncryptionNames(a) != ("none", "none")
  {
    if EncryptionNames(a) == ("none", "none") {
      var b := a.(encryption := if a.encryption.Some? then None else Some(Encryption("none", "none", "")));
      assert EncryptionNames(b) == EncryptionNames(a) && EncryptionKeyId(b) != EncryptionKeyId(a);
    }
  }

  /** Only the algorithm name that sealing writes. */
  predicate OwnAlgorithm(m: Manifest) {
    m.encryption.Some? ==> m.encryption.value.algorithm == ENCRYPTION_ALGORITHM
  }

  /** Among manifests with the code's own algorithm name the signed names and the key ids say the same. */
  lemma OwnAlgorithmBindsKeyId(a: Manifest, b: Manifest)
    requires OwnAlgorithm(a) && OwnAlgorithm(b)
    ensures EncryptionNames(a) == EncryptionNames(b) <==> EncryptionKeyId(a) == EncryptionKeyId(b)
  {
    assert |ENCRYPTION_ALGORITHM| > |"none"|;
    NamesBindKeyIdExactly(a);
    NamesBindKeyIdExactly(b);
  }

  /** An encryption called `none` signs like no encryption at all. */
  lemma EncryptionNamedNone(m: Manifest, checksum: string, signing: SigningKey)
    requires m.encryption.None?
    ensures var other := m.(encryption := Some(Encryption("none", "none", checksum)));
            && EncryptionKeyId(other) != EncryptionKeyId(m)
            && ManifestPayload(other, signing) == ManifestPayload(m, signing)
  {
    SameFieldsSamePayload(m.(encryption := Some(Encryption("none", "none", checksum))), m, signing);
  }

  function ManifestLines(m: Manifest): seq<string> {
    SignedLines(m.artifactKey, m.checksum, m.plaintextChecksum, m.encryption, m.remoteTarget)
  }

  function ManifestPayload(m: Manifest, signing: SigningKey): string {
    SignedPayload(m.artifactKey, m.checksum, m.plaintextChecksum, m.encryption, m.remoteTarget, signing)
  }

  lemma IdentityInjective(a: Manifest, b: Manifest)
    requires IdentityLines(a.artifactKey, a.checksum, a.plaintextChecksum) ==
            IdentityLines(b.artifactKey, b.checksum, b.plaintextChecksum)
    ensures a.artifactKey == b.artifactKey && a.checksum == b.checksum && a.plaintextChecksum == b.plaintextChecksum
  {
    var x, y := IdentityLines(a.artifactKey, a.checksum, a.plaintextChecksum),
        IdentityLines(b.artifactKey, b.checksum, b.plaintextChecksum);
    assert x[1] == y[1] && x[2] == y[2] && x[3] == y[3];
    PrefixCancels("artifact_key=", a.artifactKey, b.artifactKey);
    PrefixCancels("checksum=", a.checksum, b.checksum);
    PrefixCancels("plaintext_checksum=", a.plaintextChecksum, b.plaintextChecksum);
  }

  lemma EncryptionInjective(a: Manifest, b: Manifest)
    requires EncryptionLines(a.encryption) == EncryptionLines(b.encryption)
    ensures EncryptionNames(a) == EncryptionNames(b)
  {
    var x, y := EncryptionLines(a.encryption), EncryptionLines(b.encryption);
    assert x[0] == y[0] && x[1] == y[1];
    NamedLines(a);
    NamedLines(b);
    PrefixCancels("encryption_algorithm=", EncryptionNames(a).0, EncryptionNames(b).0);
    PrefixCancels("encryption_key_id=", EncryptionNames(a).1, EncryptionNames(b).1);
  }

  lemma NamedLines(m: Manifest)
    ensures EncryptionLines(m.encryption) ==
            ["encryption_algorithm=" + EncryptionNames(m).0, "encryption_key_id=" + EncryptionNames(m).1]
  {
    assert "encryption_algorithm=none" == "encryption_algorithm=" + "none";
    assert "encryption_key_id=none" == "encryption_key_id=" + "none";
  }

  lemma KindNameInjective(a: RemoteKind, b: RemoteKind)
    requires KindName(a) == KindName(b)
    ensures a == b
  {
    assert "filesystem_mirror"[0] == 'f' && "object_store"[0] == 'o' && "s3_compatible"[0] == 's';
  }

  lemma KindNameIsNotNone(k: RemoteKind)
    ensures |KindName(k)| > |"none"|
  {
  }

  lemma RemotePresence(a: Option<RemoteTarget>, b: Option<RemoteTarget>)
    requires RemoteLines(a)[0] == RemoteLines(b)[0]
    ensures a.Some? == b.Some?
    ensures a.Some? ==> a.value.kind == b.value.kind
  {
    hide KindName;
    if a.Some? { KindNameIsNotNone(a.value.kind); }
    if b.Some? { KindNameIsNotNone(b.value.kind); }
    if a.Some? && b.Some? {
      PrefixCancels("remote_kind=", KindName(a.value.kind), KindName(b.value.kind));
      KindNameInjective(a.value.kind, b.value.kind);
    }
  }

  lemma BoolNameInjective(a: bool, b: bool)
    requires BoolName(a) == BoolName(b)
    ensures a == b
  {
    assert "true"[0] == 't' && "false"[0] == 'f';
  }

  lemma RemoteInjective(a: Option<RemoteTarget>, b: Option<RemoteTarget>)
    requires RemoteLines(a) == RemoteLines(b)
    ensures a == b
  {
    hide KindName, BoolName;
    RemotePresence(a, b);
    if a.Some? {
      var x, y := RemoteLines(a), RemoteLines(b);
      assert x[1] == y[1] && x[2] == y[2] && x[3] == y[3];
      PrefixCancels("remote_endpoint=", a.value.endpoint, b.value.endpoint);
      PrefixCancels("remote_prefix=", a.value.prefix, b.value.prefix);
      PrefixCancels("remote_required=", BoolName(a.value.required), BoolName(b.value.required));
      BoolNameInjective(a.value.required, b.value.required);
    }
  }

  lemma IdentityUnbroken(m: Manifest)
    requires Signable(m)
    ensures forall l :: l in IdentityLines(m.artifactKey, m.checksum, m.plaintextChecksum) ==> '\n' !in l
  {
  }

  lemma EncryptionUnbroken(m: Manifest)
    requires Signable(m)
    ensures forall l :: l in EncryptionLines(m.encryption) ==> '\n' !in l
  {
  }

  lemma NamesUnbroken(k: RemoteKind, b: bool)
    ensures '\n' !in KindName(k) && '\n' !in BoolName(b)
  {
  }

  lemma RemoteUnbroken(m: Manifest)
    requires Signable(m)
    ensures forall l :: l in RemoteLines(m.remoteTarget) ==> '\n' !in l
  {
    hide KindName, BoolName;
    if m.remoteTarget.Some? { NamesUnbroken(m.remoteTarget.value.kind, m.remoteTarget.value.required); }
  }

  lemma LinesUnbroken(m: Manifest)
    requires Signable(m)
    ensures forall l :: l in ManifestLines(m) ==> '\n' !in l
  {
    hide IdentityLines, EncryptionLines, RemoteLines, Signable;
    IdentityUnbroken(m);
    EncryptionUnbroken(m);
    RemoteUnbroken(m);
  }

  /** The signed text determines the signed fields, whatever the secret contains. */
  lemma PayloadBindsFields(a: Manifest, b: Manifest, signing: SigningKey)
    requires Signable(a) && Signable(b) && ManifestPayload(a, signing) == ManifestPayload(b, signing)
    ensures SameSignedFields(a, b)
  {
    hide IdentityLines, EncryptionLines, RemoteLines, Signable, Unlines, KeyLines;
    SuffixCancels(Unlines(ManifestLines(a)), Unlines(ManifestLines(b)), Unlines(KeyLines(signing)));
    LinesUnbroken(a);
    LinesUnbroken(b);
    UnlinesInjective(ManifestLines(a), ManifestLines(b));
    var x, y := ManifestLines(a), ManifestLines(b);
    assert IdentityLines(a.artifactKey, a.checksum, a.plaintextChecksum) == x[..4];
    assert IdentityLines(b.artifactKey, b.checksum, b.plaintextChecksum) == y[..4];
    IdentityInjective(a, b);
    assert EncryptionLines(a.encryption) == x[4..6] && EncryptionLines(b.encryption) == y[4..6];
    EncryptionInjective(a, b);
    assert RemoteLines(a.remoteTarget) == x[6..] && RemoteLines(b.remoteTarget) == y[6..];
    RemoteInjective(a.remoteTarget, b.remoteTarget);
  }

  lemma SameFieldsSamePayload(a: Manifest, b: Manifest, signing: SigningKey)
    requires SameSignedFields(a, b)
    ensures ManifestPayload(a, signing) == ManifestPayload(b, signing)
  {
    hide IdentityLines, EncryptionLines, EncryptionNames, RemoteLines, Unlines, KeyLines;
    NamedLines(a);
    NamedLines(b);
  }

  /** The signed texts of the two manifests do not collide. */
  predicate Apart(encode: Encode, a: Manifest, b: Manifest, signing: SigningKey) {
    var pa, pb := ManifestPayload(a, signing), ManifestPayload(b, signing);
    CollisionFree(encode(pa), encode(pb)) && (encode(pa) == encode(pb) ==> pa == pb)
  }

  /**
   * Two manifests accepted with the same key carry the same signature value exactly when they agree on
   * the artifact key, both checksums, the encryption names and the remote target. The encoding and
   * the digest must not make the two signed texts collide.
   */
  lemma SignatureBindsManifest(encode: Encode, a: Manifest, b: Manifest, signing: SigningKey)
    requires Signable(a) && Signable(b)
    requires VerifySignature(encode, a, signing).Ok? && VerifySignature(encode, b, signing).Ok?
    requires Apart(encode, a, b, signing)
    ensures a.signature.value == b.signature.value <==> SameSignedFields(a, b)
  {
    hide SignedPayload, Signable, DigestBytes;
    if a.signature.value == b.signature.value {
      PayloadBindsFields(a, b, signing);
    }
    if SameSignedFields(a, b) {
      SameFieldsSamePayload(a, b, signing);
    }
  }

  /** Another manifest is accepted with the same key and carries the same signature value, but names another key. */
  predicate OtherKeyId(encode: Encode, a: Manifest, b: Manifest, signing: SigningKey) {
    && Signable(b) && VerifySignature(encode, b, signing).Ok? && Apart(encode, a, b, signing)
    && b.signature.value == a.signature.value && EncryptionKeyId(b) != EncryptionKeyId(a)
  }

  /**
   * Short of a collision, the signature value of an accepted manifest binds its encryption key id if and only if the
   * signed names are not the pair that stands for no encryption.
   */
  lemma SignatureBindsKeyIdExactly(encode: Encode, a: Manifest, signing: SigningKey)
    requires Signable(a) && VerifySignature(encode, a, signing).Ok?
    ensures (forall b: Manifest :: !OtherKeyId(encode, a, b, signing)) <==> EncryptionNames(a) != ("none", "none")
  {
    hide ManifestPayload, Signable, VerifySignature, CollisionFree;
    NamesBindKeyIdExactly(a);
    if EncryptionNames(a) != ("none", "none") {
      forall b: Manifest ensures !OtherKeyId(encode, a, b, signing) {
        if Signable(b) && VerifySignature(encode, b, signing).Ok? && Apart(encode, a, b, signing) {
          SignatureBindsManifest(encode, a, b, signing);
        }
      }
    } else {
      DisguisedIsAccepted(encode, a, signing);
      assert OtherKeyId(encode, a, Disguised(a), signing);
    }
  }

  /** The same manifest with an encryption called `none` for none, or without the one it has. */
  function Disguised(a: Manifest): Manifest {
    a.(encryption := if a.encryption.Some? then None else Some(Encryption("none", "none", "")))
  }

  lemma DisguisedIsAccepted(encode: Encode, a: Manifest, signing: SigningKey)
    requires Signable(a) && VerifySignature(encode, a, signing).Ok? && EncryptionNames(a) == ("none", "none")
    ensures var b := Disguised(a);
            && Signable(b) && VerifySignature(encode, b, signing).Ok? && Apart(encode, a, b, signing)
            && b.signature.value == a.signature.value && EncryptionKeyId(b) != EncryptionKeyId(a)
  {
    hide SignedPayload, DigestBytes;
    SameFieldsSamePayload(a, Disguised(a), signing);
  }

  // ---------------------------------------------------------------- the signing key

  /** For a fixed manifest and key id the signed text depends on the secret. */
  lemma PayloadBindsSecret(m: Manifest, a: SigningKey, b: SigningKey)
    requires a.keyId == b.keyId && ManifestPayload(m, a) == ManifestPayload(m, b)
    ensures a == b
  {
    hide SignedLines;
    var front := Unlines(ManifestLines(m)) + ("key_id=" + a.keyId + ['\n']) + "secret=";
    KeyText(a);
    KeyText(b);
    assert ManifestPayload(m, a) == front + (a.secret + ['\n']);
    assert ManifestPayload(m, b) == front + (b.secret + ['\n']);
    PrefixCancels(front, a.secret + ['\n'], b.secret + ['\n']);
    assert a.secret == (a.secret + ['\n'])[..|a.secret + ['\n']| - 1];
    assert b.secret == (b.secret + ['\n'])[..|b.secret + ['\n']| - 1];
  }

  lemma KeyText(k: SigningKey)
    ensures Unlines(KeyLines(k)) == ("key_id=" + k.keyId + ['\n']) + ("secret=" + k.secret + ['\n'])
  {
    var ls := KeyLines(k);
    assert ls[1..] == ["secret=" + k.secret] && ls[1..][1..] == [];
    assert Unlines(ls[1..]) == "secret=" + k.secret + ['\n'];
    assert Unlines(ls) == ls[0] + ['\n'] + Unlines(ls[1..]);
  }

  /** The manifest as signed with a key. */
  function SignedWith(encode: Encode, m: Manifest, k: SigningKey): Manifest {
    m.(signature := Sign(encode, m.artifactKey, m.checksum, m.plaintextChecksum, m.encryption, m.remoteTarget, k))
  }

  /**
   * Short of a collision of the two signed texts, a manifest signed with `a` verifies with `b` if and only if the keys
   * are the same, secret included. Another key id is denied, another secret is a conflict.
   */
  lemma VerifiesWithItsKeyOnly(encode: Encode, m: Manifest, a: SigningKey, b: SigningKey)
    requires m.format == ARCHIVE_FORMAT
    requires var pa, pb := ManifestPayload(m, a), ManifestPayload(m, b);
             CollisionFree(encode(pa), encode(pb)) && (encode(pa) == encode(pb) ==> pa == pb)
    ensures var v := VerifySignature(encode, SignedWith(encode, m, a), b);
            && (v.Ok? <==> a == b)
            && (a.keyId != b.keyId ==> v == Err(PermissionDenied))
            && (a.keyId == b.keyId && a.secret != b.secret ==> v == Err(Conflict))
  {
    hide SignedPayload, DigestBytes;
    if a.keyId == b.keyId && ManifestPayload(m, a) == ManifestPayload(m, b) { PayloadBindsSecret(m, a, b); }
  }

  /** A manifest is accepted only with the code's own format and signature algorithm, under the key's own id. */
  lemma AcceptedMeans(encode: Encode, m: Manifest, k: SigningKey)
    ensures VerifySignature(encode, m, k).Ok? <==>
      m.format == ARCHIVE_FORMAT && m.signature == SignedWith(encode, m, k).signature
  {
    hide SignedPayload, DigestBytes;
  }

  // ---------------------------------------------------------------- the encryption key

  lemma SeedText(k: EncryptionKey, block: nat)
    ensures StreamSeed(k, block) ==
      ("eva-backup-encryption-stream:v1" + ['\n']) + ("key_id=" + k.keyId + ['\n']) + ("secret=" + k.secret + ['\n'])
      + ("block=" + Decimal(block) + ['\n'])
  {
    hide Decimal;
    var ls := ["eva-backup-encryption-stream:v1", "key_id=" + k.keyId, "secret=" + k.secret, "block=" + Decimal(block)];
    assert ls[1..] == [ls[1], ls[2], ls[3]] && ls[1..][1..] == [ls[2], ls[3]] && ls[1..][1..][1..] == [ls[3]];
    assert Unlines([ls[3]]) == ls[3] + ['\n'] by { assert [ls[3]][1..] == []; }
    assert Unlines([ls[2], ls[3]]) == ls[2] + ['\n'] + Unlines([ls[3]]);
    assert Unlines([ls[1], ls[2], ls[3]]) == ls[1] + ['\n'] + Unlines([ls[2], ls[3]]);
  }

  /** The seed of a block depends on the secret. */
  lemma SeedBindsSecret(a: EncryptionKey, b: EncryptionKey, block: nat)
    requires a.keyId == b.keyId && StreamSeed(a, block) == StreamSeed(b, block)
    ensures a == b
  {
    hide StreamSeed, Decimal;
    SeedText(a, block);
    SeedText(b, block);
    var front := ("eva-backup-encryption-stream:v1" + ['\n']) + ("key_id=" + a.keyId + ['\n']) + "secret=";
    var back := ['\n'] + ("block=" + Decimal(block) + ['\n']);
    assert StreamSeed(a, block) == front + (a.secret + back);
    assert StreamSeed(b, block) == front + (b.secret + back);
    PrefixCancels(front, a.secret + back, b.secret + back);
    assert |a.secret| == |b.secret|;
    assert a.secret == (a.secret + back)[..|a.secret|] && b.secret == (b.secret + back)[..|b.secret|];
  }

  /** The blocks of one key have different seeds. */
  lemma SeedBindsBlock(k: EncryptionKey, p: nat, q: nat)
    requires StreamSeed(k, p) == StreamSeed(k, q)
    ensures p == q
  {
    hide StreamSeed, Decimal;
    SeedText(k, p);
    SeedText(k, q);
    var front := ("eva-backup-encryption-stream:v1" + ['\n']) + ("key_id=" + k.keyId + ['\n'])
        + ("secret=" + k.secret + ['\n']) + "block=";
    assert StreamSeed(k, p) == front + (Decimal(p) + ['\n']);
    assert StreamSeed(k, q) == front + (Decimal(q) + ['\n']);
    PrefixCancels(front, Decimal(p) + ['\n'], Decimal(q) + ['\n']);
    SuffixCancels(Decimal(p), Decimal(q), ['\n']);
    DecimalInjective(p, q);
  }

  /** The key stream is the digest texts of the seeds of block 0, block 1 and so on, one after the other. */
  lemma StreamIsDigests(encode: Encode, key: EncryptionKey, block: nat, j: nat)
    requires j < 71
    ensures |DigestBytes(encode(StreamSeed(key, block)))| == 71
    ensures StreamByte(encode, key, 71 * block + j) == DigestBytes(encode(StreamSeed(key, block)))[j] as int
  {
    hide StreamSeed, DigestBytes;
    assert (71 * block + j) / 71 == block && (71 * block + j) % 71 == j;
    DigestLength(encode(StreamSeed(key, block)));
  }

  /**
   * Two keys of one id and different secrets have different streams, already in the first block, short of a collision.
   */
  lemma StreamsDiffer(encode: Encode, a: EncryptionKey, b: EncryptionKey)
    requires a.keyId == b.keyId && a.secret != b.secret
    requires var x, y := StreamSeed(a, 0), StreamSeed(b, 0);
             CollisionFree(encode(x), encode(y)) && (encode(x) == encode(y) ==> x == y)
    ensures exists i :: 0 <= i < 71 && StreamByte(encode, a, i) != StreamByte(encode, b, i)
  {
    hide StreamSeed, DigestBytes, StreamByte;
    if StreamSeed(a, 0) == StreamSeed(b, 0) { SeedBindsSecret(a, b, 0); }
    var x, y := DigestBytes(encode(StreamSeed(a, 0))), DigestBytes(encode(StreamSeed(b, 0)));
    assert x != y;
    DigestLength(encode(StreamSeed(a, 0)));
    DigestLength(encode(StreamSeed(b, 0)));
    var i :| 0 <= i < 71 && x[i] != y[i];
    StreamIsDigests(encode, a, 0, i);
    StreamIsDigests(encode, b, 0, i);
  }

  lemma DigestLength(bytes: Bytes)
    ensures |DigestBytes(bytes)| == 71
  {
    hide DigestBytes;
    assert Sha256.IsDigestText(DigestBytes(bytes));
  }

  /**
   * An archive of at least one block, sealed with one key, does not open with a key of the same id and another secret,
   * short of a collision of the two seeds or of the two plaintexts.
   */
  lemma WrongSecretIsRefused(
    encode: Encode, artifactKey: string, plaintext: Bytes, signing: SigningKey, a: EncryptionKey, b: EncryptionKey,
    remote: Option<RemoteTarget>)
    requires |plaintext| >= 71 && a.keyId == b.keyId && a.secret != b.secret
    requires var x, y := StreamSeed(a, 0), StreamSeed(b, 0);
             CollisionFree(encode(x), encode(y)) && (encode(x) == encode(y) ==> x == y)
    requires CollisionFree(XorWithKey(encode, XorWithKey(encode, plaintext, a), b), plaintext)
    ensures var s := Seal(encode, artifactKey, plaintext, signing, Some(a), remote);
            Open(encode, Record(artifactKey, s.bytes, DigestBytes(s.bytes)), s.manifest, Some(b)) == Err(Conflict)
  {
    hide XorWithKey, DigestBytes, Sign, StreamByte, StreamSeed;
    StreamsDiffer(encode, a, b);
    var i :| 0 <= i < 71 && StreamByte(encode, a, i) != StreamByte(encode, b, i);
    WrongByte(encode, plaintext, a, b, i);
  }

  lemma WrongByte(encode: Encode, plaintext: Bytes, a: EncryptionKey, b: EncryptionKey, i: nat)
    requires i < |plaintext| && StreamByte(encode, a, i) != StreamByte(encode, b, i)
    ensures XorWithKey(encode, XorWithKey(encode, plaintext, a), b) != plaintext
  {
    hide StreamByte, Xor;
    var sealed := XorWithKey(encode, plaintext, a);
    var p, x, y := plaintext[i], StreamByte(encode, a, i), StreamByte(encode, b, i);
    XorInvolution(p, x);
    if Xor(Xor(p, x), y) == p { XorInjective(Xor(p, x), x, y); }
    assert XorWithKey(encode, sealed, b)[i] == Xor(Xor(p, x), y);
  }
}
