/**
 * Encryption of the resident-number prefix at rest.
 *
 * The key is the first 32 characters of `ENCRYPTION_SECRET`, which must be
 * ASCII for the key to be 32 bytes long; a blob is
 * `iv(16) ++ tag(16) ++ ciphertext`. AES-256-GCM itself is replaced by a
 * stand-in authenticated stream cipher with the same interface: a keystream
 * drawn from the key and the iv, and a 16-byte tag over the ciphertext that
 * decryption checks. Text becomes bytes through a fixed three-bytes-per-
 * character encoding that stands in for UTF-8.
 */
module Crypto {
  import opened Wrappers
  import opened Text

  const IvLength: nat := 16
  const TagLength: nat := 16
  const KeyLength: nat := 32

  /** The output of `crypto.randomBytes(IV_LENGTH)`. */
  type Iv = s: seq<byte> | |s| == IvLength witness seq(16, _ => 0 as byte)

  type Key = s: string | |s| == KeyLength witness seq(32, _ => '0')

  const SecretTooShort: string := "ENCRYPTION_SECRET must be at least 32 characters"
  const InvalidIv: string := "Invalid initialization vector"
  const InvalidKeyLength: string := "Invalid key length"
  const AuthenticationFailed: string := "Unsupported state or unable to authenticate data"

  /** `s.padEnd(n, fill)`. */
  function PadEnd(s: string, n: nat, fill: char): (r: string)
    ensures |r| == if |s| >= n then |s| else n
    ensures s <= r
  {
    if |s| >= n then s else s + seq(n - |s|, _ => fill)
  }

  /** `s.length`: UTF-16 code units, two for a character outside the Basic Multilingual Plane. */
  function Utf16Length(s: string): (n: nat)
    ensures n >= |s|
  {
    if s == [] then 0 else (if s[0] >= '\U{10000}' then 2 else 1) + Utf16Length(s[1..])
  }

  /**
   * `Buffer.from(secret.slice(0, 32), 'utf8')` is exactly 32 bytes only when
   * the first 32 characters are each one UTF-8 byte; any other key makes
   * `createCipheriv` and `createDecipheriv` throw.
   */
  predicate KeyBytesFit(s: string) {
    |s| >= KeyLength && forall i :: 0 <= i < KeyLength ==> s[i] < '\U{80}'
  }

  /**
   * `getEncryptionKey` together with the key-length check of the cipher: a
   * missing secret, or one shorter than 32 UTF-16 units, is the explicit error;
   * a long enough secret whose first 32 characters are not all ASCII gives a
   * key of the wrong length; otherwise the key is the first 32 characters and
   * the padding never adds anything.
   */
  function EncryptionKey(secret: Option<string>): (r: Result<Key>)
    ensures r.Success? <==> secret.Some? && KeyBytesFit(secret.value)
    ensures r.Success? ==> r.value == secret.value[..KeyLength]
    ensures secret.None? || Utf16Length(secret.value) < KeyLength ==> r == Failure(SecretTooShort)
    ensures r.Failure? ==> r.error in {SecretTooShort, InvalidKeyLength}
  {
    if secret.None? || Utf16Length(secret.value) < KeyLength then Failure(SecretTooShort)
    else if !KeyBytesFit(secret.value) then Failure(InvalidKeyLength)
    else Success(PadEnd(secret.value[..KeyLength], KeyLength, '0'))
  }

  /** A secret long enough by `length` but starting with a non-ASCII character still yields no key. */
  lemma NonAsciiSecretHasNoKey(s: string)
    requires |s| >= KeyLength && s[0] >= '\U{80}'
    ensures EncryptionKey(Some(s)) == Failure(InvalidKeyLength)
  {
  }

  // ---------------------------------------------------------------------------
  // Text to bytes

  function EncodeChar(c: char): seq<byte> {
    var cp := c as int;
    [(cp / 65536) as byte, (cp / 256 % 256) as byte, (cp % 256) as byte]
  }

  function EncodeText(s: string): (r: seq<byte>)
    ensures |r| == 3 * |s|
  {
    if s == [] then [] else EncodeChar(s[0]) + EncodeText(s[1..])
  }

  /** One character from three bytes; a value that is not a character becomes U+FFFD. */
  function DecodeUnit(b0: byte, b1: byte, b2: byte): char {
    var cp := b0 as int * 65536 + b1 as int * 256 + b2 as int;
    if cp < 0xD800 || 0xE000 <= cp < 0x110000 then cp as char else '\U{FFFD}'
  }

  /** Decoding never fails: a trailing partial unit becomes U+FFFD, as Node's decoder does. */
  function DecodeText(b: seq<byte>): string {
    if |b| < 3 then (if b == [] then [] else ['\U{FFFD}'])
    else [DecodeUnit(b[0], b[1], b[2])] + DecodeText(b[3..])
  }

  lemma CharRoundTrip(c: char)
    ensures var e := EncodeChar(c); DecodeUnit(e[0], e[1], e[2]) == c
  {
    var cp := c as int;
    assert cp / 256 == cp / 65536 * 256 + cp / 256 % 256;
    assert cp == cp / 256 * 256 + cp % 256;
  }

  /** Decoding the encoding of a text gives the text back. */
  lemma {:induction false} TextRoundTrip(s: string)
    ensures DecodeText(EncodeText(s)) == s
  {
    if s != [] {
      CharRoundTrip(s[0]);
      TextRoundTrip(s[1..]);
      var e := EncodeText(s);
      assert e[3..] == EncodeText(s[1..]);
      assert e[..3] == EncodeChar(s[0]);
    }
  }

  // ---------------------------------------------------------------------------
  // The stand-in cipher

  function KeyByte(key: Key, i: nat): int {
    (key[i % KeyLength] as int) % 256
  }

  function Keystream(key: Key, iv: seq<byte>, i: nat): int
    requires |iv| > 0
  {
    (KeyByte(key, i) + iv[i % |iv|] as int + i) % 256
  }

  function Seal(key: Key, iv: seq<byte>, plain: seq<byte>): (body: seq<byte>)
    requires |iv| > 0
    ensures |body| == |plain|
  {
    seq(|plain|, i requires 0 <= i < |plain| => ((plain[i] as int + Keystream(key, iv, i)) % 256) as byte)
  }

  function Open(key: Key, iv: seq<byte>, body: seq<byte>): (plain: seq<byte>)
    requires |iv| > 0
    ensures |plain| == |body|
  {
    seq(|body|, i requires 0 <= i < |body| => ((body[i] as int - Keystream(key, iv, i)) % 256) as byte)
  }

  /** Opening with the same key and iv undoes sealing. */
  lemma OpenSeal(key: Key, iv: seq<byte>, plain: seq<byte>)
    requires |iv| > 0
    ensures Open(key, iv, Seal(key, iv, plain)) == plain
  {
    var body := Seal(key, iv, plain);
    forall i | 0 <= i < |plain|
      ensures Open(key, iv, body)[i] == plain[i]
    {
      var k := Keystream(key, iv, i);
      var p := plain[i] as int;
      assert body[i] as int == (p + k) % 256;
      assert ((p + k) % 256 - k) % 256 == p;
    }
  }

  function Checksum(bytes: seq<byte>): nat {
    if bytes == [] then 0 else bytes[0] as int + Checksum(bytes[1..])
  }

  /** The authentication tag over a ciphertext body. */
  function Tag(key: Key, iv: seq<byte>, body: seq<byte>): (t: seq<byte>)
    requires |iv| > 0
    ensures |t| == TagLength
  {
    seq(TagLength, j requires 0 <= j < TagLength =>
      ((KeyByte(key, TagLength + j) + iv[j % |iv|] as int + Checksum(body) + j) % 256) as byte)
  }

  // ---------------------------------------------------------------------------
  // Framing

  datatype Parts = Parts(iv: seq<byte>, tag: seq<byte>, body: seq<byte>)

  /** `Buffer.concat([iv, tag, encrypted])`. */
  function Frame(p: Parts): seq<byte> {
    p.iv + p.tag + p.body
  }

  /** `subarray(0, 16)`, `subarray(16, 32)`, `subarray(32)`, clamped like Node's. */
  function Unframe(blob: seq<byte>): Parts {
    Parts(Take(blob, IvLength), Slice(blob, IvLength, IvLength + TagLength), Drop(blob, IvLength + TagLength))
  }

  /** Splitting at offsets 16 and 32 inverts the framing of a 16-byte iv and a 16-byte tag. */
  lemma UnframeFrame(p: Parts)
    requires |p.iv| == IvLength && |p.tag| == TagLength
    ensures Unframe(Frame(p)) == p
  {
    var blob := Frame(p);
    assert blob[..IvLength] == p.iv;
    assert blob[IvLength..IvLength + TagLength] == p.tag;
    assert blob[IvLength + TagLength..] == p.body;
  }

  /** Gluing the three parts of any blob back together gives the blob. */
  lemma FrameUnframe(blob: seq<byte>)
    ensures Frame(Unframe(blob)) == blob
  {
    var p := Unframe(blob);
    assert p.iv + p.tag == Take(blob, IvLength + TagLength);
  }

  // ---------------------------------------------------------------------------
  // encrypt and decrypt

  /** `encrypt(text)` with the iv drawn by the caller; the base64 step is left out. */
  function Encrypt(secret: Option<string>, iv: Iv, text: string): (r: Result<seq<byte>>)
    ensures r.Success? <==> EncryptionKey(secret).Success?
    ensures r.Failure? ==> r.error == EncryptionKey(secret).error
    ensures r.Success? ==> |r.value| == IvLength + TagLength + 3 * |text| && r.value[..IvLength] == iv
  {
    match EncryptionKey(secret)
    case Failure(e) => Failure(e)
    case Success(key) =>
      var body := Seal(key, iv, EncodeText(text));
      Success(Frame(Parts(iv, Tag(key, iv, body), body)))
  }

  /** `decrypt(blob)`: fails on a bad secret, an empty iv, or a tag that does not verify. */
  function Decrypt(secret: Option<string>, blob: seq<byte>): (r: Result<string>)
    ensures EncryptionKey(secret).Failure? ==> r == Failure(EncryptionKey(secret).error)
    ensures |blob| == 0 && EncryptionKey(secret).Success? ==> r == Failure(InvalidIv)
  {
    match EncryptionKey(secret)
    case Failure(e) => Failure(e)
    case Success(key) =>
      var p := Unframe(blob);
      if |p.iv| == 0 then Failure(InvalidIv)
      else if p.tag != Tag(key, p.iv, p.body) then Failure(AuthenticationFailed)
      else Success(DecodeText(Open(key, p.iv, p.body)))
  }

  /** Decrypting what `encrypt` produced gives back the original text. */
  lemma DecryptEncrypt(secret: Option<string>, iv: Iv, text: string)
    requires EncryptionKey(secret).Success?
    ensures Decrypt(secret, Encrypt(secret, iv, text).value) == Success(text)
  {
    var key := EncryptionKey(secret).value;
    var body := Seal(key, iv, EncodeText(text));
    UnframeFrame(Parts(iv, Tag(key, iv, body), body));
    OpenSeal(key, iv, EncodeText(text));
    TextRoundTrip(text);
  }

  /** Two encryptions of the same text under different ivs give different blobs. */
  lemma DistinctIvsGiveDistinctBlobs(secret: Option<string>, iv1: Iv, iv2: Iv, text: string)
    requires EncryptionKey(secret).Success? && iv1 != iv2
    ensures Encrypt(secret, iv1, text).value != Encrypt(secret, iv2, text).value
  {
    assert Encrypt(secret, iv1, text).value[..IvLength] == iv1;
  }

  /** Changing any byte of the tag makes decryption fail. */
  lemma TagTamperingDetected(secret: Option<string>, iv: Iv, text: string, j: nat, v: byte)
    requires EncryptionKey(secret).Success?
    requires IvLength <= j < IvLength + TagLength
    requires Encrypt(secret, iv, text).value[j] != v
    ensures Decrypt(secret, Encrypt(secret, iv, text).value[j := v]).Failure?
  {
    var key := EncryptionKey(secret).value;
    var body := Seal(key, iv, EncodeText(text));
    var tag := Tag(key, iv, body);
    var blob := Encrypt(secret, iv, text).value;
    assert blob == iv + tag + body;
    var forged := blob[j := v];
    var p := Unframe(forged);
    assert p.iv == iv;
    assert p.body == body;
    assert p.tag[j - IvLength] == v != tag[j - IvLength];
  }
}
