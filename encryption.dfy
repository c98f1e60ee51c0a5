/**
 * The framing around password-based encryption of a todo file. The cipher
 * itself (PBKDF2, AES-CBC with PKCS#7 padding, SHA-256, Base64 and UTF-8) is
 * a `Primitives` value of functions; what is modelled is how the salt, the
 * IV and the ciphertext are framed into one envelope, how that envelope is
 * checked and taken apart, which errors surface with which message, and
 * the password generator's mapping from random bytes to characters.
 */
module Encryption {
  import opened Wrappers
  import opened Strings

  // Options

  /** `DEFAULT_OPTIONS`: PBKDF2 iterations, key size and IV size in 32-bit words. */
  const DefaultIterations: int := 10000
  const DefaultKeySize: int := 256 / 32
  const DefaultIvSize: int := 128 / 32

  /** `EncryptionOptions`: each field may be absent. */
  datatype EncryptionOptions = EncryptionOptions(iterations: Option<int>, keySize: Option<int>, ivSize: Option<int>)

  datatype Settings = Settings(iterations: int, keySize: int, ivSize: int)

  /** `{ ...DEFAULT_OPTIONS, ...options }`: a field that is given overrides the default. */
  function Effective(o: EncryptionOptions): (r: Settings)
    ensures r.iterations == if o.iterations.Some? then o.iterations.value else 10000
    ensures r.keySize == if o.keySize.Some? then o.keySize.value else 8
    ensures r.ivSize == if o.ivSize.Some? then o.ivSize.value else 4
  {
    Settings(o.iterations.GetOr(DefaultIterations), o.keySize.GetOr(DefaultKeySize), o.ivSize.GetOr(DefaultIvSize))
  }

  // The primitives

  /** What a primitive throws: an `Error` with its message, or some other value. */
  datatype Thrown = Error(message: string) | NonError

  datatype Outcome<T> = Returned(value: T) | Threw(thrown: Thrown)

  /**
   * The library calls the framing uses. `seal`/`unseal` stand for
   * `Base64.stringify(Utf8.parse(_))` and `Utf8.stringify(Base64.parse(_))`;
   * `encrypt`/`decrypt` for AES-CBC under the key and IV, the ciphertext as
   * Base64 and the plaintext read back as UTF-8.
   */
  datatype Primitives = Primitives(
    seal: string -> string,
    unseal: string -> Outcome<string>,
    hexParse: string -> seq<bv8>,
    deriveKey: (string, seq<bv8>, Settings) -> seq<bv8>,
    encrypt: (string, seq<bv8>, seq<bv8>) -> string,
    decrypt: (string, seq<bv8>, seq<bv8>) -> Outcome<string>,
    sha256Hex: string -> string)

  /** A ciphertext in Base64: non-empty and free of `:`. */
  predicate IsCiphertextText(s: string) {
    |s| > 0 && forall i :: 0 <= i < |s| ==> s[i] != ':'
  }

  /**
   * The laws of the primitives the round trip rests on: unsealing undoes
   * sealing, hex parsing undoes hex printing, decryption under the same key
   * and IV undoes encryption, and a ciphertext is non-empty Base64 text.
   */
  ghost predicate Inverts(p: Primitives) {
    && (forall s :: p.unseal(p.seal(s)) == Returned(s))
    && (forall b :: p.hexParse(HexString(b)) == b)
    && (forall d, k, iv :: p.decrypt(p.encrypt(d, k, iv), k, iv) == Returned(d))
    && (forall d, k, iv :: IsCiphertextText(p.encrypt(d, k, iv)))
  }

  // Hex text of bytes

  function HexDigit(n: nat): (c: char)
    requires n < 16
    ensures '0' <= c <= '9' || 'a' <= c <= 'f'
  {
    if n < 10 then '0' + n as char else 'a' + (n - 10) as char
  }

  /** `WordArray.toString()`: two lower-case hex digits per byte. */
  function HexString(b: seq<bv8>): (s: string)
    ensures |s| == 2 * |b|
    ensures forall i :: 0 <= i < |s| ==> s[i] != ':'
  {
    if |b| == 0 then ""
    else
      var v := b[0] as nat;
      [HexDigit(v / 16), HexDigit(v % 16)] + HexString(b[1..])
  }

  // The envelope

  /** The text that is sealed: `salt:iv:ciphertext`. */
  function EnvelopeText(data: string, password: string, s: Settings, salt: seq<bv8>, iv: seq<bv8>, p: Primitives): string {
    HexString(salt) + ":" + HexString(iv) + ":" + p.encrypt(data, p.deriveKey(password, salt, s), iv)
  }

  /** `encryptData(data, password, options)` with the random salt and IV as parameters. */
  function EncryptData(data: string, password: string, o: EncryptionOptions, salt: seq<bv8>, iv: seq<bv8>, p: Primitives): string {
    p.seal(EnvelopeText(data, password, Effective(o), salt, iv, p))
  }

  /** What `error.message` contributes to the wrapped message. */
  function Reason(t: Thrown): string {
    match t
    case Error(m) => m
    case NonError => "Unknown error"
  }

  const DecryptionFailed := "Decryption failed: "
  const InvalidFormat := "Invalid encrypted data format"
  const EmptyResult := "Invalid password or corrupted data"

  /** `decryptData(encryptedData, password, options)`: the plaintext, or the message of the error it throws. */
  function DecryptData(encrypted: string, password: string, o: EncryptionOptions, p: Primitives): Result<string> {
    match p.unseal(encrypted)
    case Threw(t) => Err(DecryptionFailed + Reason(t))
    case Returned(decoded) =>
      var parts := Split(decoded, ':');
      if |parts| != 3 then Err(DecryptionFailed + InvalidFormat)
      else
        var salt := p.hexParse(parts[0]);
        var iv := p.hexParse(parts[1]);
        var key := p.deriveKey(password, salt, Effective(o));
        match p.decrypt(parts[2], key, iv)
        case Threw(t) => Err(DecryptionFailed + Reason(t))
        case Returned(result) =>
          if result == "" then Err(DecryptionFailed + EmptyResult)
          else Ok(result)
  }

  /** `isValidEncryptedData(data)`: the unsealed text has exactly three parts, none empty; a throw means false. */
  predicate IsValidEncryptedData(data: string, p: Primitives) {
    match p.unseal(data)
    case Threw(_) => false
    case Returned(decoded) =>
      var parts := Split(decoded, ':');
      |parts| == 3 && forall k :: 0 <= k < |parts| ==> |parts[k]| > 0
  }

  /** Every failure of `decryptData` surfaces as one error whose message starts with "Decryption failed: ". */
  lemma DecryptErrorsAreWrapped(encrypted: string, password: string, o: EncryptionOptions, p: Primitives)
    ensures DecryptData(encrypted, password, o, p).Err? ==>
      StartsWith(DecryptData(encrypted, password, o, p).message, DecryptionFailed)
  {
  }

  /** A sealed text without exactly three parts is rejected for its format, whatever the password. */
  lemma DecryptRejectsBadFormat(encrypted: string, password: string, o: EncryptionOptions, p: Primitives)
    requires p.unseal(encrypted).Returned? && |Split(p.unseal(encrypted).value, ':')| != 3
    ensures DecryptData(encrypted, password, o, p) == Err(DecryptionFailed + InvalidFormat)
  {
  }

  /** Three parts split off a text that joins them with `:`. */
  lemma SplitThree(a: string, b: string, c: string)
    requires forall i :: 0 <= i < |a| ==> a[i] != ':'
    requires forall i :: 0 <= i < |b| ==> b[i] != ':'
    requires forall i :: 0 <= i < |c| ==> c[i] != ':'
    ensures Split(a + ":" + b + ":" + c, ':') == [a, b, c]
  {
    JoinThree(a, b, c);
    ThreeLackColon(a, b, c);
    JoinSplit([a, b, c], ':');
  }

  lemma JoinThree(a: string, b: string, c: string)
    ensures Join([a, b, c], [':']) == a + ":" + b + ":" + c
  {
    var parts := [a, b, c];
    assert Join(parts[1..], [':']) == b + ":" + c by {
      assert parts[1..][1..] == [c];
    }
  }

  lemma ThreeLackColon(a: string, b: string, c: string)
    requires forall i :: 0 <= i < |a| ==> a[i] != ':'
    requires forall i :: 0 <= i < |b| ==> b[i] != ':'
    requires forall i :: 0 <= i < |c| ==> c[i] != ':'
    ensures forall k, i :: 0 <= k < |[a, b, c]| && 0 <= i < |[a, b, c][k]| ==> [a, b, c][k][i] != ':'
  {
    forall k, i | 0 <= k < 3 && 0 <= i < |[a, b, c][k]|
      ensures [a, b, c][k][i] != ':'
    {
      if k == 0 {} else if k == 1 {} else {}
    }
  }

  /** The envelope unseals to the hex salt (32 digits for 16 bytes), the hex IV and the ciphertext. */
  lemma EnvelopeParts(data: string, password: string, o: EncryptionOptions, salt: seq<bv8>, iv: seq<bv8>, p: Primitives)
    requires Inverts(p)
    ensures var key := p.deriveKey(password, salt, Effective(o));
      p.unseal(EncryptData(data, password, o, salt, iv, p))
        == Returned(HexString(salt) + ":" + HexString(iv) + ":" + p.encrypt(data, key, iv))
    ensures var key := p.deriveKey(password, salt, Effective(o));
      Split(p.unseal(EncryptData(data, password, o, salt, iv, p)).value, ':')
        == [HexString(salt), HexString(iv), p.encrypt(data, key, iv)]
    ensures |salt| == 16 && |iv| == 16 ==> |HexString(salt)| == 32 && |HexString(iv)| == 32
  {
    var key := p.deriveKey(password, salt, Effective(o));
    SplitThree(HexString(salt), HexString(iv), p.encrypt(data, key, iv));
  }

  /** Every envelope `encryptData` produces from a 16-byte salt and IV passes `isValidEncryptedData`. */
  lemma EncryptedIsValid(data: string, password: string, o: EncryptionOptions, salt: seq<bv8>, iv: seq<bv8>, p: Primitives)
    requires Inverts(p) && |salt| == 16 && |iv| == 16
    ensures IsValidEncryptedData(EncryptData(data, password, o, salt, iv, p), p)
  {
    EnvelopeParts(data, password, o, salt, iv, p);
  }

  /**
   * Decrypting with the same password and options gives the data back when
   * it is not empty; an empty text decrypts to "" and is reported as a
   * wrong password.
   */
  lemma DecryptOfEncrypt(data: string, password: string, o: EncryptionOptions, salt: seq<bv8>, iv: seq<bv8>, p: Primitives)
    requires Inverts(p)
    ensures data != "" ==> DecryptData(EncryptData(data, password, o, salt, iv, p), password, o, p) == Ok(data)
    ensures data == "" ==>
      DecryptData(EncryptData(data, password, o, salt, iv, p), password, o, p) == Err(DecryptionFailed + EmptyResult)
  {
    EnvelopeParts(data, password, o, salt, iv, p);
  }

  // Password generation

  const Charset := "ABCDEFGHIJKLMNOPQRSTUVWXYZabcdefghijklmnopqrstuvwxyz0123456789!@#$%^&*"

  const DefaultPasswordLength: int := 32

  /** Byte `i` of the random words, most significant byte of each word first. */
  function RandomByte(words: seq<bv32>, i: nat): (b: nat)
    requires i < 4 * |words|
    ensures b < 256
  {
    ((words[i / 4] >> (24 - (i % 4) * 8)) & 0xFF) as nat
  }

  /** Character `i` of the password: the charset entry at the random byte modulo 70. */
  function PasswordChar(words: seq<bv32>, i: nat): (c: char)
    requires i < 4 * |words|
    ensures c in Charset
  {
    Charset[RandomByte(words, i) % |Charset|]
  }

  /**
   * `generatePassword(length)` over the words `WordArray.random(length)`
   * returned: one charset character per byte, `length` of them.
   */
  method GeneratePassword(length: int, words: seq<bv32>) returns (password: string)
    requires length <= 4 * |words|
    ensures |password| == if length <= 0 then 0 else length
    ensures forall i :: 0 <= i < |password| ==> password[i] == PasswordChar(words, i)
  {
    password := "";
    var i := 0;
    while i < length
      invariant 0 <= i && (length <= 0 ==> i == 0) && (length > 0 ==> i <= length)
      invariant |password| == i
      invariant forall k :: 0 <= k < i ==> password[k] == PasswordChar(words, k)
    {
      var c := PasswordChar(words, i);
      PasswordGrows(words, password, c);
      password := password + [c];
      i := i + 1;
    }
  }

  lemma PasswordGrows(words: seq<bv32>, password: string, c: char)
    requires |password| < 4 * |words| && c == PasswordChar(words, |password|)
    requires forall k :: 0 <= k < |password| ==> password[k] == PasswordChar(words, k)
    ensures forall k :: 0 <= k < |password| + 1 ==> (password + [c])[k] == PasswordChar(words, k)
  {
  }

  // Password hashing

  /** `hashPassword(password)`: the SHA-256 digest in hex. */
  function HashPassword(password: string, p: Primitives): string {
    p.sha256Hex(password)
  }

  /** `verifyPassword(password, hash)`. */
  predicate VerifyPassword(password: string, hash: string, p: Primitives) {
    HashPassword(password, p) == hash
  }

  /** A password verifies against a hash exactly when it hashes to it, so always against its own hash. */
  lemma VerifyOwnHash(password: string, hash: string, p: Primitives)
    ensures VerifyPassword(password, HashPassword(password, p), p)
    ensures VerifyPassword(password, hash, p) <==> p.sha256Hex(password) == hash
  {
  }
}
