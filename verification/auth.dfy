/** The salted password record of auth.py.

    A record is the Base64 text of `salt ++ key`, where `salt` is 32 bytes
    and `key` is PBKDF2-HMAC-SHA256 (section 5.2 of RFC 8018) of the UTF-8
    password under that salt with 100000 iterations. The key derivation is
    the parameter `kdf`, and the salt that `os.urandom(32)` draws is a
    parameter of `HashPassword`. */
module Auth {
  import opened Wrappers
  import opened Bytes
  import opened PySlice
  import Base64
  import Utf8

  const SaltLength: nat := 32
  const Iterations: nat := 100000

  /** Bytes in a PBKDF2-HMAC-SHA256 key when no length is asked for: the
      SHA-256 digest size. */
  const KeyLength: nat := 32

  /** `hashlib.pbkdf2_hmac('sha256', password, salt, iterations)` */
  type Kdf = (seq<Byte>, seq<Byte>, nat) -> seq<Byte>

  /** The key derivation returns keys of the SHA-256 digest size. */
  ghost predicate DerivesFullKeys(kdf: Kdf) {
    forall password, salt, n :: |kdf(password, salt, n)| == KeyLength
  }

  /** The key `hash_password` and `verify_password` derive. */
  function DeriveKey(kdf: Kdf, password: string, salt: seq<Byte>): seq<Byte> {
    kdf(Utf8.Encode(password), salt, Iterations)
  }

  /** `hash_password(password)` with the salt drawn: the Base64 text of the
      salt followed by the derived key. */
  function HashPassword(kdf: Kdf, password: string, salt: seq<Byte>): (record: string)
    requires |salt| == SaltLength
    ensures Base64.Decode(record) == Some(salt + DeriveKey(kdf, password, salt))
    ensures forall i :: 0 <= i < |record| ==> Base64.IsEncodingChar(record[i])
  {
    var record := Base64.Encode(salt + DeriveKey(kdf, password, salt));
    Base64.DecodeEncode(salt + DeriveKey(kdf, password, salt));
    Base64.EncodeChars(salt + DeriveKey(kdf, password, salt));
    record
  }

  /** `verify_password(plain, hashed)`: the record's first 32 bytes are the
      salt and the rest is the stored key; the password is right when it
      derives the stored key under that salt. A record that does not decode
      gives `false`; nothing raises. */
  function VerifyPassword(kdf: Kdf, plain: string, hashed: string): (ok: bool)
    ensures Base64.Decode(hashed).None? ==> !ok
    ensures ok <==> && Base64.Decode(hashed).Some?
                    && var decoded := Base64.Decode(hashed).value;
                       DeriveKey(kdf, plain, Take(decoded, SaltLength)) == Drop(decoded, SaltLength)
  {
    match Base64.Decode(hashed)
    case None => false
    case Some(decoded) =>
      var salt := Take(decoded, SaltLength);
      var storedKey := Drop(decoded, SaltLength);
      DeriveKey(kdf, plain, salt) == storedKey
  }

  /** Layout of a record: the decoded bytes split at 32 give back exactly
      the salt and the derived key. */
  lemma RecordLayout(kdf: Kdf, password: string, salt: seq<Byte>)
    requires |salt| == SaltLength
    ensures var decoded := Base64.Decode(HashPassword(kdf, password, salt)).value;
      && Take(decoded, SaltLength) == salt
      && Drop(decoded, SaltLength) == DeriveKey(kdf, password, salt)
  {
    SplitConcat(salt, DeriveKey(kdf, password, salt));
  }

  /** A password verifies against every record hashed from it. */
  lemma VerifyHashedPassword(kdf: Kdf, password: string, salt: seq<Byte>)
    requires |salt| == SaltLength
    ensures VerifyPassword(kdf, password, HashPassword(kdf, password, salt))
  {
    RecordLayout(kdf, password, salt);
  }

  /** With keys of the digest size, only a record of exactly 64 bytes can
      verify: a shorter one leaves the stored key too short (or empty), a
      longer one too long. */
  lemma WrongLengthNeverVerifies(kdf: Kdf, plain: string, hashed: string)
    requires DerivesFullKeys(kdf)
    requires Base64.Decode(hashed).Some?
    requires |Base64.Decode(hashed).value| != SaltLength + KeyLength
    ensures !VerifyPassword(kdf, plain, hashed)
  {
    var decoded := Base64.Decode(hashed).value;
    assert |DeriveKey(kdf, plain, Take(decoded, SaltLength))| == KeyLength;
  }

  /** The same password hashed under two different salts gives two
      different records. */
  lemma DistinctSaltsDistinctRecords(kdf: Kdf, password: string, s1: seq<Byte>, s2: seq<Byte>)
    requires |s1| == SaltLength && |s2| == SaltLength && s1 != s2
    ensures HashPassword(kdf, password, s1) != HashPassword(kdf, password, s2)
  {
    RecordLayout(kdf, password, s1);
    RecordLayout(kdf, password, s2);
  }

  /** Against a record hashed under a salt, a password verifies exactly
      when it derives the same key under that salt. */
  lemma VerifyAgainstRecord(kdf: Kdf, password: string, plain: string, salt: seq<Byte>)
    requires |salt| == SaltLength
    ensures VerifyPassword(kdf, plain, HashPassword(kdf, password, salt))
        <==> DeriveKey(kdf, plain, salt) == DeriveKey(kdf, password, salt)
  {
    RecordLayout(kdf, password, salt);
  }

  /** A password whose key under the salt differs from the hashed one's does
      not verify against the record. */
  lemma WrongPasswordRejected(kdf: Kdf, password: string, other: string, salt: seq<Byte>)
    requires |salt| == SaltLength
    requires DeriveKey(kdf, other, salt) != DeriveKey(kdf, password, salt)
    ensures !VerifyPassword(kdf, other, HashPassword(kdf, password, salt))
  {
    RecordLayout(kdf, password, salt);
  }

  /** A record without `=` whose alphabet characters do not make whole
      quanta is rejected rather than raising; "not-valid-base64!!", with its
      fourteen alphabet characters, is one. */
  lemma OpenRecordRejected(kdf: Kdf, plain: string, hashed: string)
    requires Base64.Pad !in hashed
    requires Base64.DataCount(hashed) % 4 != 0
    ensures !VerifyPassword(kdf, plain, hashed)
  {
    Base64.OpenQuantumRejected(hashed, Base64.Start);
  }
}
