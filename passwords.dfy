/**
 * Password hashing as main.py does it: the password is encoded as UTF-8,
 * cut to its first 72 bytes (the most bcrypt reads), and only that key is
 * hashed or checked.
 *
 * bcrypt itself is not modelled. A hash is the constructor `Bcrypt(salt,
 * key)`: an uninterpreted, collision-free function of the salt and the key.
 * bcrypt draws a fresh random salt per hash; here the salt is a parameter.
 */
module Passwords {

  newtype byte = x: int | 0 <= x < 256

  /** The number of leading key bytes bcrypt uses. */
  const BCRYPT_KEY_BYTES: nat := 72

  /** The UTF-8 encoding of one Unicode scalar value. */
  function EncodeChar(c: char): (b: seq<byte>)
    ensures 1 <= |b| <= 4
    ensures |b| == 1 <==> c as int < 0x80
    ensures c as int < 0x80 ==> b[0] as int == c as int
  {
    var cp := c as int;
    if cp < 0x80 then
      [cp as byte]
    else if cp < 0x800 then
      [(0xC0 + cp / 0x40) as byte, (0x80 + cp % 0x40) as byte]
    else if cp < 0x10000 then
      [(0xE0 + cp / 0x1000) as byte, (0x80 + cp / 0x40 % 0x40) as byte, (0x80 + cp % 0x40) as byte]
    else
      [(0xF0 + cp / 0x40000) as byte, (0x80 + cp / 0x1000 % 0x40) as byte,
       (0x80 + cp / 0x40 % 0x40) as byte, (0x80 + cp % 0x40) as byte]
  }

  /** `password.encode("utf-8")`. */
  function Utf8(s: string): (b: seq<byte>)
    ensures |s| <= |b| <= 4 * |s|
  {
    if s == [] then [] else EncodeChar(s[0]) + Utf8(s[1..])
  }

  predicate IsAscii(s: string) {
    forall i :: 0 <= i < |s| ==> s[i] as int < 0x80
  }

  /** `password.encode("utf-8")[:72]`: the bytes bcrypt actually sees. */
  function BcryptKey(password: string): (k: seq<byte>)
    ensures |k| <= BCRYPT_KEY_BYTES
    ensures k <= Utf8(password)
    ensures |k| < BCRYPT_KEY_BYTES ==> k == Utf8(password)
  {
    var b := Utf8(password);
    if |b| <= BCRYPT_KEY_BYTES then b else b[..BCRYPT_KEY_BYTES]
  }

  datatype PasswordHash = Bcrypt(salt: nat, key: seq<byte>)

  /** `hash_password` (main.py:140-141), with the random salt as a parameter. */
  function HashPassword(password: string, salt: nat): PasswordHash {
    Bcrypt(salt, BcryptKey(password))
  }

  /** `verify_password` (main.py:144-145): rehash the key with the stored salt and compare. */
  predicate VerifyPassword(password: string, hashed: PasswordHash) {
    Bcrypt(hashed.salt, BcryptKey(password)) == hashed
  }

  /**
   * passlib refuses a secret that holds a NUL byte (main.py:32): hashing or
   * checking such a key raises instead of returning.
   */
  predicate Hashable(password: string) {
    0 !in BcryptKey(password)
  }

  /** Encoding distributes over concatenation. */
  lemma {:induction false} Utf8Append(a: string, b: string)
    ensures Utf8(a + b) == Utf8(a) + Utf8(b)
  {
    if a == [] {
      assert a + b == b;
    } else {
      assert (a + b)[0] == a[0];
      assert (a + b)[1..] == a[1..] + b;
      Utf8Append(a[1..], b);
    }
  }

  /** A password checks against a hash exactly when its key equals the hashed key: the salt plays no part. */
  lemma VerifyAgainstHash(password: string, original: string, salt: nat)
    ensures VerifyPassword(password, HashPassword(original, salt)) <==> BcryptKey(password) == BcryptKey(original)
  {
  }

  /** Two passwords with the same first 72 bytes are interchangeable for every stored hash. */
  lemma SameKeyInterchangeable(p: string, q: string, hashed: PasswordHash)
    requires BcryptKey(p) == BcryptKey(q)
    ensures VerifyPassword(p, hashed) <==> VerifyPassword(q, hashed)
  {
  }

  /** Whatever follows the first 72 bytes of a password is ignored by both hashing and checking. */
  lemma {:induction false} TailIgnored(p: string, tail: string, salt: nat)
    requires |Utf8(p)| >= BCRYPT_KEY_BYTES
    ensures BcryptKey(p + tail) == BcryptKey(p)
    ensures VerifyPassword(p + tail, HashPassword(p, salt))
  {
    Utf8Append(p, tail);
    assert Utf8(p + tail)[..BCRYPT_KEY_BYTES] == Utf8(p)[..BCRYPT_KEY_BYTES];
  }

  /** For an ASCII password every character is one byte, so the key is its first 72 characters. */
  lemma {:induction false} AsciiKeyLength(p: string)
    requires IsAscii(p)
    ensures |Utf8(p)| == |p|
    ensures |BcryptKey(p)| == if |p| < BCRYPT_KEY_BYTES then |p| else BCRYPT_KEY_BYTES
  {
    if p != [] {
      assert IsAscii(p[1..]) by {
        forall i | 0 <= i < |p[1..]| ensures p[1..][i] as int < 0x80 {
          assert p[1..][i] == p[i + 1];
        }
      }
      AsciiKeyLength(p[1..]);
    }
  }

  /** The encoding holds a NUL byte exactly when the string holds a NUL character. */
  lemma {:induction false} Utf8HasNul(s: string)
    ensures 0 in Utf8(s) <==> '\0' in s
  {
    if s != [] {
      assert s == [s[0]] + s[1..];
      assert 0 in EncodeChar(s[0]) <==> s[0] == '\0';
      Utf8HasNul(s[1..]);
    }
  }

  /** A password without a NUL character is always accepted. */
  lemma NoNulHashable(p: string)
    requires '\0' !in p
    ensures Hashable(p)
  {
    Utf8HasNul(p);
  }

  /** A NUL character that starts within the first 72 bytes makes the password unusable. */
  lemma EarlyNulRefused(a: string, b: string)
    requires |Utf8(a)| < BCRYPT_KEY_BYTES
    ensures !Hashable(a + ['\0'] + b)
  {
    var x := a + ['\0'];
    assert Utf8(['\0']) == [0] by {
      assert ['\0'][1..] == [];
    }
    Utf8Append(a, ['\0']);
    Utf8Append(x, b);
    var k := |Utf8(a)|;
    assert Utf8(x)[k] == 0;
    assert Utf8(x + b)[k] == 0;
    assert BcryptKey(x + b)[k] == 0;
  }
}
