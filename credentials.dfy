/** bcrypt and JSON Web Tokens, as the code uses them. Neither is computed.
    A digest is a symbolic term that remembers its salt, its cost and the
    key bytes bcrypt's key schedule reads from the password: the password's
    UTF-8 bytes followed by a NUL byte, repeated, of which only the first 72
    are used. So `compare(p, hash(p))` holds, two passwords that share their
    first 72 bytes are interchangeable, and shorter passwords are told apart
    exactly. A token records its subject and its lifetime. */
module Credentials {

  /** How many key bytes bcrypt's key schedule reads. */
  const KeyBytes := 72

  /** The UTF-8 encoding of one character, as byte values. */
  function CharBytes(c: char): (b: seq<nat>)
    ensures 1 <= |b| <= 4 && |b| == LeadWidth(b[0])
    ensures forall k :: 0 <= k < |b| ==> b[k] < 256
    ensures c != '\0' ==> forall k :: 0 <= k < |b| ==> b[k] != 0
    ensures c as int < 0x80 ==> b == [c as int]
  {
    var n := c as int;
    if n < 0x80 then [n]
    else if n < 0x800 then [0xC0 + n / 64, 0x80 + n % 64]
    else if n < 0x10000 then [0xE0 + n / 4096, 0x80 + (n / 64) % 64, 0x80 + n % 64]
    else [0xF0 + n / 262144, 0x80 + (n / 4096) % 64, 0x80 + (n / 64) % 64, 0x80 + n % 64]
  }

  /** The length of a UTF-8 sequence, read off its lead byte. */
  function LeadWidth(lead: nat): nat {
    if lead < 0x80 then 1 else if lead < 0xE0 then 2 else if lead < 0xF0 then 3 else 4
  }

  /** The code point a UTF-8 sequence of one character encodes. */
  function DecodeChar(b: seq<nat>): int
    requires 1 <= |b| <= 4
  {
    var b0: int, b1: int := b[0], if |b| > 1 then b[1] else 0;
    if |b| == 1 then b0
    else if |b| == 2 then (b0 - 0xC0) * 64 + (b1 - 0x80)
    else if |b| == 3 then (b0 - 0xE0) * 4096 + (b1 - 0x80) * 64 + (b[2] as int - 0x80)
    else (b0 - 0xF0) * 262144 + (b1 - 0x80) * 4096 + (b[2] as int - 0x80) * 64 + (b[3] as int - 0x80)
  }

  /** Decoding undoes the encoding of a character. */
  lemma DecodeCharBytes(c: char)
    ensures DecodeChar(CharBytes(c)) == c as int
  {
    var n := c as int;
    if 0x10000 <= n {
      var q := n / 64;
      var r := q / 64;
      assert n == q * 64 + n % 64;
      assert q == r * 64 + q % 64;
      assert r == n / 4096;
      assert r == (r / 64) * 64 + r % 64;
      assert r / 64 == n / 262144;
    } else if 0x800 <= n {
      var q := n / 64;
      assert n == q * 64 + n % 64;
      assert q == (q / 64) * 64 + q % 64;
      assert q / 64 == n / 4096;
    }
  }

  /** The UTF-8 encoding of a string. */
  function Utf8(s: string): (b: seq<nat>)
    ensures |s| <= |b| <= 4 * |s|
  {
    if s == [] then [] else CharBytes(s[0]) + Utf8(s[1..])
  }

  lemma {:induction false} Utf8Append(s: string, t: string)
    ensures Utf8(s + t) == Utf8(s) + Utf8(t)
  {
    if s == [] {
      assert s + t == t;
    } else {
      assert (s + t)[0] == s[0];
      assert (s + t)[1..] == s[1..] + t;
      Utf8Append(s[1..], t);
    }
  }

  /** ASCII text is its own UTF-8 encoding. */
  lemma {:induction false} Utf8Ascii(s: string)
    requires forall i :: 0 <= i < |s| ==> s[i] as int < 0x80
    ensures |Utf8(s)| == |s|
    ensures forall i :: 0 <= i < |s| ==> Utf8(s)[i] == s[i] as int
  {
    if s != [] {
      Utf8Ascii(s[1..]);
    }
  }

  /** Text without a NUL character encodes to bytes without a zero. */
  lemma {:induction false} Utf8NoZero(s: string)
    requires forall i :: 0 <= i < |s| ==> s[i] != '\0'
    ensures forall k :: 0 <= k < |Utf8(s)| ==> Utf8(s)[k] != 0
  {
    if s != [] {
      Utf8NoZero(s[1..]);
      var h := CharBytes(s[0]);
      forall k | 0 <= k < |Utf8(s)| ensures Utf8(s)[k] != 0 {
        if k >= |h| {
          assert Utf8(s)[k] == Utf8(s[1..])[k - |h|];
        }
      }
    }
  }

  /** The encoding of the first character is recognised at the head of any encoding. */
  lemma CharBytesPrefix(x: char, y: char, u: seq<nat>, v: seq<nat>)
    requires CharBytes(x) + u == CharBytes(y) + v
    ensures x == y && u == v
  {
    var bv, bw := CharBytes(x), CharBytes(y);
    assert bv[0] == (bv + u)[0] == bw[0];
    assert bv == (bv + u)[..|bv|] == (bw + v)[..|bw|] == bw;
    DecodeCharBytes(x);
    DecodeCharBytes(y);
    assert u == (bv + u)[|bv|..] == (bw + v)[|bw|..] == v;
  }

  /** Different texts have different encodings. */
  lemma {:induction false} Utf8Injective(s: string, t: string)
    requires Utf8(s) == Utf8(t)
    ensures s == t
  {
    if s != [] && t != [] {
      CharBytesPrefix(s[0], t[0], Utf8(s[1..]), Utf8(t[1..]));
      Utf8Injective(s[1..], t[1..]);
      assert s == [s[0]] + s[1..];
      assert t == [t[0]] + t[1..];
    }
  }

  /** The bytes bcrypt's key schedule reads from a password: its UTF-8 bytes
      and a terminating NUL, repeated until 72 bytes are taken. */
  function Key(password: string): (k: seq<nat>)
    ensures |k| == KeyBytes
  {
    var b := Utf8(password) + [0];
    seq(KeyBytes, i => b[i % |b|])
  }

  /** The output of `bcrypt.hash(password, rounds)` with the given salt. */
  datatype Digest = Digest(salt: string, rounds: nat, key: seq<nat>)

  /** `bcrypt.hash(password, 10)`; the salt is drawn at random by bcrypt.
      The digest accepts the password it was made from. */
  function Hash(password: string, salt: string): (d: Digest)
    ensures d.rounds == 10 && d.salt == salt
    ensures Compare(password, d)
  {
    Digest(salt, 10, Key(password))
  }

  /** `bcrypt.compare(candidate, digest)`: the candidate's key bytes are the digest's. */
  predicate Compare(candidate: string, digest: Digest) {
    Key(candidate) == digest.key
  }

  /** For passwords of at most 72 bytes without a NUL character, a digest
      accepts the password it was made from and no other. */
  lemma CompareHash(password: string, candidate: string, salt: string)
    requires |Utf8(password)| <= KeyBytes && |Utf8(candidate)| <= KeyBytes
    requires forall i :: 0 <= i < |password| ==> password[i] != '\0'
    requires forall i :: 0 <= i < |candidate| ==> candidate[i] != '\0'
    ensures Compare(candidate, Hash(password, salt)) <==> candidate == password
  {
    if Compare(candidate, Hash(password, salt)) {
      var bp, bc := Utf8(password), Utf8(candidate);
      Utf8NoZero(password);
      Utf8NoZero(candidate);
      KeyReadsBytes(password);
      KeyReadsBytes(candidate);
      if |bc| < |bp| {
        assert false;
      } else if |bp| < |bc| {
        assert false;
      }
      assert bc == bp by {
        forall i | 0 <= i < |bp| ensures bc[i] == bp[i] {
          assert Key(candidate)[i] == Key(password)[i];
        }
      }
      Utf8Injective(candidate, password);
    }
  }

  /** The key of a password of at most 72 bytes starts with its bytes and,
      when there is room, the NUL byte. */
  lemma KeyReadsBytes(password: string)
    requires |Utf8(password)| <= KeyBytes
    ensures forall i :: 0 <= i < |Utf8(password)| ==> Key(password)[i] == Utf8(password)[i]
    ensures |Utf8(password)| < KeyBytes ==> Key(password)[|Utf8(password)|] == 0
  {
    var b := Utf8(password) + [0];
    forall i | 0 <= i < |Utf8(password)| ensures Key(password)[i] == Utf8(password)[i] {
      ModBelow(i, |b|);
      assert Key(password)[i] == b[i];
    }
    if |Utf8(password)| < KeyBytes {
      ModBelow(|Utf8(password)|, |b|);
      assert Key(password)[|Utf8(password)|] == b[|Utf8(password)|];
    }
  }

  lemma ModBelow(i: nat, n: nat)
    requires i < n
    ensures i % n == i
  {
  }

  /** Passwords that share their first 72 bytes match each other's digests. */
  lemma SharedPrefixAccepted(password: string, candidate: string, salt: string)
    requires |Utf8(password)| >= KeyBytes && |Utf8(candidate)| >= KeyBytes
    requires Utf8(candidate)[..KeyBytes] == Utf8(password)[..KeyBytes]
    ensures Compare(candidate, Hash(password, salt))
  {
    KeyOfLongPassword(password);
    KeyOfLongPassword(candidate);
  }

  /** The key of a password of 72 bytes or more is its first 72 bytes. */
  lemma KeyOfLongPassword(password: string)
    requires |Utf8(password)| >= KeyBytes
    ensures Key(password) == Utf8(password)[..KeyBytes]
  {
    var b := Utf8(password) + [0];
    forall i | 0 <= i < KeyBytes ensures Key(password)[i] == Utf8(password)[..KeyBytes][i] {
      ModBelow(i, |b|);
      assert Key(password)[i] == b[i];
    }
  }

  /** Seventy-two letters 'a'. */
  function Letters72(): (s: string)
    ensures |s| == 72 && forall i :: 0 <= i < |s| ==> s[i] == 'a'
  {
    seq(72, _ => 'a')
  }

  /** A digest made from a 73-character password accepts a different one. */
  lemma LongPasswordsCollide(salt: string)
    ensures Letters72() + "2" != Letters72() + "1"
    ensures Compare(Letters72() + "2", Hash(Letters72() + "1", salt))
  {
    var a := Letters72();
    assert (a + "2")[72] != (a + "1")[72];
    Utf8Ascii(a);
    Utf8Append(a, "1");
    Utf8Append(a, "2");
    assert Utf8(a + "1")[..KeyBytes] == Utf8(a);
    assert Utf8(a + "2")[..KeyBytes] == Utf8(a);
    SharedPrefixAccepted(a + "1", a + "2", salt);
  }

  /** A signed token: `jwt.sign({ id: subject }, secret, { expiresIn })`. */
  datatype Token = Token(subject: string, expiresInHours: nat)

  /** Every token the controllers sign lives for 12 hours. */
  function Sign(subject: string): (t: Token)
    ensures t.subject == subject && t.expiresInHours == 12
  {
    Token(subject, 12)
  }
}
