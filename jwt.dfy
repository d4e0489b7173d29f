/**
 * An abstract model of the signed tokens that `jose` produces (HS256 JWTs,
 * RFC 7519 with the HMAC algorithm of section 3.2 of RFC 7518).
 *
 * The real token is base64url(header).base64url(payload).HMAC. The model keeps
 * what matters to the application and drops the cryptography: a token is a
 * string from which its claims and its key can be read back exactly, and the
 * "signature" is the key itself, so a token verifies under a key iff it was
 * signed with that key (a perfect MAC). Every field is written with a unary
 * length prefix, which makes the encoding self-delimiting and injective.
 */
module Jwt {
  import opened Wrappers

  /** The payload the application signs: `{userId, email}` plus the `iat`/`exp` seconds jose adds. */
  datatype Claims = Claims(userId: string, email: string, iat: nat, exp: nat)

  /** A signing secret, as the text the environment variable holds. */
  type Key = string

  const Mark: char := '#'
  const Stop: char := '.'

  function Unary(n: nat): (r: string)
    ensures |r| == n && forall i :: 0 <= i < n ==> r[i] == Mark
  {
    if n == 0 then [] else [Mark] + Unary(n - 1)
  }

  /** A number: that many marks, then a stop. */
  function Number(n: nat): string {
    Unary(n) + [Stop]
  }

  /** A string: its length as a number, then its characters. */
  function Field(s: string): string {
    Number(|s|) + s
  }

  /** The subject's part of a token: its id and e-mail, which jose writes first in the payload. */
  function SubjectText(c: Claims): string {
    Field(c.userId) + Field(c.email)
  }

  /**
   * The text of the token that signing the claims `c` with `k` yields. As in
   * jose's output, the subject comes first and the times follow it, so two
   * tokens of one subject share their beginning.
   */
  function Sign(c: Claims, k: Key): (t: string)
    ensures SubjectText(c) <= t && |SubjectText(c)| < |t|
  {
    SubjectText(c) + Number(c.iat) + Number(c.exp) + Field(k)
  }

  /** The number of marks `s` starts with. */
  function LeadingMarks(s: string): (n: nat)
    ensures n <= |s| && (n < |s| ==> s[n] != Mark)
    ensures forall i :: 0 <= i < n ==> s[i] == Mark
  {
    if |s| > 0 && s[0] == Mark then 1 + LeadingMarks(s[1..]) else 0
  }

  function ReadNumber(s: string): Option<(nat, string)> {
    var n := LeadingMarks(s);
    if n < |s| && s[n] == Stop then Some((n, s[n + 1..])) else None
  }

  function ReadField(s: string): Option<(string, string)> {
    match ReadNumber(s)
    case None => None
    case Some((n, rest)) => if n <= |rest| then Some((rest[..n], rest[n..])) else None
  }

  /** Parses a token's text back into its claims and key; `None` for any other string, so only signed text decodes. */
  function Decode(t: string): (r: Option<(Claims, Key)>)
    ensures r.Some? ==> t == Sign(r.value.0, r.value.1)
  {
    match ReadField(t)
    case None => None
    case Some((userId, t1)) =>
      match ReadField(t1)
      case None => None
      case Some((email, t2)) =>
        match ReadNumber(t2)
        case None => None
        case Some((iat, t3)) =>
          match ReadNumber(t3)
          case None => None
          case Some((exp, t4)) =>
            match ReadField(t4)
            case None => None
            case Some((k, t5)) =>
              if t5 == [] then
                DecodedText(t, userId, t1, email, t2, iat, t3, exp, t4, k);
                Some((Claims(userId, email, iat, exp), k))
              else None
  }

  /** The pieces Decode reads off, put back together, are the text it read. */
  lemma DecodedText(t: string, userId: string, t1: string, email: string, t2: string, iat: nat, t3: string,
                    exp: nat, t4: string, k: Key)
    requires ReadField(t) == Some((userId, t1)) && ReadField(t1) == Some((email, t2))
    requires ReadNumber(t2) == Some((iat, t3)) && ReadNumber(t3) == Some((exp, t4))
    requires ReadField(t4) == Some((k, []))
    ensures t == Sign(Claims(userId, email, iat, exp), k)
  {
    ReadFieldExact(t);
    ReadFieldExact(t1);
    ReadNumberExact(t2);
    ReadNumberExact(t3);
    ReadFieldExact(t4);
    assert t4 == Field(k);
    Assoc5(Field(userId), Field(email), Number(iat), Number(exp), Field(k));
  }

  lemma LeadingMarksOfNumber(n: nat, rest: string)
    ensures LeadingMarks(Number(n) + rest) == n
  {
    var s := Number(n) + rest;
    var m := LeadingMarks(s);
    assert s[n] == Stop;
  }

  lemma ReadNumberOf(n: nat, rest: string)
    ensures ReadNumber(Number(n) + rest) == Some((n, rest))
  {
    LeadingMarksOfNumber(n, rest);
    var s := Number(n) + rest;
    assert s[n + 1..] == rest;
  }

  lemma ReadFieldOf(v: string, rest: string)
    ensures ReadField(Field(v) + rest) == Some((v, rest))
  {
    assert Field(v) + rest == Number(|v|) + (v + rest);
    ReadNumberOf(|v|, v + rest);
    assert (v + rest)[..|v|] == v;
    assert (v + rest)[|v|..] == rest;
  }

  /** Whatever ReadNumber consumes is exactly the number it reports. */
  lemma ReadNumberExact(s: string)
    requires ReadNumber(s).Some?
    ensures s == Number(ReadNumber(s).value.0) + ReadNumber(s).value.1
  {
    var n := LeadingMarks(s);
    assert s[..n] == Unary(n);
    assert s == s[..n] + [s[n]] + s[n + 1..];
  }

  lemma ReadFieldExact(s: string)
    requires ReadField(s).Some?
    ensures s == Field(ReadField(s).value.0) + ReadField(s).value.1
  {
    var (n, rest) := ReadNumber(s).value;
    ReadNumberExact(s);
    var v, after := rest[..n], rest[n..];
    assert ReadField(s) == Some((v, after));
    assert rest == v + after && |v| == n;
    assert Field(v) + after == Number(n) + (v + after);
  }

  /** Decoding a signed token gives back exactly the claims and key it was signed with. */
  lemma {:induction false} DecodeSign(c: Claims, k: Key)
    ensures Decode(Sign(c, k)) == Some((c, k))
  {
    var f5 := Field(k);
    var f4 := Number(c.exp) + f5;
    var f3 := Number(c.iat) + f4;
    var f2 := Field(c.email) + f3;
    assert Sign(c, k) == Field(c.userId) + f2;
    ReadFieldOf(c.userId, f2);
    ReadFieldOf(c.email, f3);
    ReadNumberOf(c.iat, f4);
    ReadNumberOf(c.exp, f5);
    ReadFieldOf(k, []);
    assert f5 == Field(k) + [];
  }

  lemma Assoc5(a: string, b: string, c: string, d: string, e: string)
    ensures a + b + c + d + e == a + (b + (c + (d + e)))
  {
  }

  /**
   * Tokens of one subject agree on their first `n` characters whenever the
   * subject's part is that long: the issue and expiry times come too late to
   * tell them apart.
   */
  lemma SameSubjectSameStart(c1: Claims, k1: Key, c2: Claims, k2: Key, n: nat)
    requires c1.userId == c2.userId && c1.email == c2.email
    requires n <= |SubjectText(c1)|
    ensures n < |Sign(c1, k1)| && n < |Sign(c2, k2)|
    ensures Sign(c1, k1)[..n] == Sign(c2, k2)[..n]
  {
    var p := SubjectText(c1);
    assert Sign(c1, k1)[..n] == p[..n];
    assert Sign(c2, k2)[..n] == p[..n];
  }

  /** Every token has some text: five fields, each ending in at least a stop. */
  lemma SignNotEmpty(c: Claims, k: Key)
    ensures |Sign(c, k)| >= 5
  {
    assert |Number(c.iat)| == c.iat + 1 && |Number(c.exp)| == c.exp + 1;
    assert |Field(c.userId)| >= 1 && |Field(c.email)| >= 1 && |Field(k)| >= 1;
  }

  /** Signing is deterministic and injective: two tokens are equal exactly when their claims and keys are. */
  lemma SignInjective(c1: Claims, k1: Key, c2: Claims, k2: Key)
    ensures Sign(c1, k1) == Sign(c2, k2) <==> c1 == c2 && k1 == k2
  {
    DecodeSign(c1, k1);
    DecodeSign(c2, k2);
  }

  /**
   * `jwtVerify(token, key)` at second `now`: the claims when the token was
   * signed with `key` and has not expired (jose rejects once `exp <= now`),
   * otherwise `None`. A zero-length key is refused by the HMAC import, so
   * nothing verifies under it.
   */
  function Verify(t: string, key: Key, now: nat): (r: Option<Claims>)
    ensures r.Some? ==> t == Sign(r.value, key) && now < r.value.exp && key != []
  {
    if key == [] then None
    else
      match Decode(t)
      case None => None
      case Some((c, k)) =>
        if k == key && now < c.exp then
          Some(c)
        else None
  }

  /** A signed token verifies under its own key until it expires, and under no other key. */
  lemma VerifySigned(c: Claims, k: Key, key: Key, now: nat)
    ensures Verify(Sign(c, k), key, now) == if key != [] && k == key && now < c.exp then Some(c) else None
  {
    DecodeSign(c, k);
  }
}

/**
 * An abstract model of bcrypt's `hash(plain, rounds)` and `compare(plain, hash)`
 * as bcryptjs implements them. `hash` salts at random, so the salt is a
 * parameter; the digest records its preimage so that `compare` is decidable.
 * bcrypt reads at most 72 bytes of its input, so `compare` accepts every string
 * that agrees with the hashed one on its first 72 bytes. Characters stand for
 * bytes here. Only `Compare` reads the preimage, and no response body or cookie
 * of the model ever carries a digest.
 */
module Bcrypt {

  /** The cost factor every call site in the application passes. */
  const Rounds: nat := 12

  /** The number of input bytes bcrypt uses; the rest of a longer input is ignored. */
  const MaxBytes: nat := 72

  datatype Digest = Digest(preimage: string, salt: nat, cost: nat)

  /** The part of `s` bcrypt reads: its first 72 characters, or all of a shorter string. */
  function Head(s: string): (r: string)
    ensures |r| == if |s| <= MaxBytes then |s| else MaxBytes
    ensures r == s[..|r|]
  {
    if |s| <= MaxBytes then s else s[..MaxBytes]
  }

  function Hash(plain: string, salt: nat): (d: Digest)
    ensures d.cost == Rounds && d.salt == salt
    ensures forall p :: Compare(p, d) <==> Head(p) == Head(plain)
    ensures Compare(plain, d)
  {
    Digest(plain, salt, Rounds)
  }

  /** `compare(p, d)` holds exactly when `p` and the string `d` was made from agree on what bcrypt reads, whatever the salt. */
  predicate Compare(p: string, d: Digest) {
    Head(p) == Head(d.preimage)
  }

  /** Strings of at most 72 characters are compared whole. */
  lemma ShortInputsCompareWhole(p: string, plain: string, salt: nat)
    requires |p| <= MaxBytes && |plain| <= MaxBytes
    ensures Compare(p, Hash(plain, salt)) <==> p == plain
  {
  }

  /** Two strings that agree on their first 72 characters are accepted for each other, whatever follows. */
  lemma LongInputsShareDigest(p: string, plain: string, salt: nat)
    requires |p| >= MaxBytes && |plain| >= MaxBytes && p[..MaxBytes] == plain[..MaxBytes]
    ensures Compare(p, Hash(plain, salt))
  {
  }
}
