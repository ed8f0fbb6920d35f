/** Password hashing and verification, token issue and verification, and
    bearer-token extraction. */
module Auth {
  import opened Collections
  import opened Types

  // ---------------------------------------------------------------------
  // 32-bit arithmetic as JavaScript's bitwise operators do it
  // ---------------------------------------------------------------------

  const TWO_POW_32: int := 0x1_0000_0000

  /** ECMAScript `ToInt32`: the signed 32-bit integer congruent to `x` modulo 2^32. */
  function ToInt32(x: int): (r: Int32)
    ensures (x - r) % TWO_POW_32 == 0
    ensures -0x8000_0000 <= x < 0x8000_0000 ==> r == x
  {
    var m := x % TWO_POW_32;
    if m < 0x8000_0000 then m else m - TWO_POW_32
  }

  /** Two integers congruent modulo 2^32 have the same `ToInt32`. */
  lemma ToInt32Congruent(x: int, y: int)
    requires (x - y) % TWO_POW_32 == 0
    ensures ToInt32(x) == ToInt32(y)
  {
    var q := (x - y) / TWO_POW_32;
    assert x == y + q * TWO_POW_32;
    assert x % TWO_POW_32 == y % TWO_POW_32;
  }

  /** A multiple of 2^32 stays one when multiplied by any integer. */
  lemma MultipleScaled(a: int, k: int)
    requires a % TWO_POW_32 == 0
    ensures (k * a) % TWO_POW_32 == 0
  {
    var q := a / TWO_POW_32;
    assert a == q * TWO_POW_32;
    assert k * a == (k * q) * TWO_POW_32;
  }

  // ---------------------------------------------------------------------
  // UTF-16 code units: `password.length` and `charCodeAt`
  // ---------------------------------------------------------------------

  type CodeUnit = x: int | 0 <= x < 0x1_0000

  /** The UTF-16 encoding of one character: one code unit, or a surrogate pair
      above U+FFFF. */
  function Utf16(c: char): (r: seq<CodeUnit>)
    ensures |r| == (if c as int < 0x1_0000 then 1 else 2)
    ensures c as int < 0x1_0000 ==> r[0] == c as int
    ensures c as int >= 0x1_0000 ==> 0xD800 <= r[0] < 0xDC00 <= r[1] < 0xE000
    ensures c as int >= 0x1_0000 ==> 0x1_0000 + (r[0] as int - 0xD800) * 0x400 + (r[1] as int - 0xDC00) == c as int
  {
    var v := c as int;
    if v < 0x1_0000 then [v]
    else [0xD800 + (v - 0x1_0000) / 0x400, 0xDC00 + (v - 0x1_0000) % 0x400]
  }

  /** The code units a JavaScript string holds for `s`. */
  function CodeUnits(s: string): seq<CodeUnit>
  {
    if s == [] then [] else CodeUnits(s[..|s| - 1]) + Utf16(s[|s| - 1])
  }

  /** A string of characters below U+10000 has one code unit per character,
      and its `charCodeAt(i)` is the code of its `i`-th character. */
  lemma {:induction false} BmpCodeUnits(s: string)
    requires forall i :: 0 <= i < |s| ==> s[i] as int < 0x1_0000
    ensures |CodeUnits(s)| == |s|
    ensures forall i :: 0 <= i < |s| ==> CodeUnits(s)[i] == s[i] as int
  {
    if s != [] {
      var init := s[..|s| - 1];
      BmpCodeUnits(init);
      assert forall i :: 0 <= i < |init| ==> init[i] == s[i];
    }
  }

  // ---------------------------------------------------------------------
  // hashPassword and verifyPassword
  // ---------------------------------------------------------------------

  /** One iteration of the hashing loop, as written: `(hash << 5) - hash + char`,
      then `hash & hash`. `<<` first turns `hash * 32` into an int32; `& hash`
      turns the sum back into one. The sum itself is exact in a double. The
      step is the rolling hash h := ToInt32(31 * h + c). */
  function HashStep(hash: Int32, c: CodeUnit): (r: Int32)
    ensures r == ToInt32(31 * hash + c)
  {
    var shifted := ToInt32(hash * 32);
    assert (shifted - hash + c) - (31 * hash + c) == shifted - hash * 32;
    assert (hash * 32 - shifted) % TWO_POW_32 == 0;
    MultipleScaled(hash * 32 - shifted, -1);
    ToInt32Congruent(shifted - hash + c, 31 * hash + c);
    ToInt32(shifted - hash + c)
  }

  /** The hash after the loop has consumed the code units `u`, from `hash = 0`. */
  function HashUnits(u: seq<CodeUnit>): Int32
  {
    if u == [] then 0 else HashStep(HashUnits(u[..|u| - 1]), u[|u| - 1])
  }

  /** Folds the one or two code units of a character into the hash. */
  function HashChar(hash: Int32, c: char): (r: Int32)
    ensures c as int < 0x1_0000 ==> r == ToInt32(31 * hash + c as int)
    ensures c as int >= 0x1_0000 ==> r == ToInt32(31 * ToInt32(31 * hash + Utf16(c)[0]) + Utf16(c)[1])
  {
    var w := Utf16(c);
    if |w| == 1 then HashStep(hash, w[0]) else HashStep(HashStep(hash, w[0]), w[1])
  }

  /** The value `hashPassword` prints, one character at a time. */
  function PasswordHash(password: string): Int32
  {
    if password == [] then 0
    else HashChar(PasswordHash(password[..|password| - 1]), password[|password| - 1])
  }

  /** Hashing character by character is hashing the string's code units in turn,
      as the loop over `password.length` and `charCodeAt` does. */
  lemma {:induction false} PasswordHashIsCodeUnitHash(password: string)
    ensures PasswordHash(password) == HashUnits(CodeUnits(password))
  {
    if password != [] {
      var init, c := password[..|password| - 1], password[|password| - 1];
      PasswordHashIsCodeUnitHash(init);
      var u, w := CodeUnits(init), Utf16(c);
      assert CodeUnits(password) == u + w;
      if |w| == 1 {
        assert (u + w)[..|u + w| - 1] == u;
        assert HashUnits(u + w) == HashStep(HashUnits(u), w[0]);
      } else {
        var v := u + [w[0]];
        assert (u + w)[..|u + w| - 1] == v && v[..|v| - 1] == u;
        assert HashUnits(v) == HashStep(HashUnits(u), w[0]);
        assert HashUnits(u + w) == HashStep(HashUnits(v), w[1]);
      }
    }
  }

  /** The polynomial sum of u[i] * 31^(n-1-i), without any wrap-around:
      the reference the rolling hash is a 32-bit image of. */
  function Polynomial(u: seq<CodeUnit>): int
  {
    if u == [] then 0 else 31 * Polynomial(u[..|u| - 1]) + u[|u| - 1]
  }

  /** The loop computes `ToInt32` of the polynomial: wrapping at every step is
      the same as wrapping once at the end. */
  lemma {:induction false} HashIsPolynomial(u: seq<CodeUnit>)
    ensures HashUnits(u) == ToInt32(Polynomial(u))
  {
    if u != [] {
      var init, c := u[..|u| - 1], u[|u| - 1];
      HashIsPolynomial(init);
      var h, p := HashUnits(init), Polynomial(init);
      assert HashUnits(u) == HashStep(h, c) == ToInt32(31 * h + c);
      assert Polynomial(u) == 31 * p + c;
      RollCongruent(p, h, c);
    }
  }

  /** One rolling step keeps two accumulators congruent modulo 2^32. */
  lemma RollCongruent(p: int, h: int, c: int)
    requires (p - ToInt32(p)) % TWO_POW_32 == 0 && h == ToInt32(p)
    ensures ToInt32(31 * p + c) == ToInt32(31 * h + c)
  {
    MultipleScaled(p - h, 31);
    assert (31 * p + c) - (31 * h + c) == 31 * (p - h);
    ToInt32Congruent(31 * p + c, 31 * h + c);
  }

  /** Appending one code unit folds it in as h := ToInt32(31 * h + c): the fold rule
      `HashUnits` has by definition, stated on the last unit, together with `HashStep`'s ensures. */
  lemma HashAppend(u: seq<CodeUnit>, c: CodeUnit)
    ensures HashUnits(u + [c]) == ToInt32(31 * HashUnits(u) + c)
  {
    assert (u + [c])[..|u + [c]| - 1] == u;
  }

  /** `hashPassword`: the `for` loop over the password's code units. */
  method HashPassword(password: string) returns (hash: Int32)
    ensures hash == PasswordHash(password)
  {
    var units := CodeUnits(password);
    hash := 0;
    for i := 0 to |units|
      invariant hash == HashUnits(units[..i])
    {
      assert units[..i + 1][..i] == units[..i];
      hash := HashStep(hash, units[i]);
    }
    assert units[..|units|] == units;
    PasswordHashIsCodeUnitHash(password);
  }

  /** The empty password hashes to 0. */
  lemma EmptyPasswordHash()
    ensures PasswordHash("") == 0
  {
  }

  /** `verifyPassword`: recompute the hash and compare it with the stored one.
      It accepts exactly the passwords whose code-unit polynomial, wrapped to
      32 bits, is the stored value. */
  function VerifyPassword(password: string, stored: Int32): (ok: bool)
    ensures ok <==> ToInt32(Polynomial(CodeUnits(password))) == stored
  {
    PasswordHashIsCodeUnitHash(password);
    HashIsPolynomial(CodeUnits(password));
    PasswordHash(password) == stored
  }

  /** Every password is accepted against its own hash. */
  lemma VerifyOwnHash(password: string)
    ensures VerifyPassword(password, PasswordHash(password))
  {
  }

  /** Any password with the same hash as the real one is accepted for it. */
  lemma VerifyAcceptsCollision(password: string, other: string)
    ensures VerifyPassword(other, PasswordHash(password)) <==> PasswordHash(other) == PasswordHash(password)
  {
  }

  /** A concrete collision: "BB" is accepted where the password was "Aa". */
  lemma CollisionAaBB()
    ensures "Aa" != "BB"
    ensures VerifyPassword("BB", PasswordHash("Aa"))
  {
    assert "Aa"[..1] == "A" && "BB"[..1] == "B";
    assert PasswordHash("A") == 65 && PasswordHash("B") == 66;
  }

  // ---------------------------------------------------------------------
  // Tokens
  // ---------------------------------------------------------------------

  /** A token lives seven days, counted in seconds. */
  const TOKEN_LIFETIME: int := 7 * 24 * 60 * 60

  /** The text encoding of claims (`btoa(JSON.stringify(...))`) and its
      decoding (`JSON.parse(atob(...))`, `None` when either throws). */
  datatype TokenCodec = TokenCodec(encode: AuthToken -> string, decode: string -> Option<AuthToken>)

  /** `Math.floor(Date.now() / 1000)`: the second a millisecond clock reading falls in. */
  function Seconds(nowMs: int): (s: int)
    ensures s * 1000 <= nowMs < s * 1000 + 1000
  {
    nowMs / 1000
  }

  /** The claims `generateToken` encodes for `user` at time `nowMs`. */
  function IssueClaims(user: User, nowMs: int): (t: AuthToken)
    ensures t.userId == user.id && t.email == user.email && t.role == user.role
    ensures t.tenantId == user.tenantId && t.subscription == user.subscription
    ensures t.iat * 1000 <= nowMs < t.iat * 1000 + 1000
    ensures t.exp - t.iat == 604800
  {
    var now := Seconds(nowMs);
    AuthToken(user.id, user.email, user.role, user.tenantId, user.subscription, now, now + TOKEN_LIFETIME)
  }

  /** `generateToken`: the encoded claims. When the codec decodes what it
      encodes, the token is accepted at the moment it is issued. */
  function GenerateToken(user: User, nowMs: int, codec: TokenCodec): (token: string)
    ensures var claims := IssueClaims(user, nowMs);
            codec.decode(codec.encode(claims)) == Some(claims) ==> VerifyToken(token, nowMs, codec) == Some(claims)
  {
    codec.encode(IssueClaims(user, nowMs))
  }

  /** `verifyToken`: decode, then refuse a token whose `exp` second lies before now. */
  function VerifyToken(token: string, nowMs: int, codec: TokenCodec): (r: Option<AuthToken>)
    ensures codec.decode(token).None? ==> r.None?
    ensures r.Some? <==> codec.decode(token).Some? && nowMs < (codec.decode(token).value.exp + 1) * 1000
    ensures r.Some? ==> r == codec.decode(token)
  {
    match codec.decode(token)
    case None => None
    case Some(decoded) =>
      if decoded.exp < Seconds(nowMs) then None else Some(decoded)
  }

  const BEARER: string := "Bearer "

  /** `extractTokenFromRequest`: the claims of the `Authorization` header's
      bearer token; `None` for a missing header or one without the prefix. */
  function ExtractToken(authorization: Option<string>, nowMs: int, codec: TokenCodec): (r: Option<AuthToken>)
    ensures authorization.None? ==> r.None?
    ensures authorization.Some? && (|authorization.value| < 7 || authorization.value[..7] != "Bearer ") ==> r.None?
    ensures authorization.Some? && |authorization.value| >= 7 && authorization.value[..7] == "Bearer " ==>
              r == VerifyToken(authorization.value[7..], nowMs, codec)
  {
    if authorization.Some? && BEARER <= authorization.value then
      VerifyToken(authorization.value[|BEARER|..], nowMs, codec)
    else
      None
  }

  /** A header built as "Bearer " + token carries exactly that token. */
  lemma BearerRoundTrip(token: string, nowMs: int, codec: TokenCodec)
    ensures ExtractToken(Some(BEARER + token), nowMs, codec) == VerifyToken(token, nowMs, codec)
  {
    assert (BEARER + token)[|BEARER|..] == token;
  }

  /** A token issued for `user` is accepted, with the user's own claims, up to
      and including its expiry second, and refused after it; provided the
      codec decodes what it encodes. */
  lemma IssuedTokenAccepted(user: User, issuedMs: int, nowMs: int, codec: TokenCodec)
    requires codec.decode(codec.encode(IssueClaims(user, issuedMs))) == Some(IssueClaims(user, issuedMs))
    ensures VerifyToken(GenerateToken(user, issuedMs, codec), nowMs, codec) ==
              if Seconds(nowMs) <= Seconds(issuedMs) + 604800 then Some(IssueClaims(user, issuedMs)) else None
  {
  }
}
