/** Bearer-token issuing and decoding (middleware/jwt_auth.go).

    HS256 signing and verification (golang-jwt) are not modelled: a `Codec`
    carries them as uninterpreted functions. What the rest of the system
    relies on (a signed token holds no space, and verifies to its own claims
    until it expires and not after) is the predicate `Sound`, which appears
    only as an assumption: in lemma preconditions and as the antecedent of a
    login guarantee. */
module JwtAuth {
  import opened Models

  /** `time.Hour * 24`, in the seconds that `Unix()` counts. */
  const TokenLifetime: int := 24 * 60 * 60

  const MissingHeader: string := "authorization header not found"
  const WrongOrExpired: string := "token is wrong or expired"

  /** The separator of RFC 6750 section 2.1's `Authorization: Bearer <token>`. */
  const BearerSep: string := "Bearer "

  /** The claims map built by GetToken: uuid, username and exp. */
  datatype Claims = Claims(uuid: Uuid, username: string, exp: int)

  /** What jwt.ParseWithClaims hands back: an error, or a token whose claims may
      or may not have the expected type (`None`) and its validity flag. */
  datatype Parsed = ParseError | Parsed(claims: Option<Claims>, valid: bool)

  /** HS256 (RFC 7518 section 3.2) over JWTs (RFC 7519), uninterpreted:
      `sign(secret, claims)` and `parse(secret, text, now)`. */
  datatype Codec = Codec(sign: (string, Claims) -> Result<string>, parse: (string, string, int) -> Parsed)

  /** The process-wide signing secret, the codec and the wall clock. */
  datatype Config = Config(codec: Codec, secret: string, now: int)

  /** The assumptions about the codec: a compact JWT never contains a space, a
      token verifies to its own claims under the secret that signed it while
      `now <= exp`, and is rejected once `now > exp`. */
  ghost predicate Sound(codec: Codec)
  {
    && (forall secret, c ::
          codec.sign(secret, c).Success? ==> ' ' !in codec.sign(secret, c).value)
    && (forall secret, c, now ::
          codec.sign(secret, c).Success? ==>
            codec.parse(secret, codec.sign(secret, c).value, now)
            == (if now <= c.exp then Parsed(Some(c), true) else ParseError))
  }

  // ---------------------------------------------------------------------------
  // strings.Split
  // ---------------------------------------------------------------------------

  /** `sep` occurs in `s` at position `i`. */
  predicate OccursAt(s: string, sep: string, i: int)
  {
    0 <= i && i + |sep| <= |s| && s[i..i + |sep|] == sep
  }

  /** strings.Index: the first position at which `sep` occurs in `s`. */
  function IndexOf(s: string, sep: string): (r: Option<nat>)
    requires |sep| > 0
    ensures r.Some? ==> OccursAt(s, sep, r.value)
    ensures r.Some? ==> forall j :: 0 <= j < r.value ==> !OccursAt(s, sep, j)
    ensures r.None? ==> forall j :: 0 <= j <= |s| ==> !OccursAt(s, sep, j)
    decreases |s|
  {
    if |s| < |sep| then None
    else if s[..|sep|] == sep then Some(0)
    else
      assert !OccursAt(s, sep, 0);
      match IndexOf(s[1..], sep)
      case None =>
        assert forall j :: 0 <= j <= |s| ==> !OccursAt(s, sep, j) by {
          forall j | 1 <= j <= |s| ensures !OccursAt(s, sep, j) { OccursShift(s, sep, j - 1); }
        }
        None
      case Some(i) =>
        OccursShift(s, sep, i);
        assert forall j :: 0 <= j < i + 1 ==> !OccursAt(s, sep, j) by {
          forall j | 1 <= j < i + 1 ensures !OccursAt(s, sep, j) { OccursShift(s, sep, j - 1); }
        }
        Some(i + 1)
  }

  /** Dropping the first character shifts every occurrence one place left. */
  lemma OccursShift(s: string, sep: string, j: nat)
    requires |s| > 0
    ensures OccursAt(s[1..], sep, j) <==> OccursAt(s, sep, j + 1)
  {
    if j + 1 + |sep| <= |s| {
      assert s[1..][j..j + |sep|] == s[j + 1..j + 1 + |sep|];
    }
  }

  /** strings.Split with a non-empty separator: the pieces of `s` around every
      non-overlapping occurrence of `sep`, left to right. */
  function Split(s: string, sep: string): (parts: seq<string>)
    requires |sep| > 0
    ensures |parts| >= 1
    decreases |s|
  {
    match IndexOf(s, sep)
    case None => [s]
    case Some(i) => [s[..i]] + Split(s[i + |sep|..], sep)
  }

  /** strings.Join, the inverse of Split. */
  function Join(parts: seq<string>, sep: string): string
  {
    if |parts| == 0 then ""
    else if |parts| == 1 then parts[0]
    else parts[0] + sep + Join(parts[1..], sep)
  }

  /** Joining a piece in front of at least one more puts the separator between. */
  lemma JoinCons(head: string, tail: seq<string>, sep: string)
    requires |tail| >= 1
    ensures Join([head] + tail, sep) == head + sep + Join(tail, sep)
  {
    assert ([head] + tail)[1..] == tail;
  }

  /** A string is the text before an occurrence, the separator, and the rest. */
  lemma AroundOccurrence(s: string, sep: string, i: int)
    requires OccursAt(s, sep, i)
    ensures s == s[..i] + sep + s[i + |sep|..]
  {
    assert s == s[..i] + s[i..i + |sep|] + s[i + |sep|..];
  }

  /** Joining the pieces of a split with the separator gives back the string. */
  lemma {:induction false} JoinSplit(s: string, sep: string)
    requires |sep| > 0
    ensures Join(Split(s, sep), sep) == s
    decreases |s|
  {
    if IndexOf(s, sep).Some? {
      var i := IndexOf(s, sep).value;
      var rest := s[i + |sep|..];
      var tail := Split(rest, sep);
      calc {
        Join(Split(s, sep), sep);
        Join([s[..i]] + tail, sep);
        { JoinCons(s[..i], tail, sep); }
        s[..i] + sep + Join(tail, sep);
        { JoinSplit(rest, sep); }
        s[..i] + sep + rest;
        { AroundOccurrence(s, sep, i); }
        s;
      }
    }
  }

  /** The split has a second piece exactly when the separator occurs; that piece
      is the text after the first occurrence, up to the next one. */
  lemma SplitSecondPiece(s: string, sep: string)
    requires |sep| > 0
    ensures |Split(s, sep)| >= 2 <==> IndexOf(s, sep).Some?
    ensures IndexOf(s, sep).Some? ==>
      var rest := s[IndexOf(s, sep).value + |sep|..];
      Split(s, sep)[1] == (match IndexOf(rest, sep) case None => rest case Some(k) => rest[..k])
  {
    match IndexOf(s, sep)
    case None =>
    case Some(i) =>
      var rest := s[i + |sep|..];
      var tail := Split(rest, sep);
      assert Split(s, sep) == [s[..i]] + tail;
      assert tail[0] == (match IndexOf(rest, sep) case None => rest case Some(k) => rest[..k]);
  }

  // ---------------------------------------------------------------------------
  // GetToken and DecodeJWT
  // ---------------------------------------------------------------------------

  /** GetToken: claims {uuid, username, exp = now + 24h}, signed with HS256 and
      the configured secret. */
  function GetToken(uuid: Uuid, username: string, cfg: Config): (r: Result<string>)
  {
    cfg.codec.sign(cfg.secret, Claims(uuid, username, cfg.now + TokenLifetime))
  }

  /** The outcome of DecodeJWT: a token, an error, or the index-out-of-range
      panic of `strings.Split(auth, "Bearer ")[1]`. */
  datatype Decoded = Decoded(token: Token) | DecodeError(error: string) | IndexOutOfRange

  /** `splitToken[1]`: the text between the first and the second "Bearer ", or
      `None` where indexing faults. */
  function BearerText(auth: string): (r: Option<string>)
    ensures r.None? <==> IndexOf(auth, BearerSep).None?
    ensures r.Some? ==> r.value == Split(auth, BearerSep)[1]
  {
    SplitSecondPiece(auth, BearerSep);
    var parts := Split(auth, BearerSep);
    if |parts| < 2 then None else Some(parts[1])
  }

  /** DecodeJWT over the value of the Authorization header. */
  function DecodeJWT(auth: string, cfg: Config): (r: Decoded)
    ensures r.DecodeError? && r.error == MissingHeader <==> auth == ""
    ensures r.DecodeError? ==> r.error == MissingHeader || r.error == WrongOrExpired
    ensures r.IndexOutOfRange? <==> auth != "" && IndexOf(auth, BearerSep).None?
    ensures r.Decoded? ==> exists text :: BearerText(auth) == Some(text) && cfg.codec.parse(cfg.secret, text, cfg.now).Parsed?
  {
    if auth == "" then DecodeError(MissingHeader)
    else
      match BearerText(auth)
      case None => IndexOutOfRange
      case Some(text) =>
        match cfg.codec.parse(cfg.secret, text, cfg.now)
        case ParseError => DecodeError(WrongOrExpired)
        case Parsed(claims, valid) =>
          if claims.Some? && valid then Decoded(Token(claims.value.uuid, claims.value.username))
          else Decoded(EmptyToken)
  }

  /** A parse that raised no error but produced claims of another type, or a
      token not marked valid, decodes to the zero token with a nil error. */
  lemma UnusableClaimsGiveZeroToken(auth: string, cfg: Config, text: string)
    requires auth != "" && BearerText(auth) == Some(text)
    requires cfg.codec.parse(cfg.secret, text, cfg.now).Parsed?
    requires !cfg.codec.parse(cfg.secret, text, cfg.now).valid || cfg.codec.parse(cfg.secret, text, cfg.now).claims.None?
    ensures DecodeJWT(auth, cfg) == Decoded(EmptyToken)
  {
  }

  /** "Bearer " ends in a space, so a text holding it holds a space. */
  lemma BearerNeedsSpace(s: string)
    ensures IndexOf(s, BearerSep).Some? ==> ' ' in s
  {
    if IndexOf(s, BearerSep).Some? {
      var k := IndexOf(s, BearerSep).value;
      assert s[k..k + |BearerSep|] == BearerSep;
      assert s[k + 6] == ' ';
    }
  }

  /** "Bearer " followed by a text with no space yields that text. */
  lemma BearerOfWellFormedHeader(t: string)
    requires ' ' !in t
    ensures BearerText(BearerSep + t) == Some(t)
  {
    var h := BearerSep + t;
    assert h[..|BearerSep|] == BearerSep;
    assert IndexOf(h, BearerSep) == Some(0);
    assert h[|BearerSep|..] == t;
    BearerNeedsSpace(t);
    assert Split(t, BearerSep) == [t];
  }

  /** A header with no "Bearer " in it at all makes DecodeJWT fault. */
  lemma HeaderWithoutBearerFaults(auth: string, cfg: Config)
    requires auth != "" && ' ' !in auth
    ensures DecodeJWT(auth, cfg) == IndexOutOfRange
  {
    BearerNeedsSpace(auth);
  }

  /** A token issued by GetToken(u, n), sent as "Bearer <token>" before it
      expires, decodes to exactly (u, n). */
  lemma {:induction false} IssueThenDecode(u: Uuid, n: string, issued: Config, later: Config)
    requires Sound(issued.codec)
    requires later.codec == issued.codec && later.secret == issued.secret
    requires later.now <= issued.now + TokenLifetime
    requires GetToken(u, n, issued).Success?
    ensures DecodeJWT(BearerSep + GetToken(u, n, issued).value, later) == Decoded(Token(u, n))
  {
    var c := Claims(u, n, issued.now + TokenLifetime);
    var t := GetToken(u, n, issued).value;
    assert issued.codec.sign(issued.secret, c).Success?;
    BearerOfWellFormedHeader(t);
  }

  /** The same token, presented after its 24 hours, is rejected. */
  lemma {:induction false} ExpiredTokenRejected(u: Uuid, n: string, issued: Config, later: Config)
    requires Sound(issued.codec)
    requires later.codec == issued.codec && later.secret == issued.secret
    requires later.now > issued.now + TokenLifetime
    requires GetToken(u, n, issued).Success?
    ensures DecodeJWT(BearerSep + GetToken(u, n, issued).value, later) == DecodeError(WrongOrExpired)
  {
    var c := Claims(u, n, issued.now + TokenLifetime);
    var t := GetToken(u, n, issued).value;
    assert issued.codec.sign(issued.secret, c).Success?;
    BearerOfWellFormedHeader(t);
  }
}
