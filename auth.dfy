/** The `authenticateToken` middleware. Token verification (JWT signature and
    expiry) is a foreign library call; here it is a map from the tokens that
    verify to the identity each one carries. */
module Auth {
  import opened Wrappers
  import opened Domain
  import Text

  /** `authHeader && authHeader.split(' ')[1]`, read as the middleware reads it:
      the second space-separated word of the header, when it exists and is
      non-empty. The first word (the scheme) is never looked at. */
  function BearerToken(header: Option<string>): (r: Option<string>)
    ensures r.Some? ==> header.Some? && r.value != [] && ' ' !in r.value
  {
    match header
    case None => None
    case Some(h) =>
      var words := Text.Split(h, ' ');
      if |words| > 1 && words[1] != "" then Some(words[1]) else None
  }

  datatype AuthOutcome = Unauthenticated | Forbidden | Authenticated(who: Identity)

  /** The response status the middleware sends, or 0 when it calls `next()`. */
  function AuthStatus(r: AuthOutcome): int {
    match r
    case Unauthenticated => 401
    case Forbidden => 403
    case Authenticated(_) => 0
  }

  /** Missing token: 401. A token that does not verify: 403. Otherwise the
      request proceeds as the identity in the token. */
  function Authenticate(header: Option<string>, verified: map<string, Identity>): (r: AuthOutcome)
    ensures AuthStatus(r) == 401 <==> BearerToken(header) == None
    ensures AuthStatus(r) == 403 <==> BearerToken(header).Some? && BearerToken(header).value !in verified
    ensures r.Authenticated? ==> exists t :: t in verified && BearerToken(header) == Some(t) && r.who == verified[t]
  {
    match BearerToken(header)
    case None => Unauthenticated
    case Some(t) => if t in verified then Authenticated(verified[t]) else Forbidden
  }

  /** `Authorization: <scheme> <token>` yields the token, whatever the scheme. */
  lemma BearerTokenOfHeader(scheme: string, token: string)
    requires ' ' !in scheme && ' ' !in token && token != ""
    ensures BearerToken(Some(scheme + " " + token)) == Some(token)
  {
    Text.SplitAfterPiece(scheme, ' ', token);
    Text.SplitOfPiece(token, ' ');
    assert scheme + " " + token == scheme + [' '] + token;
  }

  /** A header of one word (such as `Bearer` alone) carries no token: 401. */
  lemma OneWordHeaderUnauthenticated(h: string, verified: map<string, Identity>)
    requires ' ' !in h
    ensures AuthStatus(Authenticate(Some(h), verified)) == 401
  {
    Text.SplitOfPiece(h, ' ');
  }

  /** `Bearer ` followed by nothing, or by a second space, gives an empty
      second word: 401. */
  lemma EmptySecondWordUnauthenticated(scheme: string, rest: string, verified: map<string, Identity>)
    requires ' ' !in scheme
    requires rest == [] || rest[0] == ' '
    ensures AuthStatus(Authenticate(Some(scheme + " " + rest), verified)) == 401
  {
    Text.SplitAfterPiece(scheme, ' ', rest);
    assert scheme + " " + rest == scheme + [' '] + rest;
    if rest != [] {
      assert Text.Split(rest, ' ')[0] == [];
    }
  }
}
