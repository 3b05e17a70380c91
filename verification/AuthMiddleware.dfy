/**
 * The two authentication middlewares: `authMiddleware` admits a request
 * only with a verified bearer token, `optionalAuthMiddleware` also admits
 * requests that carry no token at all. Token verification and the user
 * lookup are supplied as functions; the model fixes what they are applied
 * to and what each of their answers leads to.
 */
module AuthMiddleware {
  import opened Js
  import opened Http

  /** The characters the JavaScript regular-expression class `\s` matches. */
  predicate IsJsSpace(c: char)
  {
    || c == '\t' || c == '\n' || c == '\U{000B}' || c == '\U{000C}' || c == '\r'
    || c == ' ' || c == '\U{00A0}' || c == '\U{1680}'
    || ('\U{2000}' <= c <= '\U{200A}')
    || c == '\U{2028}' || c == '\U{2029}' || c == '\U{202F}' || c == '\U{205F}'
    || c == '\U{3000}' || c == '\U{FEFF}'
  }

  /** Drops the whole leading run of whitespace, as the greedy `\s+` does. */
  function SkipSpaces(s: string): (r: string)
    ensures |r| <= |s| && r == s[|s| - |r|..]
    ensures forall i | 0 <= i < |s| - |r| :: IsJsSpace(s[i])
    ensures r == [] || !IsJsSpace(r[0])
  {
    if s != [] && IsJsSpace(s[0]) then SkipSpaces(s[1..]) else s
  }

  /** `/^Bearer\s+/` matches at the start of the header: the exact word
      `Bearer`, case-sensitive, then at least one whitespace character. */
  predicate HasBearerPrefix(header: string)
  {
    |header| > 6 && header[..6] == "Bearer" && IsJsSpace(header[6])
  }

  /** `header.replace(/^Bearer\s+/, '')`: the token is what follows the
      prefix and all of the whitespace after it; a header without the
      prefix is the token unchanged. */
  function StripBearer(header: string): (token: string)
    ensures !HasBearerPrefix(header) ==> token == header
    ensures HasBearerPrefix(header) ==>
              && |token| < |header| - 6
              && token == header[|header| - |token|..]
              && (forall i | 6 <= i < |header| - |token| :: IsJsSpace(header[i]))
              && (token == [] || !IsJsSpace(token[0]))
  {
    if HasBearerPrefix(header) then SkipSpaces(header[6..]) else header
  }

  lemma {:induction false} SkipSpacesOver(spaces: string, rest: string)
    requires forall i | 0 <= i < |spaces| :: IsJsSpace(spaces[i])
    requires rest == [] || !IsJsSpace(rest[0])
    ensures SkipSpaces(spaces + rest) == rest
    decreases |spaces|
  {
    if spaces == [] {
      assert spaces + rest == rest;
    } else {
      assert (spaces + rest)[0] == spaces[0];
      assert (spaces + rest)[1..] == spaces[1..] + rest;
      SkipSpacesOver(spaces[1..], rest);
    }
  }

  /** A header written as `Bearer`, some whitespace, then a token yields
      exactly that token. */
  lemma {:induction false} StripBearerRoundTrip(spaces: string, token: string)
    requires |spaces| > 0 && forall c | c in spaces :: IsJsSpace(c)
    requires token == [] || !IsJsSpace(token[0])
    ensures StripBearer("Bearer" + spaces + token) == token
  {
    var header := "Bearer" + spaces + token;
    assert header[..6] == "Bearer";
    assert header[6] == spaces[0];
    assert header[6..] == spaces + token;
    SkipSpacesOver(spaces, token);
  }

  /** What a middleware does with the request: it answers it itself, or it
      calls `next()` once, having set `req.user` to `user` (or left it
      unset). */
  datatype Gate = Deny(status: nat, message: string) | Next(user: Option<User>)

  const InvalidToken := "Invalid Token"

  /** `if (!token)`: an absent header and an empty one both count as no
      header. */
  predicate NoHeader(header: Option<string>)
  {
    header.None? || header.value == ""
  }

  /** The shared part of both middlewares, once a header is present: the
      stripped token must verify, and the user id it carries must load. */
  function CheckToken(header: string, verify: string -> Option<string>,
                      findById: string -> Attempt<User>): Gate
  {
    match verify(StripBearer(header))
    case None => Deny(403, InvalidToken)
    case Some(userId) =>
      match findById(userId)
      case Threw(_) => Deny(403, InvalidToken)
      case Done(user) => Next(Some(user))
  }

  /** `authMiddleware`. `verify` is `jwt.verify` with the server's secret,
      giving the token's `userId` or nothing when it throws; `findById` is
      `getUserById`. */
  function Authenticate(header: Option<string>, verify: string -> Option<string>,
                        findById: string -> Attempt<User>): (g: Gate)
    ensures NoHeader(header) ==> g == Deny(403, NotAuthorized)
    ensures g.Next? <==>
              && !NoHeader(header)
              && verify(StripBearer(header.value)).Some?
              && findById(verify(StripBearer(header.value)).value).Done?
    ensures g.Next? ==>
              g.user == Some(findById(verify(StripBearer(header.value)).value).value)
    ensures g.Deny? ==>
              g.status == 403 &&
              g.message == (if NoHeader(header) then NotAuthorized else InvalidToken)
  {
    if NoHeader(header) then Deny(403, NotAuthorized)
    else CheckToken(header.value, verify, findById)
  }

  /** `optionalAuthMiddleware`. */
  function AuthenticateOptional(header: Option<string>, verify: string -> Option<string>,
                                findById: string -> Attempt<User>): (g: Gate)
    ensures NoHeader(header) ==> g == Next(None)
    ensures !NoHeader(header) ==> g == Authenticate(header, verify, findById)
  {
    if NoHeader(header) then Next(None)
    else CheckToken(header.value, verify, findById)
  }
}
