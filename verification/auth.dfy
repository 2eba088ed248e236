/**
 * The middleware of src/middleware/auth.js: Bearer token extraction,
 * `protect`, `optionalAuth`, `restrictTo` and `adminOnly`. Signature
 * checking is an oracle from a token to the user id it carries.
 */
module Auth {
  import opened Wrappers
  import opened Text
  import opened Users

  const Scheme: string := "Bearer"

  /** `jwt.verify(token, secret).id`, or `None` when verification throws. */
  type Verifier = string -> Option<nat>

  /**
   * The token of an `Authorization` header (auth.js:9-10): the header must
   * start with "Bearer" (only the prefix is checked) and the token is the
   * second space-separated field; an empty field counts as no token.
   */
  function ExtractToken(header: Option<string>): (t: Option<string>)
    ensures t.Some? <==> (header.Some? && StartsWith(header.value, Scheme)
      && |Split(header.value, ' ')| >= 2 && Split(header.value, ' ')[1] != "")
    ensures t.Some? ==> t.value == Split(header.value, ' ')[1] && ' ' !in t.value
  {
    match header
    case None => None
    case Some(h) =>
      if !StartsWith(h, Scheme) then None
      else
        var fields := Split(h, ' ');
        if |fields| < 2 || fields[1] == "" then None else Some(fields[1])
  }

  /** A header built as "Bearer <token>", possibly followed by more fields, yields that token. */
  lemma BearerRoundTrip(token: string, more: seq<string>)
    requires token != "" && ' ' !in token
    requires forall i :: 0 <= i < |more| ==> ' ' !in more[i]
    ensures ExtractToken(Some(Join([Scheme, token] + more, ' '))) == Some(token)
  {
    var fields := [Scheme, token] + more;
    NoSpaceFields(token, more);
    var h := Join(fields, ' ');
    SchemeHeader(fields, ' ');
    SplitJoin(fields, ' ');
    assert Split(h, ' ') == fields;
  }

  lemma NoSpaceFields(token: string, more: seq<string>)
    requires ' ' !in token
    requires forall i :: 0 <= i < |more| ==> ' ' !in more[i]
    ensures var fields := [Scheme, token] + more;
      forall i :: 0 <= i < |fields| ==> ' ' !in fields[i]
  {
    var fields := [Scheme, token] + more;
    forall i | 0 <= i < |fields| ensures ' ' !in fields[i] {
      if i >= 2 {
        assert fields[i] == more[i - 2];
      }
    }
  }

  /** A joined header begins with its first field. */
  lemma SchemeHeader(fields: seq<string>, sep: char)
    requires |fields| >= 1
    ensures StartsWith(Join(fields, sep), fields[0])
  {
    var h := Join(fields, sep);
    if |fields| > 1 {
      assert h == fields[0] + ([sep] + Join(fields[1..], sep));
    }
    assert h[..|fields[0]|] == fields[0];
  }

  /** Only the prefix is checked: "BearerX <token>" is accepted like "Bearer <token>". */
  lemma SchemePrefixOnly(token: string)
    requires token != "" && ' ' !in token
    ensures ExtractToken(Some(Join(["BearerX", token], ' '))) == Some(token)
  {
    var fields := ["BearerX", token];
    SchemeHeader(fields, ' ');
    assert StartsWith(Join(fields, ' '), Scheme) by {
      assert Join(fields, ' ')[..|Scheme|] == fields[0][..|Scheme|];
    }
    SplitJoin(fields, ' ');
  }

  /** What a middleware does: pass on (with the user it attached), answer with a status, or throw. */
  datatype Gate = Next(user: Option<User>) | Deny(status: int) | Crash

  /**
   * `protect` (auth.js:5-52): no token, a token that fails verification, or
   * an id with no stored user is answered 401 without calling `next`.
   */
  function Protect(users: seq<User>, header: Option<string>, verify: Verifier): (g: Gate)
    ensures ExtractToken(header).None? ==> g == Deny(401)
    ensures g.Next? || g == Deny(401)
    ensures g.Next? <==> (ExtractToken(header).Some? && verify(ExtractToken(header).value).Some?
      && FindUser(users, verify(ExtractToken(header).value).value) < |users|)
    ensures g.Next? ==> (g.user.Some? && g.user.value in users
      && g.user.value.id == verify(ExtractToken(header).value).value)
  {
    match ExtractToken(header)
    case None => Deny(401)
    case Some(t) =>
      match verify(t)
      case None => Deny(401)
      case Some(id) =>
        var i := FindUser(users, id);
        if i == |users| then Deny(401) else Next(Some(users[i]))
  }

  /**
   * `optionalAuth` (auth.js:55-80): always calls `next`; the user is attached
   * only when the token verifies and names a stored user, and the request
   * otherwise goes on as a guest.
   */
  function OptionalAuth(users: seq<User>, header: Option<string>, verify: Verifier): (g: Gate)
    ensures g.Next?
    ensures ExtractToken(header).None? ==> g.user.None?
  {
    match ExtractToken(header)
    case None => Next(None)
    case Some(t) =>
      match verify(t)
      case None => Next(None)
      case Some(id) =>
        var i := FindUser(users, id);
        if i == |users| then Next(None) else Next(Some(users[i]))
  }

  /** The optional gate attaches a user exactly when the strict gate would let the request through, and the same user. */
  lemma OptionalAgreesWithProtect(users: seq<User>, header: Option<string>, verify: Verifier)
    ensures OptionalAuth(users, header, verify).user.Some? <==> Protect(users, header, verify).Next?
    ensures Protect(users, header, verify).Next? ==> OptionalAuth(users, header, verify).user == Protect(users, header, verify).user
  {
  }

  /**
   * `restrictTo(...roles)` (auth.js:83-93): the role must be listed (403
   * otherwise). Without a user, reading `req.user.role` throws.
   */
  function RestrictTo(user: Option<User>, roles: seq<Role>): (g: Gate)
    ensures user.None? <==> g == Crash
    ensures user.Some? ==> (g.Next? <==> user.value.role in roles)
    ensures g.Next? ==> g.user == user
    ensures user.Some? && !g.Next? ==> g == Deny(403)
  {
    match user
    case None => Crash
    case Some(u) => if u.role in roles then Next(user) else Deny(403)
  }

  /** `adminOnly` (auth.js:96-109): a present user with the admin role passes; anyone else gets 403. */
  function AdminOnly(user: Option<User>): (g: Gate)
    ensures g.Next? <==> user.Some? && user.value.role == Admin
    ensures g.Next? ==> g.user == user
    ensures !g.Next? ==> g == Deny(403)
  {
    if user.Some? && user.value.role == Admin then Next(user) else Deny(403)
  }

  /** For a present user the two admin gates agree; without one `adminOnly` answers 403 where `restrictTo` throws. */
  lemma AdminOnlyIsRestrictToAdmin(user: Option<User>)
    ensures user.Some? ==> AdminOnly(user) == RestrictTo(user, [Admin])
    ensures user.None? ==> AdminOnly(user) == Deny(403) && RestrictTo(user, [Admin]) == Crash
  {
  }
}
