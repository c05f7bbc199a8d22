/**
 * The WebSocket authentication middleware of the dashboard
 * (dashboard/JWTAuthMiddleware.py): it picks a JWT from the query string or
 * from an `Authorization: Bearer` header (the header form of section 2.1 of
 * RFC 6750), resolves it to a user, and falls back to the anonymous user for
 * anything missing or invalid.
 *
 * The query string arrives already parsed (the result of `parse_qs`); token
 * validation and the user table are parameters.
 */
module JwtAuth {
  import opened Wrappers
  import opened Text

  /** The values `parse_qs` gives one name: never an empty list. */
  datatype ParamValues = ParamValues(first: string, more: seq<string>)

  type QueryParams = map<string, ParamValues>

  /** An ASGI header list: `(name, value)` pairs in arrival order; `None` when the scope has none. */
  type Headers = Option<seq<(string, string)>>

  /** What `AccessToken(token)` makes of a token: refused, or accepted with its `user_id` claim. */
  datatype TokenCheck = Rejected | Accepted(userId: Option<int>)

  datatype User = Anonymous | Member(id: int)

  /** The position of the last pair named `name`, or -1 when there is none. */
  function LastIndex(headers: seq<(string, string)>, name: string): (i: int)
    ensures -1 <= i < |headers|
    ensures i >= 0 ==> headers[i].0 == name
    ensures forall j :: i < j < |headers| ==> headers[j].0 != name
  {
    if headers == [] then -1
    else if headers[|headers| - 1].0 == name then |headers| - 1
    else LastIndex(headers[..|headers| - 1], name)
  }

  /** `dict(headers)[name]`: a later pair with the same name overwrites an earlier one. */
  function LastValue(headers: seq<(string, string)>, name: string): (r: Option<string>)
    ensures r.None? <==> forall i :: 0 <= i < |headers| ==> headers[i].0 != name
    ensures r.Some? ==> exists i :: 0 <= i < |headers| && headers[i] == (name, r.value)
                                 && forall j :: i < j < |headers| ==> headers[j].0 != name
  {
    var i := LastIndex(headers, name);
    if i < 0 then None else Some(headers[i].1)
  }

  /** `auth_header.split(' ')[1]` when the value starts with `Bearer ` (case-sensitive). */
  function BearerToken(value: string): (r: Option<string>)
    ensures r.Some? ==> StartsWith(value, "Bearer ") && ' ' !in r.value
    ensures !StartsWith(value, "Bearer ") ==> r.None?
  {
    if StartsWith(value, "Bearer ") then
      var fields := SplitOn(value, ' ');
      assert value == "Bearer" + [' '] + value[7..];
      SplitOnFirst("Bearer", ' ', value[7..]);
      Some(fields[1])
    else None
  }

  /** A credential without spaces, sent as `Bearer <credential>`, is read back unchanged. */
  lemma BearerTokenRoundTrip(credential: string)
    requires ' ' !in credential
    ensures BearerToken("Bearer " + credential) == Some(credential)
  {
    var value := "Bearer " + credential;
    assert value == "Bearer" + [' '] + credential;
    SplitOnFirst("Bearer", ' ', credential);
    SplitOnWhole(credential, ' ');
  }

  /** Only the first space-separated word after `Bearer ` is taken. */
  lemma BearerTokenFirstWord(credential: string, extra: string)
    requires ' ' !in credential
    ensures BearerToken("Bearer " + credential + " " + extra) == Some(credential)
  {
    var value := "Bearer " + credential + " " + extra;
    assert value == "Bearer" + [' '] + (credential + [' '] + extra);
    SplitOnFirst("Bearer", ' ', credential + [' '] + extra);
    SplitOnFirst(credential, ' ', extra);
  }

  /**
   * The local `token` of `__call__`: the first `token` query value if there is
   * one, otherwise the bearer credential of the last `authorization` header.
   */
  function ExtractToken(query: QueryParams, headers: Headers): (r: Option<string>)
    ensures "token" in query ==> r == Some(query["token"].first)
    ensures "token" !in query ==>
      r == (if headers.Some? && LastValue(headers.value, "authorization").Some?
            then BearerToken(LastValue(headers.value, "authorization").value) else None)
  {
    if "token" in query then Some(query["token"].first)
    else if headers.None? then None
    else
      match LastValue(headers.value, "authorization")
      case None => None
      case Some(auth) => BearerToken(auth)
  }

  /**
   * Without a `token` query value, a request whose last `authorization`
   * header is `Bearer <credential>` is read as that credential.
   */
  lemma HeaderCredentialExtracted(query: QueryParams, earlier: seq<(string, string)>, credential: string)
    requires "token" !in query
    requires ' ' !in credential
    ensures ExtractToken(query, Some(earlier + [("authorization", "Bearer " + credential)])) == Some(credential)
  {
    var hs := earlier + [("authorization", "Bearer " + credential)];
    var r := LastValue(hs, "authorization");
    assert hs[|hs| - 1].0 == "authorization";
    if r.Some? {
      var i :| 0 <= i < |hs| && hs[i] == ("authorization", r.value)
               && forall j :: i < j < |hs| ==> hs[j].0 != "authorization";
      assert i == |hs| - 1;
    }
    BearerTokenRoundTrip(credential);
  }

  /** When the query names a token, the headers are never consulted. */
  lemma QueryTakesPrecedence(query: QueryParams, h1: Headers, h2: Headers)
    requires "token" in query
    ensures ExtractToken(query, h1) == ExtractToken(query, h2)
  {
  }

  /**
   * `get_user(token)`: a member only when the token validates, carries a
   * `user_id`, and that id is in the user table; anything else is anonymous.
   */
  function GetUser(token: string, validate: string -> TokenCheck, users: set<int>): (r: User)
    ensures r.Member? <==>
      validate(token).Accepted? && validate(token).userId.Some? && validate(token).userId.value in users
    ensures r.Member? ==> r.id == validate(token).userId.value
  {
    match validate(token)
    case Rejected => Anonymous
    case Accepted(None) => Anonymous
    case Accepted(Some(id)) => if id in users then Member(id) else Anonymous
  }

  /** The user `__call__` puts in the scope: a falsy token never reaches `get_user`. */
  function ResolveUser(query: QueryParams, headers: Headers, validate: string -> TokenCheck, users: set<int>): (r: User)
    ensures r.Member? ==> r.id in users
    ensures (ExtractToken(query, headers).None? || ExtractToken(query, headers) == Some("")) ==> r == Anonymous
    ensures ExtractToken(query, headers).Some? && ExtractToken(query, headers).value != "" ==>
      r == GetUser(ExtractToken(query, headers).value, validate, users)
  {
    match ExtractToken(query, headers)
    case None => Anonymous
    case Some(token) => if token == "" then Anonymous else GetUser(token, validate, users)
  }

  /**
   * A member is only ever resolved from a validated token: without a query
   * token, that means a header of the form `Bearer <credential>`.
   */
  lemma MemberNeedsValidToken(query: QueryParams, headers: Headers, validate: string -> TokenCheck, users: set<int>)
    requires ResolveUser(query, headers, validate, users).Member?
    ensures var t := ExtractToken(query, headers);
      t.Some? && t.value != "" && validate(t.value) == Accepted(Some(ResolveUser(query, headers, validate, users).id))
    ensures "token" !in query ==>
      headers.Some? && LastValue(headers.value, "authorization").Some?
      && StartsWith(LastValue(headers.value, "authorization").value, "Bearer ")
  {
  }

  /** The connection scope the middleware reads and writes. */
  class Scope {
    const query: QueryParams
    const headers: Headers
    var user: Option<User>

    constructor (query: QueryParams, headers: Headers)
      ensures this.query == query && this.headers == headers && user == None
    {
      this.query := query;
      this.headers := headers;
      user := None;
    }
  }

  /** `JWTAuthMiddleware.__call__`: writes `scope['user']`, then hands the scope on. */
  method Call(scope: Scope, validate: string -> TokenCheck, users: set<int>)
    modifies scope`user
    ensures scope.user == Some(ResolveUser(scope.query, scope.headers, validate, users))
  {
    var token := ExtractToken(scope.query, scope.headers);
    if token.Some? && token.value != "" {
      scope.user := Some(GetUser(token.value, validate, users));
    } else {
      scope.user := Some(Anonymous);
    }
  }
}
