/** The request guards of backend/middleware/auth.js: `protect` (bearer token, then its
    verification, then the employee it names) and `authorize` (role membership). */
module AuthMiddleware {
  import opened Common
  import opened Text
  import Stores

  /** The token `protect` reads: only from a header that starts with "Bearer", and then
      the second space-separated segment, which must be non-empty to count. */
  function BearerToken(authorization: Option<string>): (token: Option<string>)
    ensures token.Some? ==> authorization.Some? && StartsWith(authorization.value, "Bearer")
    ensures token.Some? ==> token.value != "" && ' ' !in token.value
  {
    if authorization.Some? && StartsWith(authorization.value, "Bearer") then
      var parts := Split(authorization.value, ' ');
      if |parts| > 1 && parts[1] != "" then Some(parts[1]) else None
    else None
  }

  /** Whatever comes before the first space and after the token, a header
      "<prefix> <token><rest>" yields exactly `token` when it starts with "Bearer" and the
      token is non-empty, and no token otherwise. */
  lemma {:induction false} BearerTokenIsSecondSegment(h: string, prefix: string, token: string, rest: string)
    requires h == prefix + " " + token + rest
    requires ' ' !in prefix && ' ' !in token
    requires rest == "" || rest[0] == ' '
    ensures BearerToken(Some(h)) == if StartsWith(h, "Bearer") && token != "" then Some(token) else None
  {
    var tail := " " + token + rest;
    assert h == prefix + tail;
    SplitSeparatorFreePrefix(prefix, tail, ' ');
    assert tail == [' '] + (token + rest);
    SplitLeadingSeparator(token + rest, ' ');
    SplitSeparatorFreePrefix(token, rest, ' ');
    var restParts := Split(rest, ' ');
    if rest == "" {
      assert restParts == [""];
    } else {
      assert rest == [' '] + rest[1..];
      SplitLeadingSeparator(rest[1..], ' ');
    }
    assert restParts[0] == "";
    var parts := Split(h, ' ');
    assert parts[1] == token;
  }

  /** The header a client builds from a token, "Bearer " followed by it, yields that token back. */
  lemma BearerHeaderRoundTrip(token: string)
    requires token != "" && ' ' !in token
    ensures BearerToken(Some("Bearer " + token)) == Some(token)
  {
    BearerTokenIsSecondSegment("Bearer " + token, "Bearer", token, "");
  }

  /** A header without a space yields no token. */
  lemma {:induction false} BearerTokenNeedsSpace(h: string)
    requires ' ' !in h
    ensures BearerToken(Some(h)) == None
  {
    SplitSeparatorFreePrefix(h, "", ' ');
    assert h + "" == h;
    assert Split(h, ' ') == [h];
  }

  /** `authorize(...allowed)`: the request goes on exactly when the caller's role is listed,
      and is answered 403 naming the role otherwise. */
  function Authorize(allowed: seq<Role>, role: Role): (stop: Option<Reply>)
    ensures stop.None? <==> role in allowed
    ensures stop.Some? ==> stop.value.code == 403 && stop.value.msg == RoleNotAuthorized(role)
  {
    if role in allowed then None else Some(Reply(403, RoleNotAuthorized(role)))
  }

  /** `protect`: no usable token gives 401; a token that fails verification gives 401 (the
      catch block); a verified id that names no employee gives 404; otherwise the request
      goes on as that employee, active or not. `verify` stands for `jwt.verify` followed by
      reading the id, `None` for any failure. */
  method Protect(st: Stores.Store, authorization: Option<string>, verify: string -> Option<Id>)
    returns (result: Result<Id>)
    ensures BearerToken(authorization).None? ==> result == Fail(Reply(401, NotAuthorizedRoute))
    ensures BearerToken(authorization).Some? && verify(BearerToken(authorization).value).None? ==>
              result == Fail(Reply(401, NotAuthorizedRoute))
    ensures BearerToken(authorization).Some? && verify(BearerToken(authorization).value).Some? ==>
              var id := verify(BearerToken(authorization).value).value;
              result == if id in st.employees then Ok(id) else Fail(Reply(404, EmployeeNotFound))
  {
    var token := BearerToken(authorization);
    if token.None? {
      return Fail(Reply(401, NotAuthorizedRoute));
    }
    var decoded := verify(token.value);
    if decoded.None? {
      return Fail(Reply(401, NotAuthorizedRoute));
    }
    if decoded.value !in st.employees {
      return Fail(Reply(404, EmployeeNotFound));
    }
    result := Ok(decoded.value);
  }

  /** `protect` followed by `authorize(...allowed)`: authentication failures come first,
      so a request without a valid token is answered 401 or 404 whatever role it claims,
      only an authenticated caller whose role is not listed gets 403, and a caller who
      passes goes on as exactly the employee the token names. */
  method ProtectAndAuthorize(
    st: Stores.Store, authorization: Option<string>, verify: string -> Option<Id>, allowed: seq<Role>)
    returns (result: Result<Id>)
    ensures result.Ok? ==> result.value in st.employees && st.employees[result.value].role in allowed
    ensures result.Fail? && result.reply.code == 403 ==>
              && BearerToken(authorization).Some?
              && verify(BearerToken(authorization).value).Some?
              && var id := verify(BearerToken(authorization).value).value;
                 id in st.employees && st.employees[id].role !in allowed
    ensures BearerToken(authorization).None? ==> result == Fail(Reply(401, NotAuthorizedRoute))
    ensures var t := BearerToken(authorization);
            t.Some? && verify(t.value).None? ==> result == Fail(Reply(401, NotAuthorizedRoute))
    ensures var t := BearerToken(authorization);
            t.Some? && verify(t.value).Some? ==>
              var id := verify(t.value).value;
              result == if id !in st.employees then Fail(Reply(404, EmployeeNotFound))
                        else if st.employees[id].role in allowed then Ok(id)
                        else Fail(Reply(403, RoleNotAuthorized(st.employees[id].role)))
  {
    result := Protect(st, authorization, verify);
    if result.Ok? {
      var stop := Authorize(allowed, st.employees[result.value].role);
      if stop.Some? {
        result := Fail(stop.value);
      }
    }
  }
}
