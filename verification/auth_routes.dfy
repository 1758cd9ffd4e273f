/** The authentication routes: the bearer-token middleware, which reads the
    token from the Authorization header and lets a request through only when
    the token verifies, and the login handler, which checks the credentials
    against the users table through a pooled connection. Token signing and
    verification and password hashing are given functions. */
module AuthRoutes {
  import opened Text

  // ---------------------------------------------------------------- token

  /** `authHeader && authHeader.split(' ')[1]`: no header gives nothing; the
      empty header is falsy and is itself the result; otherwise the second
      space-separated field, if there is one. */
  function ExtractToken(header: Option<string>): (token: Option<string>)
    ensures header.None? ==> token.None?
    ensures header == Some("") ==> token == Some("")
    ensures header.Some? && header.value != "" ==> (token.Some? <==> ' ' in header.value)
    ensures header.Some? && header.value != "" && token.Some? ==> ' ' !in token.value
  {
    if header.None? then None
    else if header.value == "" then Some("")
    else
      var parts := Split(header.value, ' ');
      SplitHasPieces(header.value, ' ');
      if |parts| >= 2 then Some(parts[1]) else None
  }

  /** "Bearer <t>" gives t, for any space-free t, the empty one included. */
  lemma BearerToken(scheme: string, t: string, extra: string)
    requires ' ' !in scheme && ' ' !in t
    ensures ExtractToken(Some(scheme + " " + t)) == Some(t)
    ensures ExtractToken(Some(scheme + " " + t + " " + extra)) == Some(t)
  {
    SplitAtFirst(scheme, ' ', t);
    SplitNoSeparator(t, ' ');
    SplitAtFirst(scheme, ' ', t + " " + extra);
    SplitAtFirst(t, ' ', extra);
    assert scheme + " " + t + " " + extra == scheme + [' '] + (t + [' '] + extra);
  }

  /** A header with no space carries no token. */
  lemma NoSpaceNoToken(header: string)
    requires header != "" && ' ' !in header
    ensures ExtractToken(Some(header)).None?
  {
  }

  /** The payload a token carries. */
  datatype Claims = Claims(id: int, username: string)

  datatype Gate = Unauthorized | Forbidden | Proceed(user: Claims)

  function GateStatus(g: Gate): Option<int>
  {
    match g
    case Unauthorized => Some(401)
    case Forbidden => Some(403)
    case Proceed(_) => None
  }

  /** The middleware's decision: no token is 401; a token `verify` rejects is
      403; otherwise the request goes on with the decoded payload. */
  function Decide(header: Option<string>, verify: string -> Option<Claims>): (g: Gate)
    ensures g == Unauthorized <==> ExtractToken(header).None?
    ensures g == Forbidden <==> ExtractToken(header).Some? && verify(ExtractToken(header).value).None?
    ensures g.Proceed? <==> ExtractToken(header).Some? && verify(ExtractToken(header).value).Some?
    ensures g.Proceed? ==> Some(g.user) == verify(ExtractToken(header).value)
  {
    var token := ExtractToken(header);
    if token.None? then Unauthorized
    else
      var user := verify(token.value);
      if user.None? then Forbidden else Proceed(user.value)
  }

  /** Without a token the verifier is never consulted: any two verifiers give
      the same 401. */
  lemma NoTokenIgnoresVerifier(header: Option<string>, v1: string -> Option<Claims>, v2: string -> Option<Claims>)
    requires header.None? || (header.value != "" && ' ' !in header.value)
    ensures Decide(header, v1) == Decide(header, v2) == Unauthorized
  {
  }

  /** "Bearer " with nothing after the space yields the empty token, which
      is not null and is handed to the verifier. */
  lemma TrailingSpaceVerified(verify: string -> Option<Claims>)
    ensures ExtractToken(Some("Bearer ")) == Some("")
    ensures Decide(Some("Bearer "), verify) == (if verify("").Some? then Proceed(verify("").value) else Forbidden)
  {
    BearerToken("Bearer", "", "");
    assert "Bearer" + " " + "" == "Bearer ";
  }

  /** The request and response as the middleware touches them. */
  class Exchange {
    var user: Option<Claims>
    var status: Option<int>
    var nextCalls: nat

    constructor ()
      ensures user == None && status == None && nextCalls == 0
    {
      user := None;
      status := None;
      nextCalls := 0;
    }

    /** authenticateToken: sends 401 or 403, or sets req.user and calls next
        exactly once. */
    method AuthenticateToken(header: Option<string>, verify: string -> Option<Claims>)
      modifies this
      ensures Decide(header, verify).Proceed? ==>
                user == Some(Decide(header, verify).user) && nextCalls == old(nextCalls) + 1 && status == old(status)
      ensures !Decide(header, verify).Proceed? ==>
                status == GateStatus(Decide(header, verify)) && user == old(user) && nextCalls == old(nextCalls)
    {
      var token := ExtractToken(header);
      if token.None? {
        status := Some(401);
        return;
      }
      var decoded := verify(token.value);
      if decoded.None? {
        status := Some(403);
        return;
      }
      user := decoded;
      nextCalls := nextCalls + 1;
    }
  }

  // ---------------------------------------------------------------- login

  /** The login body: the text of each field, None when absent. */
  datatype LoginBody = LoginBody(username: Option<string>, password: Option<string>)

  /** A users row; `password` holds the stored hash. */
  datatype UserRow = UserRow(id: int, username: string, password: string)

  /** The outside world of the handler: whether getConnection throws; the
      SELECT's rows for a username, None when it throws; bcrypt.compare of a
      password against a hash, None when it throws; and jwt.sign of a payload
      with an expiry in seconds. */
  datatype Backend = Backend(
    connectFails: bool,
    lookup: string -> Option<seq<UserRow>>,
    compare: (string, string) -> Option<bool>,
    sign: (Claims, nat) -> string)

  const OneHour := 3600

  const MissingCredentials := "Username and password are required"
  const BadCredentials := "Invalid username or password"
  const InternalError := "Internal server error"

  datatype LoginReply = Token(accessToken: string) | Refused(status: int, message: string)

  predicate Present(f: Option<string>)
  {
    f.Some? && f.value != ""
  }

  /** Whether the handler gets as far as holding a connection. */
  predicate Acquires(body: LoginBody, backend: Backend)
  {
    Present(body.username) && Present(body.password) && !backend.connectFails
  }

  /** The login decision. Missing credentials are refused before the store
      is touched; an unknown user and a wrong password get the same 401; any
      exception is a 500; success signs the user's id and name for one
      hour. */
  function LoginOutcome(body: LoginBody, backend: Backend): (reply: LoginReply)
    ensures !Present(body.username) || !Present(body.password) <==> reply == Refused(400, MissingCredentials)
    ensures reply.Token? <==>
              && Acquires(body, backend)
              && backend.lookup(body.username.value).Some? && backend.lookup(body.username.value).value != []
              && backend.compare(body.password.value, backend.lookup(body.username.value).value[0].password) == Some(true)
    ensures reply.Token? ==>
              var user := backend.lookup(body.username.value).value[0];
              reply.accessToken == backend.sign(Claims(user.id, user.username), OneHour)
    ensures reply.Refused? ==> reply.status in {400, 401, 500}
    ensures reply.Refused? && reply.status == 401 <==> reply == Refused(401, BadCredentials)
  {
    if !Present(body.username) || !Present(body.password) then Refused(400, MissingCredentials)
    else if backend.connectFails then Refused(500, InternalError)
    else
      var rows := backend.lookup(body.username.value);
      if rows.None? then Refused(500, InternalError)
      else if rows.value == [] then Refused(401, BadCredentials)
      else
        var user := rows.value[0];
        var matched := backend.compare(body.password.value, user.password);
        if matched.None? then Refused(500, InternalError)
        else if !matched.value then Refused(401, BadCredentials)
        else Token(backend.sign(Claims(user.id, user.username), OneHour))
  }

  /** An unknown username and a wrong password are answered identically, so
      the reply does not tell which one it was. */
  lemma NoUserEnumeration(body: LoginBody, unknown: Backend, wrong: Backend)
    requires Acquires(body, unknown) && Acquires(body, wrong)
    requires unknown.lookup(body.username.value) == Some([])
    requires wrong.lookup(body.username.value).Some? && wrong.lookup(body.username.value).value != []
    requires wrong.compare(body.password.value, wrong.lookup(body.username.value).value[0].password) == Some(false)
    ensures LoginOutcome(body, unknown) == LoginOutcome(body, wrong) == Refused(401, BadCredentials)
  {
  }

  /** Missing credentials are refused the same way whatever the store holds:
      no connection, query or hash comparison plays a part. */
  lemma MissingCredentialsIgnoreStore(body: LoginBody, b1: Backend, b2: Backend)
    requires !Present(body.username) || !Present(body.password)
    ensures LoginOutcome(body, b1) == LoginOutcome(body, b2)
    ensures !Acquires(body, b1)
  {
  }

  /** The connection pool as the handler uses it. */
  class ConnectionPool {
    var acquired: nat
    var released: nat

    ghost predicate Valid()
      reads this
    {
      released <= acquired
    }

    constructor ()
      ensures Valid() && acquired == 0 && released == 0
    {
      acquired := 0;
      released := 0;
    }

    /** Connections handed out and not yet given back. */
    function InUse(): nat
      reads this
      requires Valid()
    {
      acquired - released
    }

    /** POST /login. The `finally` gives back the connection on every path
        that took one: the 401 returns, the exceptions and success alike. */
    method Login(body: LoginBody, backend: Backend) returns (reply: LoginReply)
      requires Valid()
      modifies this
      ensures Valid()
      ensures reply == LoginOutcome(body, backend)
      ensures acquired == old(acquired) + (if Acquires(body, backend) then 1 else 0)
      ensures released == old(released) + (if Acquires(body, backend) then 1 else 0)
      ensures InUse() == old(InUse())
    {
      if !Present(body.username) || !Present(body.password) {
        return Refused(400, MissingCredentials);
      }
      var connection := false;
      if backend.connectFails {
        reply := Refused(500, InternalError);
      } else {
        acquired := acquired + 1;
        connection := true;
        var rows := backend.lookup(body.username.value);
        if rows.None? {
          reply := Refused(500, InternalError);
        } else if rows.value == [] {
          reply := Refused(401, BadCredentials);
        } else {
          var user := rows.value[0];
          var matched := backend.compare(body.password.value, user.password);
          if matched.None? {
            reply := Refused(500, InternalError);
          } else if !matched.value {
            reply := Refused(401, BadCredentials);
          } else {
            reply := Token(backend.sign(Claims(user.id, user.username), OneHour));
          }
        }
      }
      if connection {
        released := released + 1;
      }
    }
  }
}
