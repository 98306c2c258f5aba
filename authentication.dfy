/**
 * `SessionTokenAuthentication.authenticate`: a bearer token read from the
 * `Authorization` header, checked by Google's verifier and mapped to a user
 * by e-mail. The verifier is a parameter; the user table is a list of
 * users, looked up as `User.objects.get(email=...)` does.
 */
module Authentication {

  import opened Wrappers
  import opened Strings

  const BearerPrefix := "Bearer "

  datatype User = User(id: nat, email: string)

  /** What the token verifier did: returned claims with an optional e-mail, raised ValueError, or raised something else. */
  datatype Verification = Verified(email: Option<string>) | VerifyValueError | VerifyRaised

  /** None: no authentication attempted; a user; or the AuthenticationFailed message. */
  datatype AuthOutcome = NotAttempted | Authenticated(user: User) | Failed(message: string)

  const InvalidToken := "Invalid token"
  const UserNotFound := "User not found"
  const AuthFailed := "Authentication failed"

  /** The header is present, non-empty and starts with "Bearer ". */
  predicate IsBearer(header: Option<string>)
  {
    header.Some? && header.value != "" && StartsWith(header.value, BearerPrefix)
  }

  /** `auth_header.split(' ')[1]`: the second space-separated field. */
  function Token(header: string): (t: string)
    requires StartsWith(header, BearerPrefix)
    ensures ' ' !in t
    ensures t == Split(header[|BearerPrefix|..], ' ')[0]
  {
    var rest := header[|BearerPrefix|..];
    assert header == "Bearer" + [' '] + rest;
    SplitAfterField("Bearer", ' ', rest);
    Split(header, ' ')[1]
  }

  /** The token of "Bearer <t>" is `t` itself when `t` holds no space. */
  lemma TokenOfBearer(t: string)
    requires ' ' !in t
    ensures StartsWith(BearerPrefix + t, BearerPrefix)
    ensures Token(BearerPrefix + t) == t
  {
    assert (BearerPrefix + t)[|BearerPrefix|..] == t;
    SplitNoSeparator(t, ' ');
  }

  /** The users whose e-mail is `email`. */
  function WithEmail(users: seq<User>, email: string): (r: seq<User>)
    ensures |r| <= |users|
    ensures forall u :: u in r <==> (u in users && u.email == email)
  {
    if users == [] then []
    else
      assert forall u :: u in users ==> u == users[0] || u in users[1..];
      (if users[0].email == email then [users[0]] else []) + WithEmail(users[1..], email)
  }

  /**
   * `authenticate`: no attempt without a bearer header; otherwise a verifier
   * ValueError is 'Invalid token', claims without an e-mail are
   * 'Authentication failed' (the AuthenticationFailed raised for them falls
   * to the generic handler), no user is 'User not found', more than one
   * user (or any other exception) is 'Authentication failed', and exactly
   * one user authenticates.
   */
  function Authenticate(header: Option<string>, verify: string -> Verification, users: seq<User>): (r: AuthOutcome)
    ensures r.NotAttempted? <==> !IsBearer(header)
    ensures IsBearer(header) && verify(Token(header.value)).VerifyValueError? ==> r == Failed(InvalidToken)
    ensures r.Authenticated? ==>
      && IsBearer(header)
      && verify(Token(header.value)) == Verified(Some(r.user.email))
      && r.user.email != ""
      && WithEmail(users, r.user.email) == [r.user]
    ensures r == Failed(UserNotFound) <==>
      IsBearer(header)
      && var v := verify(Token(header.value));
         v.Verified? && v.email.Some? && v.email.value != "" && WithEmail(users, v.email.value) == []
    ensures IsBearer(header) && verify(Token(header.value)).VerifyRaised? ==> r == Failed(AuthFailed)
    ensures (IsBearer(header) &&
             var v := verify(Token(header.value));
             v.Verified? && v.email.Some? && v.email.value != "" && |WithEmail(users, v.email.value)| > 1)
      ==> r == Failed(AuthFailed)
  {
    if !IsBearer(header) then NotAttempted
    else
      var token := Token(header.value);
      match verify(token)
      case VerifyValueError => Failed(InvalidToken)
      case VerifyRaised => Failed(AuthFailed)
      case Verified(email) =>
        if email.None? || email.value == "" then Failed(AuthFailed)
        else
          var matches := WithEmail(users, email.value);
          if |matches| == 0 then Failed(UserNotFound)
          else if |matches| == 1 then Authenticated(matches[0])
          else Failed(AuthFailed)
  }

  /** Claims without an e-mail fail as 'Authentication failed', whatever the user table holds. */
  lemma MissingEmailFails(header: Option<string>, verify: string -> Verification, users: seq<User>)
    requires IsBearer(header)
    requires verify(Token(header.value)) == Verified(None) || verify(Token(header.value)) == Verified(Some(""))
    ensures Authenticate(header, verify, users) == Failed(AuthFailed)
  {
  }

  /** A registered e-mail held by exactly one user authenticates that user. */
  lemma UniqueUserAuthenticates(t: string, verify: string -> Verification, users: seq<User>, u: User)
    requires ' ' !in t && u.email != ""
    requires verify(t) == Verified(Some(u.email))
    requires u in users && |WithEmail(users, u.email)| == 1
    ensures Authenticate(Some(BearerPrefix + t), verify, users) == Authenticated(u)
  {
    TokenOfBearer(t);
    var m := WithEmail(users, u.email);
    assert m[0] in m;
  }
}
