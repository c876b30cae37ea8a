/**
 * The session state of the client (src/App.jsx): the `isLoggedIn`, `token` and
 * `currentUser` state fields, the copies kept in `localStorage` under `token`
 * and `user`, and the checks the registration form runs before any request.
 */
module Session {
  import opened Wrappers
  import opened Http
  import Auth

  const PasswordsDiffer := "Las contraseñas no coinciden"
  const PasswordTooShort := "La contraseña debe tener al menos 6 caracteres"
  const MinPasswordLength := 6

  /** The body the registration form posts: name, email and password, never the confirmation. */
  datatype RegisterRequest = RegisterRequest(name: string, email: string, password: string)

  /** The checks of `handleRegister`: a mismatch is reported first, then a short password; otherwise the request to send. */
  function RegisterPrecheck(name: string, email: string, password: string, confirmPassword: string): (r: Result<RegisterRequest, string>)
    ensures r.Success? <==> password == confirmPassword && |password| >= MinPasswordLength
    ensures password != confirmPassword ==> r == Failure(PasswordsDiffer)
    ensures password == confirmPassword && |password| < MinPasswordLength ==> r == Failure(PasswordTooShort)
    ensures r.Success? ==> r.value == RegisterRequest(name, email, password)
  {
    if password != confirmPassword then Failure(PasswordsDiffer)
    else if |password| < MinPasswordLength then Failure(PasswordTooShort)
    else Success(RegisterRequest(name, email, password))
  }

  class ClientSession {
    var isLoggedIn: bool
    var token: Option<Auth.Token>
    var currentUser: Option<Auth.PublicUser>
    /** `localStorage.getItem('token')` and the parsed `localStorage.getItem('user')`. */
    var storedToken: Option<Auth.Token>
    var storedUser: Option<Auth.PublicUser>

    /** A logged-in session holds a token and a user, and they are the ones saved in storage. */
    ghost predicate Valid()
      reads this
    {
      isLoggedIn ==> token.Some? && currentUser.Some? && storedToken == token && storedUser == currentUser
    }

    /** The first render: `token` starts from storage, but nobody is logged in yet. */
    constructor (savedToken: Option<Auth.Token>, savedUser: Option<Auth.PublicUser>)
      ensures Valid()
      ensures !isLoggedIn && token == savedToken && currentUser == None
      ensures storedToken == savedToken && storedUser == savedUser
    {
      isLoggedIn := false;
      token := savedToken;
      currentUser := None;
      storedToken := savedToken;
      storedUser := savedUser;
    }

    /** The mount effect: the saved session comes back only when both a token and a user are saved. */
    method RestoreOnMount()
      requires Valid()
      modifies this
      ensures Valid()
      ensures storedToken == old(storedToken) && storedUser == old(storedUser)
      ensures old(storedToken).Some? && old(storedUser).Some? ==>
        isLoggedIn && token == old(storedToken) && currentUser == old(storedUser)
      ensures !(old(storedToken).Some? && old(storedUser).Some?) ==>
        isLoggedIn == old(isLoggedIn) && token == old(token) && currentUser == old(currentUser)
    {
      if storedToken.Some? && storedUser.Some? {
        token := storedToken;
        currentUser := storedUser;
        isLoggedIn := true;
      }
    }

    /** `handleLogin` once the reply arrives: a success sets all three fields and saves them; a failure changes nothing. */
    method HandleLogin(reply: Reply<Auth.LoginBody>)
      requires Valid()
      modifies this
      ensures Valid()
      ensures reply.Ok? ==>
        && isLoggedIn && token == Some(reply.value.token) && currentUser == Some(reply.value.user)
        && storedToken == token && storedUser == currentUser
      ensures reply.Fail? ==>
        && isLoggedIn == old(isLoggedIn) && token == old(token) && currentUser == old(currentUser)
        && storedToken == old(storedToken) && storedUser == old(storedUser)
    {
      if reply.Ok? {
        token := Some(reply.value.token);
        currentUser := Some(reply.value.user);
        isLoggedIn := true;
        storedToken := token;
        storedUser := currentUser;
      }
    }

    /** `handleLogout`: not logged in, no token, no user, and nothing left in storage. */
    method HandleLogout()
      modifies this
      ensures Valid()
      ensures !isLoggedIn && token == None && currentUser == None
      ensures storedToken == None && storedUser == None
    {
      isLoggedIn := false;
      currentUser := None;
      token := None;
      storedToken := None;
      storedUser := None;
    }
  }

  /** A reload after a successful login: the new page restores the same user and token from storage. */
  method ReloadAfterLogin(savedToken: Option<Auth.Token>, savedUser: Option<Auth.PublicUser>, body: Auth.LoginBody)
    returns (before: ClientSession, after: ClientSession)
    ensures before.isLoggedIn && after.isLoggedIn
    ensures after.token == before.token == Some(body.token)
    ensures after.currentUser == before.currentUser == Some(body.user)
  {
    before := new ClientSession(savedToken, savedUser);
    before.RestoreOnMount();
    before.HandleLogin(Ok(200, body));
    after := new ClientSession(before.storedToken, before.storedUser);
    after.RestoreOnMount();
  }

  /** A reload after a logout: the new page starts logged out, with no token. */
  method ReloadAfterLogout(savedToken: Option<Auth.Token>, savedUser: Option<Auth.PublicUser>)
    returns (after: ClientSession)
    ensures !after.isLoggedIn && after.token == None && after.currentUser == None
  {
    var before := new ClientSession(savedToken, savedUser);
    before.RestoreOnMount();
    before.HandleLogout();
    after := new ClientSession(before.storedToken, before.storedUser);
    after.RestoreOnMount();
  }
}
