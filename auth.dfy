/**
 * The `/register` and `/login` routes of the backend (recetas-backend/routes/auth.js)
 * over the `users` table.
 *
 * bcrypt and JSON Web Tokens are kept abstract as symbolic terms: a `Digest`
 * is what `bcrypt.hash` returns and can only be checked with `Compare`, and a
 * `Token` is a signed claim set with its issuance and expiry times. The salt
 * bcrypt draws and the clock `jwt.sign` reads are parameters.
 */
module Auth {
  import opened Sequences
  import opened Http

  /** The cost factor passed to `bcrypt.hash`. */
  const BcryptCost: nat := 10

  /** `expiresIn: '7d'`, in seconds. */
  const TokenLifetime: nat := 7 * 24 * 60 * 60

  const DuplicateEmail := "El email ya está registrado"
  const RegisterError := "Error al registrar usuario"
  const Registered := "Usuario registrado exitosamente"
  const InvalidCredentials := "Credenciales inválidas"
  const LoginError := "Error al iniciar sesión"

  /** A salted bcrypt digest of a password (an ideal, collision-free hash). */
  datatype Digest = Digest(cost: nat, salt: nat, secret: string)

  function Hash(password: string, salt: nat): Digest
  {
    Digest(BcryptCost, salt, password)
  }

  /** `bcrypt.compare`: whether `password` is the one `digest` was made from. */
  predicate Compare(password: string, digest: Digest)
  {
    digest.secret == password
  }

  /** A row of `users`; the password column holds only a digest. */
  datatype User = User(id: nat, email: string, name: string, password: Digest)

  /** The user object the login route returns and the client keeps. */
  datatype PublicUser = PublicUser(id: nat, email: string, name: string)

  /** The payload of an access token. */
  datatype Claims = Claims(id: nat, email: string, name: string)

  datatype Token = Token(claims: Claims, issuedAt: nat, expiresAt: nat, key: string)

  /** The body of a successful login: `{ token, user }`. */
  datatype LoginBody = LoginBody(token: Token, user: PublicUser)

  /** Where a registration can throw: in `bcrypt.hash`, or in the insert for a reason other than the unique email index. */
  datatype RegisterFault = RegisterHealthy | HashThrows | InsertThrows

  /** Where a login can throw: in the users query, in `bcrypt.compare` or in `jwt.sign`. */
  datatype LoginFault = LoginHealthy | QueryThrows | CompareThrows | SignThrows

  /** `jwt.sign(claims, key, { expiresIn: '7d' })` at time `now`. */
  function Sign(claims: Claims, key: string, now: nat): Token
  {
    Token(claims, now, now + TokenLifetime, key)
  }

  function PublicView(u: User): PublicUser
  {
    PublicUser(u.id, u.email, u.name)
  }

  /** `SELECT * FROM users WHERE email = ?` */
  function WithEmail(users: seq<User>, email: string): seq<User>
  {
    Filter(users, (u: User) => u.email == email)
  }

  predicate IsRegistered(users: seq<User>, email: string)
  {
    exists k :: 0 <= k < |users| && users[k].email == email
  }

  /** The unique index on `users.email`. */
  predicate UniqueEmails(users: seq<User>)
  {
    forall i, j :: 0 <= i < j < |users| ==> users[i].email != users[j].email
  }

  /** The reply of the login route for a table, the request and the fault that occurs, if any. */
  function LoginResult(users: seq<User>, email: string, password: string, key: string, now: nat, fault: LoginFault): Reply<LoginBody>
  {
    if fault == QueryThrows then Fail(500, LoginError)
    else
      var rows := WithEmail(users, email);
      if |rows| == 0 then Fail(401, InvalidCredentials)
      else if fault == CompareThrows then Fail(500, LoginError)
      else if !Compare(password, rows[0].password) then Fail(401, InvalidCredentials)
      else if fault == SignThrows then Fail(500, LoginError)
      else
        var u := rows[0];
        Ok(200, LoginBody(Sign(Claims(u.id, u.email, u.name), key, now), PublicView(u)))
  }

  /** With unique emails, the lookup finds exactly the user holding that email. */
  lemma {:induction false} WithEmailFinds(users: seq<User>, k: nat)
    requires UniqueEmails(users) && k < |users|
    ensures WithEmail(users, users[k].email) == [users[k]]
  {
    var email := users[k].email;
    if k == 0 {
      assert forall j :: 0 <= j < |users[1..]| ==> users[1..][j] == users[j + 1];
      FilterNonePass(users[1..], (u: User) => u.email == email);
    } else {
      assert UniqueEmails(users[1..]);
      WithEmailFinds(users[1..], k - 1);
    }
  }

  /** The lookup is empty exactly when nobody registered that email. */
  lemma WithEmailEmpty(users: seq<User>, email: string)
    ensures WithEmail(users, email) == [] <==> !IsRegistered(users, email)
  {
    if IsRegistered(users, email) {
      var k :| 0 <= k < |users| && users[k].email == email;
      FilterMembers(users, (u: User) => u.email == email);
      assert users[k] in WithEmail(users, email);
    } else {
      FilterNonePass(users, (u: User) => u.email == email);
    }
  }

  /** A login succeeds exactly when nothing throws and the password matches the digest stored for that email. */
  lemma LoginSucceedsIff(users: seq<User>, email: string, password: string, key: string, now: nat, fault: LoginFault)
    requires UniqueEmails(users)
    ensures LoginResult(users, email, password, key, now, fault).Ok? <==>
      fault == LoginHealthy && exists k :: 0 <= k < |users| && users[k].email == email && Compare(password, users[k].password)
  {
    WithEmailEmpty(users, email);
    if IsRegistered(users, email) {
      var k :| 0 <= k < |users| && users[k].email == email;
      WithEmailFinds(users, k);
    }
  }

  /** A successful login signs exactly `{ id, email, name }` of that user for seven days and returns the same fields, without the digest. */
  lemma LoginIssuesToken(users: seq<User>, k: nat, password: string, key: string, now: nat)
    requires UniqueEmails(users) && k < |users| && Compare(password, users[k].password)
    ensures var u := users[k];
      LoginResult(users, u.email, password, key, now, LoginHealthy) ==
      Ok(200, LoginBody(Token(Claims(u.id, u.email, u.name), now, now + TokenLifetime, key), PublicUser(u.id, u.email, u.name)))
  {
    WithEmailFinds(users, k);
  }

  /** An unknown email and a wrong password get the same 401 reply, so a caller cannot tell which emails are registered. */
  lemma UnknownEmailLikeWrongPassword(users: seq<User>, unknown: string, guess: string, k: nat, wrong: string, key: string, now: nat)
    requires UniqueEmails(users) && !IsRegistered(users, unknown)
    requires k < |users| && !Compare(wrong, users[k].password)
    ensures LoginResult(users, unknown, guess, key, now, LoginHealthy) == Fail(401, InvalidCredentials)
    ensures LoginResult(users, users[k].email, wrong, key, now, LoginHealthy) == Fail(401, InvalidCredentials)
  {
    WithEmailEmpty(users, unknown);
    WithEmailFinds(users, k);
  }

  /** The public view of a user does not depend on the stored digest. */
  lemma PublicViewIgnoresDigest(u: User, d: Digest)
    ensures PublicView(u.(password := d)) == PublicView(u)
    ensures PublicView(u) == PublicUser(u.id, u.email, u.name)
  {
  }

  /** Registering a fresh email and then logging in with the same password succeeds as the new user. */
  lemma RegisterThenLogin(users: seq<User>, id: nat, email: string, password: string, name: string, salt: nat, key: string, now: nat)
    requires UniqueEmails(users) && !IsRegistered(users, email)
    ensures LoginResult(users + [User(id, email, name, Hash(password, salt))], email, password, key, now, LoginHealthy) ==
      Ok(200, LoginBody(Sign(Claims(id, email, name), key, now), PublicUser(id, email, name)))
  {
    var after := users + [User(id, email, name, Hash(password, salt))];
    assert after[|users|].email == email;
    WithEmailFinds(after, |users|);
  }

  /** The `users` table, with its auto-increment counter. */
  class UserTable {
    var users: seq<User>
    var nextId: nat

    ghost predicate Valid()
      reads this
    {
      && UniqueEmails(users)
      && (forall i, j :: 0 <= i < j < |users| ==> users[i].id < users[j].id)
      && (forall k :: 0 <= k < |users| ==> users[k].id < nextId)
    }

    constructor ()
      ensures Valid() && users == [] && nextId == 1
    {
      users := [];
      nextId := 1;
    }

    /** POST /register. */
    method Register(email: string, password: string, name: string, salt: nat, fault: RegisterFault) returns (reply: Reply<string>)
      requires Valid()
      modifies this
      ensures Valid()
      ensures fault != RegisterHealthy ==> reply == Fail(500, RegisterError) && users == old(users)
      ensures fault == RegisterHealthy && IsRegistered(old(users), email) ==>
        reply == Fail(400, DuplicateEmail) && users == old(users)
      ensures fault == RegisterHealthy && !IsRegistered(old(users), email) ==>
        && reply == Ok(201, Registered)
        && users == old(users) + [User(old(nextId), email, name, Hash(password, salt))]
        && nextId == old(nextId) + 1
    {
      if fault == HashThrows {
        return Fail(500, RegisterError);
      }
      var digest := Hash(password, salt);
      if fault == InsertThrows {
        return Fail(500, RegisterError);
      }
      if IsRegistered(users, email) {
        return Fail(400, DuplicateEmail);
      }
      users := users + [User(nextId, email, name, digest)];
      nextId := nextId + 1;
      reply := Ok(201, Registered);
    }

    /** POST /login; it only reads the table. */
    method Login(email: string, password: string, key: string, now: nat, fault: LoginFault) returns (reply: Reply<LoginBody>)
      ensures reply == LoginResult(users, email, password, key, now, fault)
    {
      if fault == QueryThrows {
        return Fail(500, LoginError);
      }
      var rows := WithEmail(users, email);
      if |rows| == 0 {
        return Fail(401, InvalidCredentials);
      }
      var user := rows[0];
      if fault == CompareThrows {
        return Fail(500, LoginError);
      }
      var valid := Compare(password, user.password);
      if !valid {
        return Fail(401, InvalidCredentials);
      }
      if fault == SignThrows {
        return Fail(500, LoginError);
      }
      var token := Sign(Claims(user.id, user.email, user.name), key, now);
      reply := Ok(200, LoginBody(token, PublicView(user)));
    }
  }
}
