/** The users and sessions tables: registration, login, token lookup and token cleaning. */
module Users {
  import opened Wire
  import opened Protocol

  datatype User = User(id: int, login: Bytes, salt: ZeroFree, password: ZeroFree)

  datatype TokenRow = TokenRow(id: int, createdAt: int)

  /** sha256 stands for the hash function in hexadecimal, of which nothing else is assumed. nextId is the
      AUTOINCREMENT counter. */
  datatype Accounts = Accounts(
    sha256: Bytes -> ZeroFree,
    users: seq<User>,
    nextId: int,
    tokens: map<Bytes, TokenRow>)

  const TOKEN_TTL: int := 7 * 24 * 60 * 60

  /** SELECT ... FROM users WHERE login = ? */
  function ByLogin(users: seq<User>, login: Bytes): (r: Option<User>)
    ensures r.Some? ==> r.value in users && r.value.login == login
    ensures r.None? ==> forall u :: u in users ==> u.login != login
  {
    if users == [] then None
    else if users[0].login == login then Some(users[0]) else ByLogin(users[1..], login)
  }

  /** SELECT ... FROM users WHERE id = ? */
  function ById(users: seq<User>, id: int): (r: Option<User>)
    ensures r.Some? ==> r.value in users && r.value.id == id
    ensures r.None? ==> forall u :: u in users ==> u.id != id
  {
    if users == [] then None
    else if users[0].id == id then Some(users[0]) else ById(users[1..], id)
  }

  /** getLoginById: the login as the column accessor returns it. */
  function LoginById(users: seq<User>, id: int): Option<Bytes>
  {
    var u := ById(users, id);
    if u.Some? then Some(CString(u.value.login)) else None
  }

  function Ids(users: seq<User>): set<int>
  {
    set u | u in users :: u.id
  }

  datatype Registration = Registration(accounts: Accounts, code: ErrorCode)

  function RegisterUser(a: Accounts, login: Bytes, password: Bytes, salt: ZeroFree): Registration
  {
    if ByLogin(a.users, login).Some? then Registration(a, LOGIN_EXISTS)
    else
      var row := User(a.nextId, login, salt, a.sha256(password + salt));
      Registration(a.(users := a.users + [row], nextId := a.nextId + 1), OK)
  }

  predicate PasswordMatches(a: Accounts, login: Bytes, password: Bytes)
  {
    var u := ByLogin(a.users, login);
    u.Some? && a.sha256(password + CString(u.value.salt)) == CString(u.value.password)
  }

  /** Clash is the exception of an INSERT whose token is already a primary key. */
  datatype Verification = Issued(accounts: Accounts) | Denied | Clash

  function VerifyUser(a: Accounts, login: Bytes, password: Bytes, token: Bytes, now: int): Verification
  {
    if !PasswordMatches(a, login, password) then Denied
    else if token in a.tokens then Clash
    else
      var id := ByLogin(a.users, login).value.id;
      Issued(a.(tokens := a.tokens[token := TokenRow(id, now)]))
  }

  datatype LoginResult = LoggedIn(login: Bytes) | Refused(code: ErrorCode)

  datatype Lookup = Lookup(accounts: Accounts, result: LoginResult)

  function LoginByToken(a: Accounts, token: Bytes, now: int): Lookup
  {
    if token !in a.tokens then Lookup(a, Refused(NON_AUTHORIZED))
    else
      var row := a.tokens[token];
      if now - row.createdAt > TOKEN_TTL then Lookup(RevokeToken(a, token), Refused(TOKEN_EXPIRED))
      else
        var u := ById(a.users, row.id);
        Lookup(a, if u.Some? then LoggedIn(CString(u.value.login)) else Refused(USER_NOT_FOUND))
  }

  function RevokeToken(a: Accounts, token: Bytes): Accounts
  {
    a.(tokens := a.tokens - {token})
  }

  function CleanExpired(a: Accounts, now: int): Accounts
  {
    a.(tokens := map t | t in a.tokens && !(now - a.tokens[t].createdAt > TOKEN_TTL) :: a.tokens[t])
  }

  // ---- integrity -----------------------------------------------------------------------------

  predicate UsersInv(users: seq<User>, nextId: int)
  {
    && (forall i :: 0 <= i < |users| ==> users[i].id < nextId)
    && (forall i, j :: 0 <= i < j < |users| ==> users[i].id < users[j].id && users[i].login != users[j].login)
  }

  predicate AccountsInv(a: Accounts)
  {
    && UsersInv(a.users, a.nextId)
    && forall t :: t in a.tokens ==> a.tokens[t].id in Ids(a.users)
  }

  lemma UniqueUser(users: seq<User>, nextId: int, u: User, v: User)
    requires UsersInv(users, nextId) && u in users && v in users && (u.id == v.id || u.login == v.login)
    ensures u == v
  {
    var i :| 0 <= i < |users| && users[i] == u;
    var j :| 0 <= j < |users| && users[j] == v;
    assert !(i < j) && !(j < i);
  }

  /** Login and id lookups are inverse to each other. */
  lemma LookupsInverse(a: Accounts, login: Bytes, id: int)
    requires AccountsInv(a)
    ensures (ByLogin(a.users, login).Some? && ByLogin(a.users, login).value.id == id)
       <==> (ById(a.users, id).Some? && ById(a.users, id).value.login == login)
  {
    var u, v := ByLogin(a.users, login), ById(a.users, id);
    if u.Some? && v.Some? && (u.value.id == id || v.value.login == login) {
      UniqueUser(a.users, a.nextId, u.value, v.value);
    }
  }

  /** What the two lookups make of each other: the id found for a login leads back to that login as far as its
      first zero byte, and the login found for an id leads back to that user exactly if it has no zero byte. */
  lemma LookupsInverseExactly(a: Accounts, u: User)
    requires AccountsInv(a) && u in a.users
    ensures ByLogin(a.users, u.login) == Some(u) && LoginById(a.users, u.id) == Some(CString(u.login))
    ensures ByLogin(a.users, CString(u.login)) == Some(u) <==> 0 !in u.login
  {
    UniqueUser(a.users, a.nextId, u, ByLogin(a.users, u.login).value);
    UniqueUser(a.users, a.nextId, u, ById(a.users, u.id).value);
    CStringExactly(u.login);
  }

  lemma KnownId(a: Accounts, id: int)
    ensures id in Ids(a.users) <==> ById(a.users, id).Some?
  {
  }

  lemma RegisterKeepsInv(a: Accounts, login: Bytes, password: Bytes, salt: ZeroFree)
    requires AccountsInv(a)
    ensures AccountsInv(RegisterUser(a, login, password, salt).accounts)
    ensures Ids(a.users) <= Ids(RegisterUser(a, login, password, salt).accounts.users)
  {
    var users' := RegisterUser(a, login, password, salt).accounts.users;
    assert forall u :: u in a.users ==> u in users';
  }

  lemma VerifyKeepsInv(a: Accounts, login: Bytes, password: Bytes, token: Bytes, now: int)
    requires AccountsInv(a) && VerifyUser(a, login, password, token, now).Issued?
    ensures AccountsInv(VerifyUser(a, login, password, token, now).accounts)
  {
  }

  lemma LookupKeepsInv(a: Accounts, token: Bytes, now: int)
    requires AccountsInv(a)
    ensures AccountsInv(LoginByToken(a, token, now).accounts)
  {
  }

  /** Whose token it is: the user the sessions table names, while the token is not too old. */
  function OwnerOf(a: Accounts, token: Bytes, now: int): Option<User>
  {
    if token in a.tokens && now - a.tokens[token].createdAt <= TOKEN_TTL
    then ById(a.users, a.tokens[token].id) else None
  }

  /** A lookup succeeds exactly for a token that has an owner, and answers the owner's login as far as its first
      zero byte; otherwise it tells an unknown token from an expired one. USER_NOT_FOUND never happens. */
  lemma LookupIsTotal(a: Accounts, token: Bytes, now: int)
    requires AccountsInv(a)
    ensures var owner := OwnerOf(a, token, now);
            match LoginByToken(a, token, now).result
            case LoggedIn(login) => owner.Some? && login == CString(owner.value.login)
            case Refused(code) =>
              owner.None? && code == if token in a.tokens then TOKEN_EXPIRED else NON_AUTHORIZED
    ensures LoginByToken(a, token, now).result.LoggedIn? <==>
            token in a.tokens && now - a.tokens[token].createdAt <= 7 * 24 * 60 * 60
  {
    if token in a.tokens {
      KnownId(a, a.tokens[token].id);
    }
  }

  /** The login a token resolves to is that of the token's owner if and only if it has no zero byte; otherwise it
      is another user's or nobody's. */
  lemma TokenNamesOwnerExactly(a: Accounts, token: Bytes, now: int)
    requires AccountsInv(a) && OwnerOf(a, token, now).Some?
    ensures LoginByToken(a, token, now).result.LoggedIn?
    ensures var owner := OwnerOf(a, token, now).value;
            ByLogin(a.users, LoginByToken(a, token, now).result.login) == Some(owner) <==> 0 !in owner.login
  {
    LookupIsTotal(a, token, now);
    LookupsInverseExactly(a, OwnerOf(a, token, now).value);
  }

  /** A user who has just registered can log in with that password, and the token issued then works until
      it is older than the time to live, answering the login as far as its first zero byte. */
  lemma RegisteredUserVerifies(a: Accounts, login: Bytes, password: Bytes, salt: ZeroFree, token: Bytes, now: int,
                               later: int)
    requires AccountsInv(a) && RegisterUser(a, login, password, salt).code == OK
    ensures var b := RegisterUser(a, login, password, salt).accounts;
            var v := VerifyUser(b, login, password, token, now);
            && (v.Issued? <==> token !in a.tokens) && !v.Denied?
            && (v.Issued? ==> LoginByToken(v.accounts, token, later).result
                              == if later - now <= TOKEN_TTL then LoggedIn(CString(login)) else Refused(TOKEN_EXPIRED))
  {
    var b := RegisterUser(a, login, password, salt).accounts;
    RegisterKeepsInv(a, login, password, salt);
    var row := b.users[|a.users|];
    assert row in b.users;
    UniqueUser(b.users, b.nextId, row, ByLogin(b.users, login).value);
    CStringExactly(salt);
    CStringExactly(row.password);
    var v := VerifyUser(b, login, password, token, now);
    if v.Issued? {
      UniqueUser(b.users, b.nextId, row, ById(b.users, row.id).value);
    }
  }

  /** Registering adds exactly one user, under the next id, with the salt and the digest of password and salt, unless
      somebody has the login already. */
  lemma RegisterIs(a: Accounts, login: Bytes, password: Bytes, salt: ZeroFree)
    ensures RegisterUser(a, login, password, salt)
         == if exists u :: u in a.users && u.login == login then Registration(a, LOGIN_EXISTS)
            else Registration(a.(users := a.users + [User(a.nextId, login, salt, a.sha256(password + salt))],
                                 nextId := a.nextId + 1), OK)
  {
  }

  /** Somebody has this login, and the digest of the password with that user's salt is the stored one. */
  ghost predicate Knows(a: Accounts, login: Bytes, password: Bytes)
  {
    exists u :: u in a.users && u.login == login && a.sha256(password + u.salt) == u.password
  }

  /** A sign-in is denied exactly if the login and password do not belong together; otherwise a token of that user is
      stored with the time, unless the generated one is there already. */
  lemma VerifyIs(a: Accounts, login: Bytes, password: Bytes, token: Bytes, now: int)
    requires AccountsInv(a)
    ensures PasswordMatches(a, login, password) <==> Knows(a, login, password)
    ensures var v := VerifyUser(a, login, password, token, now);
            && (v.Denied? <==> !Knows(a, login, password))
            && (v.Clash? <==> Knows(a, login, password) && token in a.tokens)
            && (v.Issued? ==>
                  exists u :: u in a.users && u.login == login
                         && v.accounts == a.(tokens := a.tokens[token := TokenRow(u.id, now)]))
  {
    var q := ByLogin(a.users, login);
    if q.Some? {
      CStringExactly(q.value.salt);
      CStringExactly(q.value.password);
      forall u | u in a.users && u.login == login ensures u == q.value {
        UniqueUser(a.users, a.nextId, u, q.value);
      }
    }
  }

  /** After a registration a password is refused exactly if its digest with the salt is another. */
  lemma PasswordDecides(a: Accounts, login: Bytes, p: Bytes, q: Bytes, salt: ZeroFree, token: Bytes, now: int)
    requires AccountsInv(a) && RegisterUser(a, login, p, salt).code == OK
    ensures VerifyUser(RegisterUser(a, login, p, salt).accounts, login, q, token, now).Denied?
       <==> a.sha256(q + salt) != a.sha256(p + salt)
  {
    var b := RegisterUser(a, login, p, salt).accounts;
    RegisterKeepsInv(a, login, p, salt);
    RegisterIs(a, login, p, salt);
    VerifyIs(b, login, q, token, now);
    var row := b.users[|a.users|];
    assert row in b.users;
    forall u | u in b.users && u.login == login ensures u == row {
      UniqueUser(b.users, b.nextId, u, row);
    }
  }

  /** Cleaning keeps exactly the tokens that are not older than a week, each with its row. */
  lemma CleanedExactly(a: Accounts, token: Bytes, now: int)
    ensures var b := CleanExpired(a, now);
            && (token in b.tokens <==> token in a.tokens && now - a.tokens[token].createdAt <= 7 * 24 * 60 * 60)
            && (token in b.tokens ==> b.tokens[token] == a.tokens[token])
            && b == a.(tokens := b.tokens)
  {
  }

  /** Logging out stops that token and no other. */
  lemma RevokedOnly(a: Accounts, token: Bytes, other: Bytes, now: int)
    ensures LoginByToken(RevokeToken(a, token), token, now).result == Refused(NON_AUTHORIZED)
    ensures other != token ==>
              LoginByToken(RevokeToken(a, token), other, now).result == LoginByToken(a, other, now).result
  {
  }

  /** Cleaning removes exactly what has expired: no lookup reports an expired token any more. */
  lemma CleanedNeverExpired(a: Accounts, token: Bytes, now: int)
    ensures LoginByToken(CleanExpired(a, now), token, now).result != Refused(TOKEN_EXPIRED)
    ensures LoginByToken(a, token, now).result.LoggedIn? ==>
              LoginByToken(CleanExpired(a, now), token, now).result == LoginByToken(a, token, now).result
  {
  }

  // ---- the token cleaner is invisible --------------------------------------------------------

  datatype UserOp =
    | SignUp(login: Bytes, password: Bytes, salt: ZeroFree)
    | SignIn(login: Bytes, password: Bytes, token: Bytes)
    | Find(token: Bytes)
    | Drop(token: Bytes)
    | Clean

  datatype Timed = Timed(op: UserOp, now: int)

  datatype Answer = Code(code: ErrorCode) | Found(result: LoginResult) | Verdict(issued: bool) | Dropped

  datatype Reaction = Reaction(accounts: Accounts, answers: seq<Answer>)

  function React(a: Accounts, e: Timed): Reaction
  {
    match e.op
    case SignUp(login, password, salt) =>
      var r := RegisterUser(a, login, password, salt);
      Reaction(r.accounts, [Code(r.code)])
    case SignIn(login, password, token) =>
      var v := VerifyUser(a, login, password, token, e.now);
      Reaction(if v.Issued? then v.accounts else a, [Verdict(v.Issued?)])
    case Find(token) =>
      var l := LoginByToken(a, token, e.now);
      Reaction(l.accounts, [Found(l.result)])
    case Drop(token) => Reaction(RevokeToken(a, token), [Dropped])
    case Clean => Reaction(CleanExpired(a, e.now), [])
  }

  /** The answers of a run, cleaning steps included. */
  function Answers(a: Accounts, es: seq<Timed>): seq<Answer>
    decreases |es|
  {
    if es == [] then []
    else React(a, es[0]).answers + Answers(React(a, es[0]).accounts, es[1..])
  }

  function WithoutCleaning(es: seq<Timed>): seq<Timed>
  {
    if es == [] then []
    else if es[0].op.Clean? then WithoutCleaning(es[1..]) else [es[0]] + WithoutCleaning(es[1..])
  }

  /** The clock never goes back, starting from now. */
  predicate ClockFrom(now: int, es: seq<Timed>)
    decreases |es|
  {
    es != [] ==> now <= es[0].now && ClockFrom(es[0].now, es[1..])
  }

  /** Generated tokens are new: none is already in the table of the run that never cleans. */
  predicate FreshTokens(a: Accounts, es: seq<Timed>)
    decreases |es|
  {
    es != [] ==>
      && (es[0].op.SignIn? ==> es[0].op.token !in a.tokens)
      && FreshTokens(if es[0].op.Clean? then a else React(a, es[0]).accounts, es[1..])
  }

  /** a is b with some tokens missing, all of them expired by now. */
  ghost predicate Cleaner(a: Accounts, b: Accounts, now: int)
  {
    && a.sha256 == b.sha256 && a.users == b.users && a.nextId == b.nextId
    && (forall t :: t in a.tokens ==> t in b.tokens && b.tokens[t] == a.tokens[t])
    && (forall t :: t in b.tokens && t !in a.tokens ==> now - b.tokens[t].createdAt > TOKEN_TTL)
  }

  /** Equal answers, except that a refused token may be reported as unknown instead of expired. */
  predicate SameAnswer(x: Answer, y: Answer)
  {
    x == y || (x == Found(Refused(NON_AUTHORIZED)) && y == Found(Refused(TOKEN_EXPIRED)))
  }

  predicate SameAnswers(xs: seq<Answer>, ys: seq<Answer>)
  {
    |xs| == |ys| && forall i :: 0 <= i < |xs| ==> SameAnswer(xs[i], ys[i])
  }

  lemma CleanerStep(a: Accounts, b: Accounts, e: Timed, now: int)
    requires Cleaner(a, b, now) && now <= e.now && !e.op.Clean?
    requires e.op.SignIn? ==> e.op.token !in b.tokens
    ensures Cleaner(React(a, e).accounts, React(b, e).accounts, e.now)
    ensures SameAnswers(React(a, e).answers, React(b, e).answers)
  {
  }

  /** Cleaning steps inserted anywhere leave every answer as it was: which lookups succeed, with which login,
      and every other result. Only the reason for refusing an expired token may differ. */
  lemma {:induction false} CleaningIsInvisible(a: Accounts, b: Accounts, es: seq<Timed>, now: int)
    requires Cleaner(a, b, now) && ClockFrom(now, es) && FreshTokens(b, es)
    ensures SameAnswers(Answers(a, es), Answers(b, WithoutCleaning(es)))
    decreases |es|
  {
    if es != [] {
      var e := es[0];
      if e.op.Clean? {
        CleaningIsInvisible(React(a, e).accounts, b, es[1..], e.now);
      } else {
        CleanerStep(a, b, e, now);
        CleaningIsInvisible(React(a, e).accounts, React(b, e).accounts, es[1..], e.now);
        assert WithoutCleaning(es)[1..] == WithoutCleaning(es[1..]);
      }
    }
  }

  // ---- the repository ------------------------------------------------------------------------

  class UserRepository {
    const sha256: Bytes -> ZeroFree
    var users: seq<User>
    var nextId: int
    var sessions: map<Bytes, TokenRow>

    ghost function Contents(): Accounts
      reads this
    {
      Accounts(sha256, users, nextId, sessions)
    }

    constructor (sha256: Bytes -> ZeroFree)
      ensures Contents() == Accounts(sha256, [], 1, map[]) && AccountsInv(Contents())
    {
      this.sha256 := sha256;
      users, nextId, sessions := [], 1, map[];
    }

    /** salt is the UUID generateSalt returns. */
    method RegisterNew(login: Bytes, password: Bytes, salt: ZeroFree) returns (code: ErrorCode)
      modifies this
      ensures Registration(Contents(), code) == RegisterUser(old(Contents()), login, password, salt)
    {
      var check := ByLogin(users, login);
      if check.Some? {
        return LOGIN_EXISTS;
      }
      var hash := sha256(password + salt);
      users := users + [User(nextId, login, salt, hash)];
      nextId := nextId + 1;
      return OK;
    }

    method VerifyPassword(login: Bytes, password: Bytes) returns (ok: bool)
      ensures ok == PasswordMatches(Contents(), login, password)
    {
      var q := ByLogin(users, login);
      if q.None? {
        return false;
      }
      var salt, hash := CString(q.value.salt), CString(q.value.password);
      return sha256(password + salt) == hash;
    }

    /** token is the UUID the generator returns; clash reports the violated primary key. */
    method VerifyLogin(login: Bytes, password: Bytes, token: Bytes, now: int) returns (issued: bool, clash: bool)
      modifies this
      ensures var v := VerifyUser(old(Contents()), login, password, token, now);
              && issued == v.Issued? && clash == v.Clash?
              && Contents() == if v.Issued? then v.accounts else old(Contents())
    {
      var ok := VerifyPassword(login, password);
      if !ok {
        return false, false;
      }
      var q := ByLogin(users, login);
      if token in sessions {
        return false, true;
      }
      sessions := sessions[token := TokenRow(q.value.id, now)];
      return true, false;
    }

    method GetLoginByToken(token: Bytes, now: int) returns (r: LoginResult)
      modifies this
      ensures Lookup(Contents(), r) == LoginByToken(old(Contents()), token, now)
    {
      if token !in sessions {
        return Refused(NON_AUTHORIZED);
      }
      var row := sessions[token];
      if now - row.createdAt > TOKEN_TTL {
        sessions := sessions - {token};
        return Refused(TOKEN_EXPIRED);
      }
      var q := ById(users, row.id);
      if q.Some? {
        return LoggedIn(CString(q.value.login));
      }
      return Refused(USER_NOT_FOUND);
    }

    method GetLoginById(id: int) returns (r: Option<Bytes>)
      ensures r == LoginById(users, id)
    {
      var q := ById(users, id);
      if q.Some? {
        return Some(CString(q.value.login));
      }
      return None;
    }

    method DropToken(token: Bytes)
      modifies this
      ensures Contents() == RevokeToken(old(Contents()), token)
    {
      sessions := sessions - {token};
    }

    method CleanExpiredTokens(now: int)
      modifies this
      ensures Contents() == CleanExpired(old(Contents()), now)
    {
      sessions := map t | t in sessions && !(now - sessions[t].createdAt > TOKEN_TTL) :: sessions[t];
    }
  }
}
