/** src/auth.ts: the `authorized` route policy, the credentials provider's
    `authorize`, the provider-linking `signIn` callback and the `session`
    callback. */
module Auth {
  import opened Common
  import opened UserModel
  import opened AuthConfig

  // ---------------------------------------------------------------------------
  // Route policy
  // ---------------------------------------------------------------------------

  /** The sign-in and registration pages. */
  const PublicPaths: seq<string> := ["/authclient/Register", "/authclient/Login"]
  /** The pages that need a session. */
  const PrivatePaths: seq<string> := ["/profile"]

  const ProfilePage := "/profile"
  const LoginPage := "/authclient/Login"

  /** What the callback returns: `true`, or a redirect to `target`. */
  datatype Decision = Allow | Redirect(target: string)

  /** The `authorized` callback, branch for branch: auth pages, then private
      pages, then the exact root, then the default. */
  function Authorized(path: string, loggedIn: bool): (d: Decision)
    ensures d == Allow || d == Redirect(ProfilePage) || d == Redirect(LoginPage)
    ensures d == Redirect(ProfilePage) ==> loggedIn
    ensures d == Redirect(LoginPage) ==> !loggedIn
  {
    if StartsWithAny(path, PublicPaths) then
      (if loggedIn then Redirect(ProfilePage) else Allow)
    else if StartsWithAny(path, PrivatePaths) then
      (if loggedIn then Allow else Redirect(LoginPage))
    else if path == "/" then
      (if loggedIn then Redirect(ProfilePage) else Redirect(LoginPage))
    else Allow
  }

  /** A path under one of the two auth pages. */
  predicate IsAuthPage(path: string)
  {
    "/authclient/Register" <= path || "/authclient/Login" <= path
  }

  /** A path under the profile page. */
  predicate IsProfilePage(path: string)
  {
    "/profile" <= path
  }

  /** The three groups of paths are disjoint: the root is not under an auth
      page nor the profile, and no path is under both an auth page and the
      profile. */
  lemma PathGroupsDisjoint(path: string)
    ensures !(IsAuthPage(path) && IsProfilePage(path))
    ensures path == "/" ==> !IsAuthPage(path) && !IsProfilePage(path)
  {
    if IsProfilePage(path) {
      assert path[1] == 'p';
    }
  }

  /** The prefix lists test exactly the auth pages and the profile. */
  lemma PrefixListsAre(path: string)
    ensures StartsWithAny(path, PublicPaths) <==> IsAuthPage(path)
    ensures StartsWithAny(path, PrivatePaths) <==> IsProfilePage(path)
  {
    if IsAuthPage(path) {
      if "/authclient/Register" <= path {
        assert PublicPaths[0] <= path;
      } else {
        assert PublicPaths[1] <= path;
      }
    }
    if IsProfilePage(path) {
      assert PrivatePaths[0] <= path;
    }
  }

  /** The whole policy in three cases: a logged-in user is sent to the profile
      from the auth pages and the root; an anonymous user is sent to the login
      page from the profile and the root; every other request is allowed. No
      other target is ever produced. */
  lemma AuthorizedCases(path: string, loggedIn: bool)
    ensures Authorized(path, loggedIn) == Redirect(ProfilePage) <==>
              loggedIn && (IsAuthPage(path) || path == "/")
    ensures Authorized(path, loggedIn) == Redirect(LoginPage) <==>
              !loggedIn && (IsProfilePage(path) || path == "/")
    ensures Authorized(path, loggedIn) == Allow <==>
              if loggedIn then !IsAuthPage(path) && path != "/"
              else !IsProfilePage(path) && path != "/"
  {
    PrefixListsAre(path);
    PathGroupsDisjoint(path);
  }

  /** The auth pages: a logged-in user goes to the profile, an anonymous one
      is let through. */
  lemma AuthPagesPolicy(path: string, loggedIn: bool)
    requires "/authclient/Register" <= path || "/authclient/Login" <= path
    ensures Authorized(path, loggedIn) == if loggedIn then Redirect("/profile") else Allow
  {
    AuthorizedCases(path, loggedIn);
    PathGroupsDisjoint(path);
  }

  /** The profile pages: an anonymous user goes to the login page, a logged-in
      one is let through. */
  lemma ProfilePolicy(path: string, loggedIn: bool)
    requires "/profile" <= path
    ensures Authorized(path, loggedIn) == if loggedIn then Allow else Redirect("/authclient/Login")
  {
    AuthorizedCases(path, loggedIn);
    PathGroupsDisjoint(path);
  }

  // ---------------------------------------------------------------------------
  // Credentials sign-in
  // ---------------------------------------------------------------------------

  /** The error `authorize` throws, one per check, in the order checked. */
  datatype AuthError =
    | MissingCredentials
    | UserNotFound
    | FederatedAccount(provider: string)
    | InvalidPassword

  /** The identity `authorize` returns: no password field exists here. */
  datatype PublicUser = PublicUser(id: nat, email: string, name: string, role: Role)

  /** The account is locked to a federated provider: it has a provider and a
      provider id and the provider is not `credentials`. */
  predicate ProviderLocked(a: Account)
    ensures ProviderLocked(a) ==> !PasswordRequired(a) && a.provider != Some("credentials")
    ensures a.provider == Some("credentials") || a.providerId == None ==> !ProviderLocked(a)
  {
    IsOAuthUser(a) && a.provider.value != "credentials"
  }

  /** The credentials provider's `authorize`. `email` and `password` are the
      submitted fields ("" when missing); the lookup loads the password. */
  function Authorize(email: string, password: string, store: Store,
                     compare: (string, string) -> CompareOutcome): (r: Result<PublicUser, AuthError>)
    requires store.Valid()
    reads store
    ensures r == Failure(MissingCredentials) <==> email == "" || password == ""
    ensures r == Failure(UserNotFound) <==>
              email != "" && password != "" && Lower(email) !in store.accounts
    ensures r.Failure? && r.error.FederatedAccount? <==>
              && email != "" && password != "" && Lower(email) in store.accounts
              && ProviderLocked(store.accounts[Lower(email)])
    ensures r.Failure? && r.error.FederatedAccount? ==>
              Some(r.error.provider) == store.accounts[Lower(email)].provider
    ensures r == Failure(InvalidPassword) <==>
              && email != "" && password != "" && Lower(email) in store.accounts
              && !ProviderLocked(store.accounts[Lower(email)])
              && !ComparePassword(store.accounts[Lower(email)], password, compare)
    ensures r.Success? ==>
              var a := store.accounts[Lower(email)];
              && Lower(email) in store.accounts
              && compare(password, a.password.value) == Match
              && r.value == PublicUser(a.id, a.email, a.name, a.role)
  {
    if email == "" || password == "" then
      Failure(MissingCredentials)
    else
      match store.FindOne(email)
      case None => Failure(UserNotFound)
      case Some(a) =>
        if ProviderLocked(a) then Failure(FederatedAccount(a.provider.value))
        else if !ComparePassword(a, password, compare) then Failure(InvalidPassword)
        else Success(PublicUser(a.id, a.email, a.name, a.role))
  }

  /** The lookup ignores ASCII case, so the same credentials typed with a
      different capitalisation of the email get the same answer. */
  lemma AuthorizeIgnoresEmailCase(email: string, password: string, store: Store,
                                  compare: (string, string) -> CompareOutcome)
    requires store.Valid()
    ensures Authorize(email, password, store, compare) == Authorize(Lower(email), password, store, compare)
  {
    LowerIdempotent(email);
    LowerKeepsEmptiness(email);
  }

  /** A federated account is refused before any password is compared: every
      password gets the same answer, naming the provider. */
  lemma FederatedRefusesEveryPassword(email: string, p1: string, p2: string, store: Store,
                                      compare: (string, string) -> CompareOutcome)
    requires store.Valid() && p1 != "" && p2 != ""
    requires Lower(email) in store.accounts && ProviderLocked(store.accounts[Lower(email)])
    ensures Authorize(email, p1, store, compare) == Authorize(email, p2, store, compare)
    ensures Authorize(email, p1, store, compare) ==
              Failure(FederatedAccount(store.accounts[Lower(email)].provider.value))
  {
    LowerKeepsEmptiness(email);
  }

  /** A stored credentials account whose digest was made from `password` by a
      hash the comparison agrees with accepts that password and returns the
      account's public identity. */
  lemma RegisteredPasswordAccepted(email: string, password: string, store: Store,
                                   hash: string -> string, compare: (string, string) -> CompareOutcome)
    requires store.Valid() && HasherAgrees(hash, compare)
    requires password != "" && Lower(email) in store.accounts
    requires store.accounts[Lower(email)].password == Some(hash(password))
    requires hash(password) != ""
    requires !ProviderLocked(store.accounts[Lower(email)])
    ensures var a := store.accounts[Lower(email)];
            Authorize(email, password, store, compare) == Success(PublicUser(a.id, a.email, a.name, a.role))
  {
    LowerKeepsEmptiness(email);
    assert compare(password, hash(password)) == Match;
  }

  // ---------------------------------------------------------------------------
  // Provider linking
  // ---------------------------------------------------------------------------

  /** The `user` object handed to the `signIn` callback; the callback writes
      the stored id and role into it. */
  class SignInUser {
    var email: string
    var name: string
    var id: Option<nat>
    var role: Option<Role>

    constructor (email: string, name: string)
      ensures this.email == email && this.name == name && id == None && role == None
    {
      this.email := email;
      this.name := name;
      id := None;
      role := None;
    }
  }

  /** The `account` argument of a sign-in through a provider. */
  datatype ProviderAccount = ProviderAccount(provider: string, providerAccountId: string)

  /** The stored provider is set, differs from the presented one and is not
      `credentials`: the sign-in is refused. */
  predicate ProviderConflict(stored: Option<string>, presented: string)
    ensures ProviderConflict(stored, presented) ==> stored.Some? && stored != Some(presented)
    ensures stored == Some(presented) || stored == Some("credentials") || stored == None ==>
              !ProviderConflict(stored, presented)
  {
    Truthy(stored) && stored.value != presented && stored.value != "credentials"
  }

  /** The record `User.create` stores for a first sign-in through a provider. */
  function FederatedRecord(id: nat, name: string, email: string, account: ProviderAccount, now: int): (a: Account)
    ensures a.password == None && a.role == User && a.email == Lower(email)
    ensures a.provider == Some(account.provider) && a.providerId == Some(account.providerAccountId)
    ensures IsOAuthUser(a) <==> account.provider != "" && account.providerAccountId != ""
  {
    Account(id, name, Lower(email), None, User, Some(account.providerAccountId), Some(account.provider), now, now)
  }

  /** A record with no password passes validation exactly when it is
      federated: with no provider (or no provider id) the password is
      required. */
  lemma FederatedRecordConforms(id: nat, name: string, email: string, account: ProviderAccount,
                                now: int, isEmail: string -> bool)
    ensures Conforms(FederatedRecord(id, name, email, account, now), true, isEmail) <==>
              && name != "" && email != "" && isEmail(Lower(email))
              && account.provider != "" && account.providerAccountId != ""
  {
    LowerKeepsEmptiness(email);
  }

  /** The `signIn` callback. Any exception (a failed save) is caught and
      turned into `false`. */
  method SignIn(store: Store, user: SignInUser, account: Option<ProviderAccount>, now: int,
                hash: string -> string) returns (ok: bool)
    requires store.Valid()
    modifies store, user
    ensures store.Valid() && user.email == old(user.email) && user.name == old(user.name)
    ensures !ok ==> store.accounts == old(store.accounts) && user.id == old(user.id) && user.role == old(user.role)
    // No email, or an unknown email without a provider account: refused.
    ensures old(user.email) == "" ==> !ok
    ensures Lower(old(user.email)) !in old(store.accounts) && account.None? ==> !ok
    // An unknown email with a provider account: exactly one record is created.
    ensures Lower(old(user.email)) !in old(store.accounts) && account.Some? ==>
              (ok <==> Conforms(FederatedRecord(old(store.nextId), old(user.name), old(user.email), account.value, now),
                                true, store.isEmail))
    ensures Lower(old(user.email)) !in old(store.accounts) && account.Some? && ok ==>
              && store.accounts == old(store.accounts)[Lower(old(user.email)) :=
                   FederatedRecord(old(store.nextId), old(user.name), old(user.email), account.value, now)]
              && user.id == Some(old(store.nextId)) && user.role == Some(User)
    // A known email: refused on a provider conflict, otherwise relinked.
    ensures old(user.email) != "" && Lower(old(user.email)) in old(store.accounts) ==>
              var a := old(store.accounts)[Lower(old(user.email))];
              && (ok <==> account.None? || !ProviderConflict(a.provider, account.value.provider))
              && (account.None? ==> store.accounts == old(store.accounts))
              && (ok && account.Some? ==>
                    store.accounts == old(store.accounts)[Lower(old(user.email)) :=
                      a.(providerId := Some(account.value.providerAccountId),
                         provider := Some(account.value.provider), updatedAt := now)])
              && (ok ==> user.id == Some(a.id) && user.role == Some(a.role))
  {
    if user.email == "" {
      return false;
    }
    var dbUser := store.Load(user.email);
    if dbUser == null {
      if account.None? {
        return false;
      }
      LowerKeepsEmptiness(user.email);
      FederatedRecordConforms(store.nextId, user.name, user.email, account.value, now, store.isEmail);
      dbUser := store.NewDocument(user.name, user.email, None, Some(account.value.providerAccountId),
                                  Some(account.value.provider), now);
      var created := store.Save(dbUser, now, hash);
      if created.Fail? {
        return false;
      }
    }
    if account.Some? {
      if ProviderConflict(dbUser.provider, account.value.provider) {
        return false;
      }
      dbUser.providerId := Some(account.value.providerAccountId);
      dbUser.provider := Some(account.value.provider);
      var saved := store.Save(dbUser, now, hash);
      if saved.Fail? {
        return false;
      }
    }
    user.id := Some(dbUser.id);
    user.role := Some(dbUser.role);
    ok := true;
  }

  /** A first sign-in through a provider other than `credentials` locks the
      account to it: a later credentials sign-in is refused with the
      provider's name, whatever the password. */
  method FederatedThenCredentials(store: Store, user: SignInUser, account: ProviderAccount, now: int,
                                  hash: string -> string, password: string,
                                  compare: (string, string) -> CompareOutcome)
    returns (linked: bool, answer: Result<PublicUser, AuthError>)
    requires store.Valid() && Lower(user.email) !in store.accounts
    requires password != "" && account.provider != "credentials"
    modifies store, user
    ensures linked ==> answer == Failure(FederatedAccount(account.provider))
  {
    linked := SignIn(store, user, Some(account), now, hash);
    answer := Authorize(user.email, password, store, compare);
  }

  // ---------------------------------------------------------------------------
  // Session callback
  // ---------------------------------------------------------------------------

  /** The `session` callback: no session (None, the callback's `null`) when
      the token has neither an email nor a subject; otherwise the user's id
      and role and the session id are copied from the token when the session
      has a user, and the provider when the token's is truthy. */
  method SessionCallback(session: Session, token: Token) returns (result: Option<Session>)
    modifies session
    ensures !ClaimTruthy(token.email) && !ClaimTruthy(token.sub) ==> result == None && unchanged(session)
    ensures ClaimTruthy(token.email) || ClaimTruthy(token.sub) ==> result == Some(session)
    ensures session.hasUser == old(session.hasUser)
    ensures result.Some? && session.hasUser ==>
              session.userId == token.id && session.userRole == token.role && session.sessionId == token.sessionId
    ensures !(result.Some? && session.hasUser) ==>
              session.userId == old(session.userId) && session.userRole == old(session.userRole)
              && session.sessionId == old(session.sessionId)
    ensures session.provider == if result.Some? && ClaimTruthy(token.provider) then token.provider
                                else old(session.provider)
  {
    if !ClaimTruthy(token.email) && !ClaimTruthy(token.sub) {
      return None;
    }
    if session.hasUser {
      session.userId := token.id;
      session.userRole := token.role;
      session.sessionId := token.sessionId;
    }
    if ClaimTruthy(token.provider) {
      session.provider := token.provider;
    }
    result := Some(session);
  }
}
