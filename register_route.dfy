/** src/app/api/register/route.ts: the `POST` handler that registers a
    credentials account and maps each outcome to a status and a body. */
module RegisterRoute {
  import opened Common
  import opened UserModel
  import opened Auth

  /** The JSON body's three fields; "" stands for a missing or falsy value. */
  datatype RegisterBody = RegisterBody(name: string, email: string, password: string)

  /** The user part of a success body: no password field exists here. */
  datatype PublicRecord = PublicRecord(id: nat, email: string, name: string)

  datatype Body =
    | Registered(message: string, user: PublicRecord)
    | ErrorBody(error: string)

  datatype Response = Response(status: int, body: Body)

  const MissingFields := Response(400, ErrorBody("Missing required fields"))
  const UserExists := Response(400, ErrorBody("User already exists"))
  const EmailInUse := Response(400, ErrorBody("Email already in use"))
  const ServerError := Response(500, ErrorBody("Internal server error"))

  /** The record a successful registration stores: lower-cased email, hashed
      password, default role, no provider, both timestamps now. */
  function RegisteredRecord(id: nat, body: RegisterBody, now: int, hash: string -> string): (a: Account)
    ensures a.email == Lower(body.email) && a.name == body.name && a.password == Some(hash(body.password))
    ensures a.role == User && a.provider == None && a.providerId == None && !IsOAuthUser(a)
  {
    Account(id, body.name, Lower(body.email), Some(hash(body.password)), User, None, None, now, now)
  }

  /** The new document passes the schema exactly when the email passes the
      email validator and the password's JavaScript length is at least 8 (the fields
      are known to be present). */
  lemma NewAccountConforms(id: nat, body: RegisterBody, now: int, isEmail: string -> bool)
    requires body.name != "" && body.email != "" && body.password != ""
    ensures Conforms(Account(id, body.name, Lower(body.email), Some(body.password), User, None, None, now, now),
                     true, isEmail) <==>
              isEmail(Lower(body.email)) && Utf16Length(body.password) >= MinPasswordLength
  {
    LowerKeepsEmptiness(body.email);
  }

  /** `POST /api/register`. `racer` is another registration whose insert the
      database applies between this request's existence check and its own
      insert; the unique index is what settles that race. Every exception
      becomes a 500 except the duplicate-key error, which becomes a 400. */
  method Post(store: Store, body: RegisterBody, now: int, hash: string -> string,
              racer: Option<RegisterBody>) returns (resp: Response)
    requires store.Valid()
    modifies store
    ensures store.Valid()
    // Missing fields: refused before the store is read.
    ensures body.name == "" || body.email == "" || body.password == "" ==>
              resp == MissingFields && store.accounts == old(store.accounts) && store.nextId == old(store.nextId)
    // Known email: refused, the store unchanged.
    ensures body.name != "" && body.email != "" && body.password != "" && Lower(body.email) in old(store.accounts) ==>
              resp == UserExists && store.accounts == old(store.accounts) && store.nextId == old(store.nextId)
    // New email, no concurrent insert: one record added, or a 500 on a validation failure.
    ensures && body.name != "" && body.email != "" && body.password != ""
            && Lower(body.email) !in old(store.accounts) && racer.None? ==>
              if EmailAccepted(store, body) && Utf16Length(body.password) >= MinPasswordLength then
                && resp == Response(201, Registered("User registered successfully",
                                                    PublicRecord(old(store.nextId), Lower(body.email), body.name)))
                && store.accounts == old(store.accounts)[Lower(body.email) :=
                                       RegisteredRecord(old(store.nextId), body, now, hash)]
              else
                resp == ServerError && store.accounts == old(store.accounts)
    // New email, a concurrent insert: a body the schema refuses is a 500 whatever
    // the racer did; otherwise this insert hits the unique index exactly when the
    // racer stored a valid record under the same email.
    ensures && body.name != "" && body.email != "" && body.password != ""
            && Lower(body.email) !in old(store.accounts) && racer.Some? ==>
              if !(EmailAccepted(store, body) && Utf16Length(body.password) >= MinPasswordLength) then
                resp == ServerError
              else if RacerTakesEmail(body, racer.value) then
                && resp == EmailInUse
                && store.accounts == old(store.accounts)[Lower(body.email) :=
                                       RegisteredRecord(old(store.nextId), racer.value, now, hash)]
              else
                resp.status == 201
    // Whatever happened concurrently: a 201 means this body's record is stored.
    ensures resp.status == 201 ==>
              && resp.body.Registered?
              && resp.body == Registered("User registered successfully",
                                         PublicRecord(resp.body.user.id, Lower(body.email), body.name))
              && Lower(body.email) in store.accounts
              && store.accounts[Lower(body.email)] == RegisteredRecord(resp.body.user.id, body, now, hash)
    // The duplicate-key mapping is reached only through a concurrent insert of the same email.
    ensures resp == EmailInUse ==> racer.Some? && Lower(racer.value.email) == Lower(body.email)
    ensures resp.status in {201, 400, 500}
  {
    if body.name == "" || body.email == "" || body.password == "" {
      return MissingFields;
    }
    if store.FindOne(body.email).Some? {
      return UserExists;
    }
    if racer.Some? {
      if RacerTakesEmail(body, racer.value) {
        LowerKeepsEmptiness(body.email);
        LowerKeepsEmptiness(racer.value.email);
        NewAccountConforms(store.nextId, racer.value, now, store.isEmail);
      }
      var other := store.NewDocument(racer.value.name, racer.value.email, Some(racer.value.password), None, None, now);
      var _ := store.Save(other, now, hash);
    }
    NewAccountConforms(store.nextId, body, now, store.isEmail);
    var user := store.NewDocument(body.name, body.email, Some(body.password), None, None, now);
    var saved := store.Save(user, now, hash);
    if saved.Fail? {
      if saved.error == DuplicateKey {
        return EmailInUse;
      }
      return ServerError;
    }
    resp := Response(201, Registered("User registered successfully", PublicRecord(user.id, user.email, user.name)));
  }

  /** A concurrent registration `other` that the schema accepts and whose
      email is this body's, up to ASCII case (the validator's verdict on the
      shared lower-cased email is the body's own). */
  predicate RacerTakesEmail(body: RegisterBody, other: RegisterBody)
  {
    && Lower(other.email) == Lower(body.email)
    && other.name != ""
    && Utf16Length(other.password) >= MinPasswordLength
  }

  /** The store's email validator accepts the lower-cased email. */
  predicate EmailAccepted(store: Store, body: RegisterBody)
    reads store
  {
    store.isEmail(Lower(body.email))
  }

  /** After a successful registration, registering the same email again (with
      any name and password) is refused with 400. */
  method RegisterTwice(store: Store, first: RegisterBody, second: RegisterBody, now1: int, now2: int,
                       hash: string -> string) returns (r1: Response, r2: Response)
    requires store.Valid()
    requires Lower(second.email) == Lower(first.email)
    requires second.name != "" && second.email != "" && second.password != ""
    modifies store
    ensures r1.status == 201 ==> r2 == UserExists
  {
    r1 := Post(store, first, now1, hash, None);
    r2 := Post(store, second, now2, hash, None);
  }

  /** A successful registration can be signed into with the same email and
      password, and the answer is the identity the registration reported. */
  method RegisterThenAuthorize(store: Store, body: RegisterBody, now: int, hash: string -> string,
                               compare: (string, string) -> CompareOutcome)
    returns (resp: Response, answer: Result<PublicUser, AuthError>)
    requires store.Valid() && HasherAgrees(hash, compare) && DigestsLongEnough(hash)
    modifies store
    ensures resp.status == 201 && resp.body.Registered? ==>
              answer == Success(PublicUser(resp.body.user.id, Lower(body.email), body.name, User))
  {
    resp := Post(store, body, now, hash, None);
    if resp.status == 201 {
      assert |hash(body.password)| >= MinPasswordLength;
      LowerKeepsEmptiness(body.email);
      RegisteredPasswordAccepted(body.email, body.password, store, hash, compare);
    }
    answer := Authorize(body.email, body.password, store, compare);
  }
}
