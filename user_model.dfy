/** The user account schema of src/models/authentication/authModel.ts: the
    record, the schema's validation rules, the document object with its
    pre-save hook, `isOAuthUser`, `comparePassword`, and the collection the
    documents are saved to (unique on email). */
module UserModel {
  import opened Common

  /** The `role` enum of the schema; `User` is its default. */
  datatype Role = Admin | User

  /** One stored user record. `name` and `email` use "" for a missing value;
      `password`, `providerId` and `provider` use None for null. */
  datatype Account = Account(
    id: nat,
    name: string,
    email: string,
    password: Option<string>,
    role: Role,
    providerId: Option<string>,
    provider: Option<string>,
    createdAt: int,
    updatedAt: int)

  const MinPasswordLength := 8

  /** `isOAuthUser`: both the provider and the provider-assigned id are truthy. */
  predicate IsOAuthUser(a: Account)
    ensures IsOAuthUser(a) ==> a.providerId.Some? && a.provider.Some? && a.providerId.value != "" && a.provider.value != ""
  {
    Truthy(a.providerId) && Truthy(a.provider)
  }

  /** The `required` function of the password path: a password is needed unless
      the account is federated. It is written separately from `isOAuthUser` in
      the schema; the contract says the two agree. */
  function PasswordRequired(a: Account): (required: bool)
    ensures required <==> !IsOAuthUser(a)
    ensures !Truthy(a.provider) ==> required
    ensures !Truthy(a.providerId) ==> required
  {
    var isOAuth := Truthy(a.providerId) && Truthy(a.provider);
    !isOAuth
  }

  /** The password path's validators: `required` (a string validator, so ""
      fails it) and `minlength: 8` on any value that is present, counted in
      UTF-16 code units as JavaScript's `.length` does. */
  predicate PasswordConforms(a: Account)
    ensures PasswordConforms(a) && !IsOAuthUser(a) ==> a.password.Some? && |a.password.value| >= 1
    ensures a.password.Some? && Utf16Length(a.password.value) < MinPasswordLength ==> !PasswordConforms(a)
    ensures a.password.None? ==> (PasswordConforms(a) <==> IsOAuthUser(a))
  {
    && (PasswordRequired(a) ==> Truthy(a.password))
    && (a.password.Some? ==> Utf16Length(a.password.value) >= MinPasswordLength)
  }

  /** Schema validation run by `save()` before the pre-save hook. The name and
      email paths are required and always checked; the password path is checked
      only when `checkPassword` holds, i.e. the document is new or the password
      was loaded or modified (a path that was neither selected nor modified is
      not validated). `isEmail` is the schema's email validator. */
  predicate Conforms(a: Account, checkPassword: bool, isEmail: string -> bool)
    ensures Conforms(a, checkPassword, isEmail) ==> a.name != "" && a.email != "" && isEmail(a.email)
    ensures Conforms(a, checkPassword, isEmail) && checkPassword && !IsOAuthUser(a) ==>
              a.password.Some? && Utf16Length(a.password.value) >= MinPasswordLength
  {
    && a.name != ""
    && a.email != ""
    && isEmail(a.email)
    && (checkPassword ==> PasswordConforms(a))
  }

  /** What a stored record at key `key` satisfies: it sits under its own
      email, which is lower-case, and it passed the name and email validators. */
  predicate Stored(key: string, a: Account, isEmail: string -> bool)
  {
    && a.email == key
    && Lower(key) == key
    && a.name != ""
    && key != ""
    && isEmail(key)
  }

  /** The result of the hashing library's `compare`, which may throw on a
      malformed digest. */
  datatype CompareOutcome = Match | Mismatch | Threw

  /** `comparePassword`: false when no password is stored, false when the
      comparison throws, and otherwise the comparison's verdict. Being a total
      function it never throws. */
  function ComparePassword(a: Account, candidate: string, compare: (string, string) -> CompareOutcome): (matched: bool)
    ensures matched ==> Truthy(a.password) && compare(candidate, a.password.value) == Match
    ensures Truthy(a.password) && compare(candidate, a.password.value) == Match ==> matched
    ensures !Truthy(a.password) ==> !matched
  {
    if !Truthy(a.password) then
      false
    else
      match compare(candidate, a.password.value)
      case Match => true
      case Mismatch => false
      case Threw => false
  }

  /** A hash function and a comparison that agree: every plaintext matches its
      own digest. */
  ghost predicate HasherAgrees(hash: string -> string, compare: (string, string) -> CompareOutcome)
  {
    forall p :: compare(p, hash(p)) == Match
  }

  /** A hydrated document: the record's fields plus the document state the ODM
      keeps (new or loaded, password modified, password selected). */
  class UserDocument {
    var id: nat
    var name: string
    var email: string
    var password: Option<string>
    var role: Role
    var providerId: Option<string>
    var provider: Option<string>
    var createdAt: int
    var updatedAt: int
    var isNew: bool
    var passwordModified: bool
    var passwordSelected: bool

    /** The `lowercase` setter keeps the email lower-case. */
    ghost predicate Valid()
      reads this
    {
      Lower(email) == email
    }

    function Snapshot(): Account
      reads this
    {
      Account(id, name, email, password, role, providerId, provider, createdAt, updatedAt)
    }

    /** `new User({...})`: the email goes through the lowercase setter, the
        role defaults to `user`, an omitted provider or providerId (None)
        defaults to null, and both timestamps default to now. A password given
        here counts as modified. */
    constructor (id: nat, name: string, email: string, password: Option<string>,
                 providerId: Option<string>, provider: Option<string>, now: int)
      ensures Valid()
      ensures Snapshot() == Account(id, name, Lower(email), password, User, providerId, provider, now, now)
      ensures isNew && passwordSelected && passwordModified == password.Some?
    {
      LowerIdempotent(email);
      this.id := id;
      this.name := name;
      this.email := Lower(email);
      this.password := password;
      this.role := User;
      this.providerId := providerId;
      this.provider := provider;
      this.createdAt := now;
      this.updatedAt := now;
      this.isNew := true;
      this.passwordSelected := true;
      this.passwordModified := password.Some?;
    }

    /** The `pre('save')` hook: hash the password only when it was modified and
        is non-empty, and set `updatedAt` to now. Nothing else changes. */
    method PreSave(now: int, hash: string -> string)
      requires Valid()
      modifies this
      ensures Valid()
      ensures password == if old(passwordModified) && Truthy(old(password))
                          then Some(hash(old(password).value)) else old(password)
      ensures updatedAt == now
      ensures Snapshot() == old(Snapshot()).(password := password, updatedAt := now)
      ensures isNew == old(isNew) && passwordModified == old(passwordModified)
      ensures passwordSelected == old(passwordSelected)
    {
      if passwordModified && Truthy(password) {
        password := Some(hash(password.value));
      }
      updatedAt := now;
    }
  }

  /** Why `save()` rejects a document: a validator failed, or the unique index
      on email already holds the key (error code 11000). */
  datatype SaveError = ValidationFailed | DuplicateKey

  /** The users collection: records keyed by their (lower-case) email, so the
      unique index holds by construction, and the generator of document ids. */
  class Store {
    const isEmail: string -> bool
    var accounts: map<string, Account>
    var nextId: nat

    ghost predicate Valid()
      reads this
    {
      forall k | k in accounts :: Stored(k, accounts[k], isEmail)
    }

    constructor (isEmail: string -> bool)
      ensures Valid()
      ensures this.isEmail == isEmail && accounts == map[] && nextId == 0
    {
      this.isEmail := isEmail;
      accounts := map[];
      nextId := 0;
    }

    /** `findOne({ email })`: the query value goes through the same lowercase
        setter, so the lookup ignores ASCII case. */
    function FindOne(email: string): (found: Option<Account>)
      requires Valid()
      reads this
      ensures found.Some? ==> found.value.email == Lower(email) && found.value in accounts.Values
      ensures found.None? ==> forall k | k in accounts :: accounts[k].email != Lower(email)
    {
      if Lower(email) in accounts then Some(accounts[Lower(email)]) else None
    }

    /** `new User({...})` with a fresh document id. */
    method NewDocument(name: string, email: string, password: Option<string>,
                       providerId: Option<string>, provider: Option<string>, now: int)
      returns (doc: UserDocument)
      modifies this
      ensures fresh(doc) && doc.Valid()
      ensures doc.Snapshot() == Account(old(nextId), name, Lower(email), password, User, providerId, provider, now, now)
      ensures doc.isNew && doc.passwordSelected && doc.passwordModified == password.Some?
      ensures accounts == old(accounts) && nextId == old(nextId) + 1
    {
      doc := new UserDocument(nextId, name, email, password, providerId, provider, now);
      nextId := nextId + 1;
    }

    /** `findOne({ email })` returning a document. The password path has
        `select: false`, so the document holds no password. */
    method Load(email: string) returns (doc: UserDocument?)
      requires Valid()
      ensures doc == null <==> Lower(email) !in accounts
      ensures doc != null ==> fresh(doc) && doc.Valid() && !doc.isNew
      ensures doc != null ==> doc.Snapshot() == accounts[Lower(email)].(password := None)
      ensures doc != null ==> !doc.passwordModified && !doc.passwordSelected
    {
      var key := Lower(email);
      if key !in accounts {
        return null;
      }
      var a := accounts[key];
      doc := new UserDocument(a.id, a.name, a.email, None, a.providerId, a.provider, a.createdAt);
      doc.role := a.role;
      doc.updatedAt := a.updatedAt;
      doc.isNew := false;
      doc.passwordSelected := false;
    }

    /** `doc.save()`: validate, run the pre-save hook, then insert a new
        document (refused by the unique index when the email is taken) or
        write a loaded one back. An update writes the password only when it
        was modified; every other field is written from the document. */
    method Save(doc: UserDocument, now: int, hash: string -> string) returns (r: Outcome<SaveError>)
      requires Valid() && doc.Valid()
      requires !doc.isNew ==> doc.email in accounts && accounts[doc.email].id == doc.id
      modifies this, doc
      ensures Valid() && doc.Valid() && nextId == old(nextId)
      ensures r.Fail? <==>
                || !Conforms(old(doc.Snapshot()), old(doc.isNew || doc.passwordSelected || doc.passwordModified), isEmail)
                || (old(doc.isNew) && old(doc.email) in old(accounts))
      ensures r.Fail? ==> (r.error == ValidationFailed <==>
                !Conforms(old(doc.Snapshot()), old(doc.isNew || doc.passwordSelected || doc.passwordModified), isEmail))
      ensures r.Fail? ==> accounts == old(accounts)
      ensures r == Fail(ValidationFailed) ==> doc.Snapshot() == old(doc.Snapshot())
      ensures r.Pass? ==>
                && doc.password == (if old(doc.passwordModified) && Truthy(old(doc.password))
                                    then Some(hash(old(doc.password).value)) else old(doc.password))
                && doc.Snapshot() == old(doc.Snapshot()).(password := doc.password, updatedAt := now)
                && !doc.isNew && !doc.passwordModified
                && doc.passwordSelected == old(doc.isNew || doc.passwordSelected)
      ensures r.Pass? && old(doc.isNew) ==>
                accounts == old(accounts)[doc.email := doc.Snapshot()]
      ensures r.Pass? && !old(doc.isNew) ==>
                accounts == old(accounts)[doc.email := doc.Snapshot().(password :=
                  if old(doc.passwordModified) then doc.password else old(accounts)[doc.email].password)]
    {
      var checkPassword := doc.isNew || doc.passwordSelected || doc.passwordModified;
      if !Conforms(doc.Snapshot(), checkPassword, isEmail) {
        return Fail(ValidationFailed);
      }
      var wasModified := doc.passwordModified;
      doc.PreSave(now, hash);
      if doc.isNew {
        if doc.email in accounts {
          return Fail(DuplicateKey);
        }
        accounts := accounts[doc.email := doc.Snapshot()];
        doc.isNew := false;
        doc.passwordSelected := true;
      } else {
        var stored := accounts[doc.email];
        accounts := accounts[doc.email := doc.Snapshot().(password := if wasModified then doc.password else stored.password)];
      }
      doc.passwordModified := false;
      r := Pass;
    }
  }

  /** The hashing library's digests are never shorter than the password
      minimum (bcrypt digests are 60 characters), so a stored digest passes
      the `minlength` validator when the document is saved again. */
  ghost predicate DigestsLongEnough(hash: string -> string)
  {
    forall p :: |hash(p)| >= MinPasswordLength
  }

  /** Saving a document twice without touching its password in between hashes
      at most once: the second save succeeds and leaves the stored password as
      the first save left it. */
  method SaveTwice(store: Store, doc: UserDocument, now1: int, now2: int, hash: string -> string)
    returns (first: Outcome<SaveError>, second: Outcome<SaveError>)
    requires store.Valid() && doc.Valid() && DigestsLongEnough(hash)
    requires !doc.isNew ==> doc.email in store.accounts && store.accounts[doc.email].id == doc.id
    modifies store, doc
    ensures first.Pass? ==> second.Pass?
    ensures first.Pass? ==> doc.email == old(doc.email) && doc.email in store.accounts
    ensures first.Pass? && old(doc.isNew) ==>
              store.accounts[doc.email].password ==
                (if old(doc.passwordModified) && Truthy(old(doc.password))
                 then Some(hash(old(doc.password).value)) else old(doc.password))
    ensures first.Pass? && !old(doc.isNew) && !old(doc.passwordModified) ==>
              store.accounts[doc.email].password == old(store.accounts[doc.email].password)
  {
    ghost var before := doc.Snapshot();
    first := store.Save(doc, now1, hash);
    if first.Pass? {
      if doc.password != before.password {
        assert |hash(before.password.value)| >= MinPasswordLength;
      }
      second := store.Save(doc, now2, hash);
    } else {
      second := first;
    }
  }
}
