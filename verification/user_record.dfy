/**
 * The user record of the document store: read accessors with their
 * defaults, password checking, the profile-update map, and the two ways a
 * user document is created, each refusing an email already stored.
 */
module UserRecord {
  import opened Basics
  import opened Words
  import opened OrderedDict
  import opened Passwords

  /**
   * A user document. Every key may be missing from a stored document;
   * `id` is filled in by the store on insertion, timestamps are clock readings.
   */
  datatype UserDoc = UserDoc(
    id: Option<nat>,
    name: Option<string>,
    email: Option<string>,
    username: Option<string>,
    password: Option<PasswordHash>,
    isAdmin: Option<bool>,
    isBlocked: Option<bool>,
    apiKey: Option<string>,
    lastActivity: Option<nat>,
    createdAt: Option<nat>)

  /** The error Python raises when the email is missing and `split` is called on it. */
  const NoEmail: string := "'NoneType' object has no attribute 'split'"
  const EmailExists: string := "Email already exists"
  const EmailRegistered: string := "Email already registered"

  /** `is_blocked`: a document without the flag is not blocked. */
  function IsBlocked(d: UserDoc): (blocked: bool)
    ensures blocked <==> d.isBlocked == Some(true)
  {
    d.isBlocked.GetOr(false)
  }

  /** `is_admin`: a document without the flag is not an admin. */
  function IsAdmin(d: UserDoc): (admin: bool)
    ensures admin <==> d.isAdmin == Some(true)
  {
    d.isAdmin.GetOr(false)
  }

  /** `is_active`: a user can log in unless blocked; a document without the flag is active. */
  function IsActive(d: UserDoc): (active: bool)
    ensures active <==> d.isBlocked != Some(true)
  {
    !IsBlocked(d)
  }

  /** The part of an email before its first `@` (the whole email when it has none). */
  function LocalPart(email: string): (r: string)
    ensures '@' !in r
    ensures |r| <= |email| && r == email[..|r|]
    ensures |r| < |email| ==> email[|r|] == '@'
  {
    SplitHead(email, '@');
    Split(email, '@')[0]
  }

  /**
   * The display name: the stored username, else the email's local part. The
   * fallback is computed before the lookup, so a document without an email
   * fails even when it has a username.
   */
  function Username(d: UserDoc): (r: Result<string>)
    ensures r.Err? <==> d.email.None?
    ensures r.Err? ==> r.message == NoEmail
    ensures r.Ok? && d.username.Some? ==> r.value == d.username.value
    ensures r.Ok? && d.username.None? ==> r.value == LocalPart(d.email.value)
  {
    match d.email
    case None => Err(NoEmail)
    case Some(e) =>
      var fallback := LocalPart(e);
      Ok(d.username.GetOr(fallback))
  }

  /** A document without a stored hash accepts no password. */
  function CheckPassword(d: UserDoc, password: string): (ok: bool)
    ensures ok <==> d.password.Some? && CheckPasswordHash(d.password.value, password)
  {
    match d.password
    case None => false
    case Some(h) => CheckPasswordHash(h, password)
  }

  datatype ProfileValue = Text(text: string) | Hash(hash: PasswordHash)

  /**
   * The changes a profile update asks for: exactly the fields given as
   * non-empty text, each with its new value, the password hashed.
   */
  function UpdateProfile(username: Option<string>, email: Option<string>, password: Option<string>): (updates: Dict<string, ProfileValue>)
    ensures "username" in Keys(updates) <==> Truthy(username)
    ensures "email" in Keys(updates) <==> Truthy(email)
    ensures "password" in Keys(updates) <==> Truthy(password)
    ensures Truthy(username) ==> Get(updates, "username") == Some(Text(username.value))
    ensures Truthy(email) ==> Get(updates, "email") == Some(Text(email.value))
    ensures Truthy(password) ==> Get(updates, "password") == Some(Hash(GeneratePasswordHash(password.value)))
    ensures Keys(updates) <= {"username", "email", "password"}
  {
    var u1: Dict<string, ProfileValue> := if Truthy(username) then Put([], "username", Text(username.value)) else [];
    var u2 := if Truthy(email) then Put(u1, "email", Text(email.value)) else u1;
    var u3 := if Truthy(password) then Put(u2, "password", Hash(GeneratePasswordHash(password.value))) else u2;
    ProfileSteps(username, email, password, u1, u2, u3);
    u3
  }

  /** What each of the three conditional insertions of `UpdateProfile` adds. */
  lemma ProfileSteps(username: Option<string>, email: Option<string>, password: Option<string>,
                     u1: Dict<string, ProfileValue>, u2: Dict<string, ProfileValue>, u3: Dict<string, ProfileValue>)
    requires u1 == if Truthy(username) then Put([], "username", Text(username.value)) else []
    requires u2 == if Truthy(email) then Put(u1, "email", Text(email.value)) else u1
    requires u3 == if Truthy(password) then Put(u2, "password", Hash(GeneratePasswordHash(password.value))) else u2
    ensures "username" in Keys(u3) <==> Truthy(username)
    ensures "email" in Keys(u3) <==> Truthy(email)
    ensures "password" in Keys(u3) <==> Truthy(password)
    ensures Truthy(username) ==> Get(u3, "username") == Some(Text(username.value))
    ensures Truthy(email) ==> Get(u3, "email") == Some(Text(email.value))
    ensures Truthy(password) ==> Get(u3, "password") == Some(Hash(GeneratePasswordHash(password.value)))
    ensures Keys(u3) <= {"username", "email", "password"}
  {
    var u0: Dict<string, ProfileValue> := [];
    if Truthy(username) {
      PutKeys(u0, "username", Text(username.value));
      PutGet(u0, "username", Text(username.value));
    }
    if Truthy(email) {
      PutKeys(u1, "email", Text(email.value));
      PutGet(u1, "email", Text(email.value));
      PutGetOther(u1, "email", Text(email.value), "username");
    }
    if Truthy(password) {
      PutKeys(u2, "password", Hash(GeneratePasswordHash(password.value)));
      PutGet(u2, "password", Hash(GeneratePasswordHash(password.value)));
      PutGetOther(u2, "password", Hash(GeneratePasswordHash(password.value)), "username");
      PutGetOther(u2, "password", Hash(GeneratePasswordHash(password.value)), "email");
    }
  }

  /** The document a new user starts as, before the store gives it an id. */
  function NewUserDoc(name: string, email: string, password: string, isAdmin: bool, now: nat): (d: UserDoc)
    ensures d.id.None? && d.name == Some(name) && d.email == Some(email) && d.username.None?
    ensures !IsBlocked(d) && IsAdmin(d) == isAdmin
    ensures d.apiKey.None? && d.lastActivity.None? && d.createdAt == Some(now)
    ensures forall attempt :: CheckPassword(d, attempt) <==> attempt == password
  {
    UserDoc(None, Some(name), Some(email), None, Some(GeneratePasswordHash(password)),
            Some(isAdmin), Some(false), None, None, Some(now))
  }

  /**
   * A new document is active and not blocked, has no API key and no recorded
   * activity, accepts exactly its password, and is named by its email's
   * local part.
   */
  lemma NewUserDefaults(name: string, email: string, password: string, isAdmin: bool, now: nat, id: nat, attempt: string)
    ensures var d := NewUserDoc(name, email, password, isAdmin, now).(id := Some(id));
      && IsActive(d) && !IsBlocked(d) && IsAdmin(d) == isAdmin
      && d.apiKey.None? && d.lastActivity.None?
      && (CheckPassword(d, attempt) <==> attempt == password)
      && Username(d) == Ok(LocalPart(email))
  {
  }

  /** The email's stored documents: the result of `find_one({"email": email})` is a document of this set. */
  predicate EmailStored(docs: seq<UserDoc>, email: string) {
    exists i :: 0 <= i < |docs| && docs[i].email == Some(email)
  }

  /** The users collection: documents in insertion order; ids come from a counter. */
  class UserCollection {
    var docs: seq<UserDoc>
    var nextId: nat

    /** Ids are assigned, distinct and below the counter; no two documents share an email. */
    ghost predicate Valid()
      reads this
    {
      && (forall i :: 0 <= i < |docs| ==> docs[i].id.Some? && docs[i].id.value < nextId)
      && (forall i, j :: 0 <= i < j < |docs| ==> docs[i].id != docs[j].id)
      && (forall i, j :: 0 <= i < j < |docs| && docs[i].email.Some? ==> docs[i].email != docs[j].email)
    }

    constructor ()
      ensures Valid() && docs == [] && nextId == 0
    {
      docs := [];
      nextId := 0;
    }

    /** Stores `d` under a fresh id and returns the stored document. */
    method Insert(d: UserDoc) returns (stored: UserDoc)
      requires Valid()
      requires d.email.None? || !EmailStored(docs, d.email.value)
      modifies this
      ensures Valid()
      ensures stored == d.(id := Some(old(nextId)))
      ensures docs == old(docs) + [stored] && nextId == old(nextId) + 1
    {
      stored := d.(id := Some(nextId));
      docs := docs + [stored];
      nextId := nextId + 1;
    }

    /** `create_user`: refuses a stored email, otherwise inserts a new user document. */
    method CreateUser(name: string, email: string, password: string, now: nat, isAdmin: bool := false)
      returns (r: Result<UserDoc>)
      requires Valid()
      modifies this
      ensures Valid()
      ensures EmailStored(old(docs), email) ==> r == Err(EmailExists) && docs == old(docs)
      ensures !EmailStored(old(docs), email) ==>
        && r == Ok(NewUserDoc(name, email, password, isAdmin, now).(id := Some(old(nextId))))
        && docs == old(docs) + [r.value]
    {
      if EmailStored(docs, email) {
        return Err(EmailExists);
      }
      var stored := Insert(NewUserDoc(name, email, password, isAdmin, now));
      r := Ok(stored);
    }

    /** `create_admin_user`: as `create_user` with the admin flag set, reporting a stored email as a message. */
    method CreateAdminUser(email: string, password: string, name: string, now: nat)
      returns (user: Option<UserDoc>, error: Option<string>)
      requires Valid()
      modifies this
      ensures Valid()
      ensures EmailStored(old(docs), email) ==>
        user == None && error == Some(EmailRegistered) && docs == old(docs)
      ensures !EmailStored(old(docs), email) ==>
        && user == Some(NewUserDoc(name, email, password, true, now).(id := Some(old(nextId))))
        && error == None
        && docs == old(docs) + [user.value]
    {
      if EmailStored(docs, email) {
        return None, Some(EmailRegistered);
      }
      var stored := Insert(NewUserDoc(name, email, password, true, now));
      user, error := Some(stored), None;
    }
  }
}
