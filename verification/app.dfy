/**
 * The web application's own logic: the user table kept in a JSON file
 * (register, login, profile update, user deletion, admin creation) and the
 * chat route that routes a message to image or text generation and records
 * the exchange.
 */
module App {
  import opened Basics
  import opened Text
  import opened OrderedDict
  import opened Passwords
  import opened ChatHistory
  import opened ImageGen

  // ---------------------------------------------------------------- users

  /** One entry of the users file; `isAdmin` is absent for users who registered themselves. */
  datatype UserEntry = UserEntry(username: string, email: string, password: PasswordHash, isAdmin: Option<bool>)

  /** `user_data.get('is_admin', False)`. */
  predicate EntryIsAdmin(e: UserEntry) {
    e.isAdmin.GetOr(false)
  }

  datatype RegisterOutcome = Registered(userId: string) | UsernameExists
  datatype LoginOutcome = LoggedIn(userId: string, isAdmin: bool) | AdminDenied | InvalidCredentials
  datatype JsonStatus = Success | Failure(message: string)
  datatype CreateAdminOutcome = AdminCreated(userId: string) | FieldsRequired

  const UserNotFound: string := "User not found"

  predicate UsernameTaken(users: Dict<string, UserEntry>, username: string) {
    exists i :: 0 <= i < |users| && users[i].1.username == username
  }

  /** The key the code stores a new user under: `str(len(users) + 1)`. */
  function NewUserId(users: Dict<string, UserEntry>): string {
    NatToString(|users| + 1)
  }

  /** The position of the first user, in file order, with this username. */
  function FirstWithUsername(users: Dict<string, UserEntry>, username: string): (r: Option<nat>)
    ensures r.Some? ==> r.value < |users| && users[r.value].1.username == username
    ensures r.Some? ==> forall k :: 0 <= k < r.value ==> users[k].1.username != username
    ensures r.None? ==> forall k :: 0 <= k < |users| ==> users[k].1.username != username
  {
    if users == [] then None
    else if users[0].1.username == username then Some(0)
    else match FirstWithUsername(users[1..], username)
      case None => None
      case Some(i) => Some(i + 1)
  }

  /** Position `i` holds the first user, in file order, with this username. */
  predicate FirstMatchAt(users: Dict<string, UserEntry>, username: string, i: int) {
    0 <= i < |users| && users[i].1.username == username
    && forall k :: 0 <= k < i ==> users[k].1.username != username
  }

  /** The entry `e` is the one a successful login `r` names. */
  predicate LoginMatch(e: (string, UserEntry), r: LoginOutcome, username: string, password: string)
    requires r.LoggedIn?
  {
    e.0 == r.userId && e.1.username == username && CheckPasswordHash(e.1.password, password)
    && r.isAdmin == EntryIsAdmin(e.1)
  }

  /**
   * What `login` decides: the first user with the username must have that
   * password, and an admin-type login must be by an admin.
   */
  function LoginResult(users: Dict<string, UserEntry>, username: string, password: string, loginType: string): (r: LoginOutcome)
    ensures r.LoggedIn? ==> (exists i :: 0 <= i < |users| && LoginMatch(users[i], r, username, password))
    ensures r.LoggedIn? && loginType == "admin" ==> r.isAdmin
    ensures r.AdminDenied? ==> loginType == "admin"
    ensures !UsernameTaken(users, username) ==> r == InvalidCredentials
    ensures r.LoggedIn? ==>
      FirstWithUsername(users, username).Some? && users[FirstWithUsername(users, username).value].0 == r.userId
    ensures forall i :: FirstMatchAt(users, username, i) && !CheckPasswordHash(users[i].1.password, password) ==>
      r == InvalidCredentials
    ensures forall i :: (FirstMatchAt(users, username, i) && CheckPasswordHash(users[i].1.password, password) ==>
      r == if loginType == "admin" && !EntryIsAdmin(users[i].1) then AdminDenied else LoggedIn(users[i].0, EntryIsAdmin(users[i].1)))
  {
    match FirstWithUsername(users, username)
    case None => InvalidCredentials
    case Some(i) =>
      var entry := users[i].1;
      if !CheckPasswordHash(entry.password, password) then InvalidCredentials
      else if loginType == "admin" && !EntryIsAdmin(entry) then AdminDenied
      else LoggedIn(users[i].0, EntryIsAdmin(entry))
  }

  /** The profile fields after an update: each field given truthy replaces the stored one. */
  function ApplyProfile(e: UserEntry, username: Option<string>, email: Option<string>, newPassword: Option<string>): (r: UserEntry)
    ensures r.username == if Truthy(username) then username.value else e.username
    ensures r.email == if Truthy(email) then email.value else e.email
    ensures r.password == if Truthy(newPassword) then GeneratePasswordHash(newPassword.value) else e.password
    ensures r.isAdmin == e.isAdmin
  {
    var e1 := if Truthy(username) then e.(username := username.value) else e;
    var e2 := if Truthy(email) then e1.(email := email.value) else e1;
    if Truthy(newPassword) then e2.(password := GeneratePasswordHash(newPassword.value)) else e2
  }

  /**
   * A new id can name a user that already exists: once user "1" of two has
   * been deleted, the next registration gets id "2" and replaces user "2"
   * instead of adding a user.
   */
  lemma RegisterAfterDeleteOverwrites(first: UserEntry, second: UserEntry, newcomer: UserEntry)
    ensures var users := Remove([("1", first), ("2", second)], "1");
      var after := Put(users, NewUserId(users), newcomer);
      && NewUserId(users) == "2"
      && |after| == |users|
      && Get(after, "2") == Some(newcomer)
  {
    var users := Remove([("1", first), ("2", second)], "1");
    assert users == [("2", second)];
    assert NatToString(2) == "2";
  }

  /** Whenever the new id is already a key, registration replaces that user and the table does not grow. */
  lemma RegisterOverwritesWhenTaken(users: Dict<string, UserEntry>, e: UserEntry)
    requires UniqueKeys(users) && NewUserId(users) in Keys(users)
    ensures |Put(users, NewUserId(users), e)| == |users|
    ensures Get(Put(users, NewUserId(users), e), NewUserId(users)) == Some(e)
  {
    PutShape(users, NewUserId(users), e);
    PutGet(users, NewUserId(users), e);
  }

  /** The keys whose decimal reading is at least `n`. */
  function KeysFrom(users: Dict<string, UserEntry>, n: nat): set<string> {
    set k | k in Keys(users) && DecimalValue(k) >= n
  }

  /** The decimal id of the least number from `n` on that is not yet a key. */
  function FreshUserId(users: Dict<string, UserEntry>, n: nat): (id: string)
    ensures id !in Keys(users)
    ensures DecimalValue(id) >= n && id == NatToString(DecimalValue(id))
    ensures forall m :: n <= m < DecimalValue(id) ==> NatToString(m) in Keys(users)
    decreases KeysFrom(users, n)
  {
    var id := NatToString(n);
    DecimalRoundTrip(n);
    if id in Keys(users) then
      assert id in KeysFrom(users, n) && id !in KeysFrom(users, n + 1);
      assert KeysFrom(users, n + 1) <= KeysFrom(users, n);
      FreshUserId(users, n + 1)
    else
      id
  }

  /**
   * Registering under `FreshUserId(users, len(users) + 1)` always adds exactly
   * one user and keeps every existing one; it picks the same id as the code
   * whenever that id is free.
   */
  lemma FreshIdRegistrationKeepsUsers(users: Dict<string, UserEntry>, e: UserEntry, k: string)
    requires UniqueKeys(users)
    ensures var id := FreshUserId(users, |users| + 1);
      && |Put(users, id, e)| == |users| + 1
      && Get(Put(users, id, e), id) == Some(e)
      && (k in Keys(users) ==> Get(Put(users, id, e), k) == Get(users, k))
      && (NewUserId(users) !in Keys(users) ==> id == NewUserId(users))
  {
    var id := FreshUserId(users, |users| + 1);
    PutShape(users, id, e);
    PutGet(users, id, e);
    if k in Keys(users) {
      PutGetOther(users, id, e, k);
    }
  }

  /** The users file, loaded into memory and written back after each change. */
  class UserTable {
    var users: Dict<string, UserEntry>

    ghost predicate Valid()
      reads this
    {
      UniqueKeys(users)
    }

    /** The table as `load_users` returns it. */
    constructor (stored: Dict<string, UserEntry>)
      requires UniqueKeys(stored)
      ensures Valid() && users == stored
    {
      users := stored;
    }

    /**
     * The id a new user is stored under, corrected: `len(users) + 1` when that
     * is free, otherwise the next number after it that no user holds. The
     * code itself always takes `len(users) + 1` and can overwrite a user
     * (`RegisterOverwritesWhenTaken`).
     */
    method NextFreeId() returns (userId: string)
      ensures userId == FreshUserId(users, |users| + 1)
    {
      var n: nat := |users| + 1;
      userId := NatToString(n);
      while userId in Keys(users)
        invariant userId == NatToString(n)
        invariant FreshUserId(users, n) == FreshUserId(users, |users| + 1)
        decreases KeysFrom(users, n)
      {
        DecimalRoundTrip(n);
        assert userId in KeysFrom(users, n) && userId !in KeysFrom(users, n + 1);
        assert KeysFrom(users, n + 1) <= KeysFrom(users, n);
        n := n + 1;
        userId := NatToString(n);
      }
    }

    /**
     * `register`, with the id corrected: a taken username is refused;
     * otherwise the user is added under a fresh id (the code's
     * `str(len(users) + 1)` whenever that is free), so no user is replaced.
     */
    method Register(username: string, email: string, password: string) returns (outcome: RegisterOutcome)
      requires Valid()
      modifies this
      ensures Valid()
      ensures UsernameTaken(old(users), username) ==> outcome == UsernameExists && users == old(users)
      ensures !UsernameTaken(old(users), username) ==>
        var id := FreshUserId(old(users), |old(users)| + 1);
        && outcome == Registered(id)
        && users == Put(old(users), id, UserEntry(username, email, GeneratePasswordHash(password), None))
        && |users| == |old(users)| + 1
    {
      var i := 0;
      while i < |users|
        invariant i <= |users|
        invariant forall k :: 0 <= k < i ==> users[k].1.username != username
      {
        if users[i].1.username == username {
          return UsernameExists;
        }
        i := i + 1;
      }
      var userId := NextFreeId();
      var entry := UserEntry(username, email, GeneratePasswordHash(password), None);
      PutShape(users, userId, entry);
      users := Put(users, userId, entry);
      outcome := Registered(userId);
    }

    /** `login`: finds the first user with the username, then checks password and login type. */
    method Login(username: string, password: string, loginType: string) returns (outcome: LoginOutcome)
      ensures outcome == LoginResult(users, username, password, loginType)
    {
      var found: Option<nat> := None;
      var i := 0;
      while i < |users|
        invariant i <= |users|
        invariant found.None? ==> forall k :: 0 <= k < i ==> users[k].1.username != username
        invariant found.Some? ==> found == FirstWithUsername(users, username)
        decreases |users| - i, if found.None? then 1 else 0
      {
        if users[i].1.username == username {
          found := Some(i);
          break;
        }
        i := i + 1;
      }
      if found.None? {
        return InvalidCredentials;
      }
      var entry := users[found.value].1;
      if !CheckPasswordHash(entry.password, password) {
        return InvalidCredentials;
      }
      if loginType == "admin" && !entry.isAdmin.GetOr(false) {
        return AdminDenied;
      }
      outcome := LoggedIn(users[found.value].0, entry.isAdmin.GetOr(false));
    }

    /**
     * `update_profile`: the fields given truthy are written into the current
     * user's entry; the entry is only looked up when some field is given, and
     * a missing entry then fails with the KeyError's text.
     */
    method UpdateProfile(currentId: string, username: Option<string>, email: Option<string>, newPassword: Option<string>)
      returns (status: JsonStatus)
      requires Valid()
      modifies this
      ensures Valid()
      ensures var touched := Truthy(username) || Truthy(email) || Truthy(newPassword);
        match Get(old(users), currentId)
        case None =>
          users == old(users) && status == (if touched then Failure("'" + currentId + "'") else Success)
        case Some(e) =>
          status == Success
          && users == if touched then Put(old(users), currentId, ApplyProfile(e, username, email, newPassword)) else old(users)
    {
      var touched := Truthy(username) || Truthy(email) || Truthy(newPassword);
      if !touched {
        return Success;
      }
      var current := Get(users, currentId);
      if current.None? {
        return Failure("'" + currentId + "'");
      }
      var e := ApplyProfile(current.value, username, email, newPassword);
      PutShape(users, currentId, e);
      users := Put(users, currentId, e);
      status := Success;
    }

    /** `delete_user`: removes the entry under `userId`, or reports that there is none. */
    method DeleteUser(userId: string) returns (status: JsonStatus)
      requires Valid()
      modifies this
      ensures Valid()
      ensures userId in Keys(old(users)) ==> status == Success && users == Remove(old(users), userId)
      ensures userId !in Keys(old(users)) ==> status == Failure(UserNotFound) && users == old(users)
    {
      if userId in Keys(users) {
        RemoveKeepsUnique(users, userId);
        users := Remove(users, userId);
        status := Success;
      } else {
        status := Failure(UserNotFound);
      }
    }

    /**
     * `create_admin`, with the id corrected as in `Register`: all three fields
     * are required; the admin is added under a fresh id, with no check of the
     * name or email against other users.
     */
    method CreateAdmin(email: Option<string>, password: Option<string>, name: Option<string>)
      returns (outcome: CreateAdminOutcome)
      requires Valid()
      modifies this
      ensures Valid()
      ensures !(Truthy(email) && Truthy(password) && Truthy(name)) ==> outcome == FieldsRequired && users == old(users)
      ensures Truthy(email) && Truthy(password) && Truthy(name) ==>
        var id := FreshUserId(old(users), |old(users)| + 1);
        && outcome == AdminCreated(id)
        && users == Put(old(users), id, UserEntry(name.value, email.value, GeneratePasswordHash(password.value), Some(true)))
        && |users| == |old(users)| + 1
    {
      if !(Truthy(email) && Truthy(password) && Truthy(name)) {
        return FieldsRequired;
      }
      var userId := NextFreeId();
      var entry := UserEntry(name.value, email.value, GeneratePasswordHash(password.value), Some(true));
      PutShape(users, userId, entry);
      users := Put(users, userId, entry);
      outcome := AdminCreated(userId);
    }
  }

  /** Removing an entry keeps keys unique. */
  lemma {:induction false} RemoveKeepsUnique(d: Dict<string, UserEntry>, k: string)
    requires UniqueKeys(d)
    ensures UniqueKeys(Remove(d, k))
    ensures forall x :: x in Keys(Remove(d, k)) ==> x in Keys(d)
  {
    if d != [] {
      assert UniqueKeys(d[1..]);
      RemoveKeepsUnique(d[1..], k);
      if d[0].0 != k {
        var r := Remove(d, k);
        assert r == [d[0]] + Remove(d[1..], k);
        NotInRest(d);
        forall j | 0 < j < |r| ensures r[j].0 != d[0].0 {
          KeysAt(Remove(d[1..], k), r[j].0);
          assert r[j].0 in Keys(Remove(d[1..], k));
        }
      }
    }
  }

  // ---------------------------------------------------------------- chat route

  const ImageMarker: string := "@image"
  const ImageAckPrefix: string := "I've generated an image based on your prompt: "
  const MissingKey: string := "API key is required"
  const ImageFailurePrefix: string := "Failed to generate image: "
  const UserCue: string := "\nUser: "
  const AssistantCue: string := "\nAssistant:"
  /** The text Python gives for calling `startswith` on a missing message. */
  const NoMessage: string := "'NoneType' object has no attribute 'startswith'"

  /** The prompt of an image request: the message after `@image`, stripped; none when the marker is absent. */
  function ImagePrompt(message: string): (r: Option<string>)
    ensures r.Some? <==> StartsWith(message, ImageMarker)
  {
    if StartsWith(message, ImageMarker) then Some(PyStrip(message[|ImageMarker|..])) else None
  }

  /**
   * An image prompt is the text after the marker with only whitespace
   * removed from either end, and neither starts nor ends with whitespace.
   */
  lemma ImagePromptShape(message: string)
    requires StartsWith(message, ImageMarker)
    ensures var p := ImagePrompt(message).value;
      var rest := message[|ImageMarker|..];
      var i := LeadingCount(rest, IsPyWhitespace);
      && i + |p| <= |rest| && p == rest[i..i + |p|]
      && (forall k :: 0 <= k < i ==> IsPyWhitespace(rest[k]))
      && (forall k :: i + |p| <= k < |rest| ==> IsPyWhitespace(rest[k]))
      && (p == [] || (!IsPyWhitespace(p[0]) && !IsPyWhitespace(p[|p| - 1])))
  {
    TrimIsInfix(message[|ImageMarker|..], IsPyWhitespace);
    TrimEndsClean(message[|ImageMarker|..], IsPyWhitespace);
  }

  /** The prompt sent to the text model: the context, the message as the user's turn, then the assistant's cue. */
  function TextPrompt(context: string, message: string): (prompt: string)
    ensures |prompt| == |context| + |UserCue| + |message| + |AssistantCue|
    ensures prompt[..|context|] == context
    ensures prompt[|context|..|context| + |UserCue|] == UserCue
    ensures prompt[|context| + |UserCue|..|prompt| - |AssistantCue|] == message
    ensures prompt[|prompt| - |AssistantCue|..] == AssistantCue
  {
    context + UserCue + message + AssistantCue
  }

  /** The acknowledgement stored and returned for a generated image. */
  function ImageAck(prompt: string): (ack: string)
    ensures StartsWith(ack, ImageAckPrefix) && ack[|ImageAckPrefix|..] == prompt
  {
    ImageAckPrefix + prompt
  }

  datatype ReplyBody = ChatText(response: string, image: Option<string>) | ChatError(error: string)
  datatype Reply = Reply(status: nat, body: ReplyBody)

  /**
   * The `/chat` route for the logged-in user `userId`. The text model is a
   * foreign call from (API key, prompt) to the generated text or a failure.
   * History is written only after generation has succeeded.
   */
  method Chat(cm: ChatManager, images: ImageGenerator, textModel: (string, string) -> Result<string>,
              userId: string, message: Option<string>, apiKey: Option<string>) returns (reply: Reply)
    requires cm.Valid()
    modifies cm`conversations, cm`clock
    ensures cm.Valid()
    ensures !Truthy(apiKey) ==>
      reply == Reply(401, ChatError(MissingKey)) && cm.conversations == old(cm.conversations)
    ensures Truthy(apiKey) && message.None? ==>
      reply == Reply(500, ChatError(NoMessage)) && cm.conversations == old(cm.conversations)
    ensures Truthy(apiKey) && message.Some? && ImagePrompt(message.value).Some? ==>
      var prompt := ImagePrompt(message.value).value;
      match GenerateImage(images, prompt)
      case Err(e) =>
        reply == Reply(500, ChatError(ImageFailurePrefix + e)) && cm.conversations == old(cm.conversations)
      case Ok(image) =>
        && reply == Reply(200, ChatText(ImageAck(prompt), Some(image)))
        && cm.conversations == AddRecord(old(cm.conversations), Record(userId, message.value, ImageAck(prompt), old(cm.clock)), cm.maxHistory)
    ensures Truthy(apiKey) && message.Some? && ImagePrompt(message.value).None? ==>
      var context := PromptContext(cm.permanentContext, RecentExchanges(old(cm.conversations), userId, RecentCount));
      match textModel(apiKey.value, TextPrompt(context, message.value))
      case Err(e) =>
        reply == Reply(500, ChatError(e)) && cm.conversations == old(cm.conversations)
      case Ok(text) =>
        && reply == Reply(200, ChatText(text, None))
        && cm.conversations == AddRecord(old(cm.conversations), Record(userId, message.value, text, old(cm.clock)), cm.maxHistory)
  {
    if !Truthy(apiKey) {
      return Reply(401, ChatError(MissingKey));
    }
    if message.None? {
      return Reply(500, ChatError(NoMessage));
    }
    var msg := message.value;
    if StartsWith(msg, ImageMarker) {
      var prompt := PyStrip(msg[|ImageMarker|..]);
      var generated := GenerateImage(images, prompt);
      if generated.Err? {
        return Reply(500, ChatError(ImageFailurePrefix + generated.message));
      }
      var responseText := ImageAck(prompt);
      cm.AddToHistory(userId, msg, responseText);
      return Reply(200, ChatText(responseText, Some(generated.value)));
    }
    var context := cm.GetContextForPrompt(userId);
    var fullPrompt := TextPrompt(context, msg);
    var response := textModel(apiKey.value, fullPrompt);
    if response.Err? {
      return Reply(500, ChatError(response.message));
    }
    cm.AddToHistory(userId, msg, response.value);
    reply := Reply(200, ChatText(response.value, None));
  }

  /**
   * The application builds its image generator without ever setting a key,
   * so with that generator every image request fails before the remote call.
   */
  lemma AppImageRequestsFail(remote: (string, string) -> Result<string>, prompt: string)
    ensures GenerateImage(NewImageGenerator(remote), prompt) == Err(KeyNotSet)
  {
  }
}
