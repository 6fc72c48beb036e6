/**
 * The browser page's chat list: saving a message into the current chat
 * (starting a chat on the first message), deleting and archiving chats,
 * removing a generated image, and choosing which chats the sidebar lists.
 */
module ChatList {
  import opened Basics
  import opened Text
  import opened Words
  import opened JsArray
  import opened ChatRecords

  const ChatIdPrefix: string := "chat_"
  const TitleSuffix: string := "..."

  /** The id of a chat started at `nowMs` milliseconds. */
  function NewChatId(nowMs: nat): string {
    ChatIdPrefix + NatToString(nowMs)
  }

  /** A new chat's title: the first two space-separated words of its first message, then `...`. */
  function ChatTitle(message: string): (title: string)
    ensures |title| >= |TitleSuffix| && title[|title| - |TitleSuffix|..] == TitleSuffix
  {
    Join(Slice(Split(message, ' '), 0, 2), ' ') + TitleSuffix
  }

  /** Where the title text ends: at the second space of the message, or at its end. */
  function TitleEnd(message: string): (e: nat)
    ensures e <= |message|
  {
    if IndexOf(message, ' ') == |message| then |message|
    else IndexOf(message, ' ') + 1 + IndexOf(message[IndexOf(message, ' ') + 1..], ' ')
  }

  /** The first two parts of a split, when there are at least two. */
  lemma FirstTwoParts(message: string)
    requires IndexOf(message, ' ') < |message|
    ensures var i := IndexOf(message, ' ');
      var rest := message[i + 1..];
      Slice(Split(message, ' '), 0, 2) == [message[..i], rest[..IndexOf(rest, ' ')]]
  {
    var i := IndexOf(message, ' ');
    var rest := message[i + 1..];
    var parts := Split(message, ' ');
    assert parts == [message[..i]] + Split(rest, ' ');
    SplitHead(rest, ' ');
    assert parts[1] == Split(rest, ' ')[0];
    assert Slice(parts, 0, 2) == parts[..2];
  }

  /** The text of the title holds at most one space and stops at a space or at the end of the message. */
  lemma TitleEndSpaces(message: string)
    ensures TitleEnd(message) < |message| ==> message[TitleEnd(message)] == ' '
    ensures forall a, b :: 0 <= a < b < TitleEnd(message) && message[a] == ' ' ==> message[b] != ' '
  {
    var i := IndexOf(message, ' ');
    if i < |message| {
      var rest := message[i + 1..];
      var j := IndexOf(rest, ' ');
      forall a, b | 0 <= a < b < i + 1 + j && message[a] == ' '
        ensures message[b] != ' '
      {
        assert a == i;
        assert message[b] == rest[b - i - 1];
      }
    }
  }

  /** The title is the message up to its second space, followed by `...`. */
  lemma ChatTitleIsPrefix(message: string)
    ensures ChatTitle(message) == message[..TitleEnd(message)] + TitleSuffix
    ensures TitleEnd(message) < |message| ==> message[TitleEnd(message)] == ' '
    ensures forall a, b :: 0 <= a < b < TitleEnd(message) && message[a] == ' ' ==> message[b] != ' '
  {
    TitleEndSpaces(message);
    if IndexOf(message, ' ') < |message| {
      TwoWordTitle(message);
    } else {
      OneWordTitle(message);
    }
  }

  /** A message with a space: the title joins the first two parts. */
  lemma TwoWordTitle(message: string)
    requires IndexOf(message, ' ') < |message|
    ensures ChatTitle(message) == message[..TitleEnd(message)] + TitleSuffix
  {
    TwoWordText(message);
  }

  /** Joining the first two parts gives back the message up to its second space. */
  lemma TwoWordText(message: string)
    requires IndexOf(message, ' ') < |message|
    ensures Join(Slice(Split(message, ' '), 0, 2), ' ') == message[..TitleEnd(message)]
  {
    var i := IndexOf(message, ' ');
    var p1 := message[i + 1..][..IndexOf(message[i + 1..], ' ')];
    FirstTwoParts(message);
    JoinTwo(message[..i], p1, ' ');
    TitleTextParts(message);
  }

  /** The title text is the first part, the space, and the second part. */
  lemma TitleTextParts(message: string)
    requires IndexOf(message, ' ') < |message|
    ensures var i := IndexOf(message, ' ');
      message[..TitleEnd(message)] == message[..i] + [' '] + message[i + 1..][..IndexOf(message[i + 1..], ' ')]
  {
    var i := IndexOf(message, ' ');
    TitleEndAfterSpace(message);
    PrefixAroundSpace(message, i, IndexOf(message[i + 1..], ' '), TitleEnd(message), ' ');
  }

  /** With a space in the message, the title text runs past it to the next space or the end. */
  lemma TitleEndAfterSpace(message: string)
    requires IndexOf(message, ' ') < |message|
    ensures var i := IndexOf(message, ' ');
      TitleEnd(message) == i + 1 + IndexOf(message[i + 1..], ' ')
  {
  }


  lemma JoinTwo(a: string, b: string, sep: char)
    ensures Join([a, b], sep) == a + [sep] + b
  {
    assert [a, b][1..] == [b];
  }

  /** The first `e == i + 1 + j` characters: the `i` before position `i`, that character, then `j` more. */
  lemma PrefixAroundSpace(m: string, i: nat, j: nat, e: nat, c: char)
    requires i < |m| && j <= |m| - i - 1 && m[i] == c && e == i + 1 + j
    ensures m[..e] == m[..i] + [c] + m[i + 1..][..j]
  {
    var lhs, rhs := m[..e], m[..i] + [c] + m[i + 1..][..j];
    forall k | 0 <= k < |lhs| ensures lhs[k] == rhs[k] {
      if k > i {
        assert rhs[k] == m[i + 1..][..j][k - i - 1];
      }
    }
  }

  /** A message without a space is its own title text. */
  lemma OneWordTitle(message: string)
    requires IndexOf(message, ' ') == |message|
    ensures ChatTitle(message) == message[..TitleEnd(message)] + TitleSuffix
  {
    assert Join(Slice(Split(message, ' '), 0, 2), ' ') == message by {
      OneWordParts(message);
      assert Join([message], ' ') == message;
    }
    assert message[..TitleEnd(message)] == message by {
      assert TitleEnd(message) == |message|;
    }
  }

  /** A message without a space splits into itself alone. */
  lemma OneWordParts(message: string)
    requires IndexOf(message, ' ') == |message|
    ensures Slice(Split(message, ' '), 0, 2) == [message]
  {
    assert Split(message, ' ') == [message];
  }

  /** The chats the sidebar lists: the archived ones or the others, in stored order. */
  function VisibleChats(chats: seq<Chat>, showingArchived: bool): (r: seq<Chat>)
    ensures forall k :: 0 <= k < |r| ==> r[k].archived == showingArchived
    ensures forall c :: c in chats && c.archived == showingArchived ==> c in r
  {
    if chats == [] then []
    else
      assert chats == [chats[0]] + chats[1..];
      var rest := VisibleChats(chats[1..], showingArchived);
      if chats[0].archived == showingArchived then [chats[0]] + rest else rest
  }

  /** Filtering keeps stored order: a chat added at the end shows last in its view, and in no other. */
  lemma {:induction false} VisibleChatsSnoc(chats: seq<Chat>, c: Chat, showingArchived: bool)
    ensures VisibleChats(chats + [c], showingArchived) ==
      VisibleChats(chats, showingArchived) + (if c.archived == showingArchived then [c] else [])
  {
    var all := chats + [c];
    if chats == [] {
      assert all == [c] && all[1..] == [];
    } else {
      var head := if chats[0].archived == showingArchived then [chats[0]] else [];
      var rest := VisibleChats(chats[1..], showingArchived);
      var tail := if c.archived == showingArchived then [c] else [];
      assert VisibleChats(all, showingArchived) == head + (rest + tail) by {
        assert all[0] == chats[0] && all[1..] == chats[1..] + [c];
        VisibleChatsSnoc(chats[1..], c, showingArchived);
      }
      assert VisibleChats(chats, showingArchived) == head + rest;
      assert head + (rest + tail) == head + rest + tail;
    }
  }

  /**
   * The two views of the sidebar split the chats between them, each chat
   * into exactly one; so each view lists no chat more often than it is stored.
   */
  lemma {:induction false} VisibleChatsPartition(chats: seq<Chat>)
    ensures multiset(VisibleChats(chats, true)) + multiset(VisibleChats(chats, false)) == multiset(chats)
    ensures forall v: bool :: multiset(VisibleChats(chats, v)) <= multiset(chats)
  {
    if chats != [] {
      VisibleChatsPartition(chats[1..]);
      assert chats == [chats[0]] + chats[1..];
    }
  }

  /** The chats as stored, and the id of the chat new messages go to (absent after "new chat"). */
  datatype PageState = PageState(chats: seq<Chat>, currentChatId: Option<string>)

  /** A current chat id, when there is one, names a stored chat. */
  predicate CurrentResolves(s: PageState) {
    Truthy(s.currentChatId) ==> FindChat(s.chats, s.currentChatId.value).Some?
  }

  /** The total number of messages across the chats. */
  function MessageCount(chats: seq<Chat>): nat {
    if chats == [] then 0 else |chats[0].messages| + MessageCount(chats[1..])
  }

  lemma {:induction false} MessageCountUpdate(chats: seq<Chat>, i: nat, c: Chat)
    requires i < |chats|
    ensures MessageCount(chats[i := c]) + |chats[i].messages| == MessageCount(chats) + |c.messages|
  {
    if i > 0 {
      assert chats[i := c][1..] == chats[1..][i - 1 := c];
      MessageCountUpdate(chats[1..], i - 1, c);
    }
  }

  lemma {:induction false} MessageCountRemove(chats: seq<Chat>, i: nat)
    requires i < |chats|
    ensures MessageCount(chats[..i] + chats[i + 1..]) + |chats[i].messages| == MessageCount(chats)
  {
    var r := chats[..i] + chats[i + 1..];
    if i == 0 {
      assert r == chats[1..];
    } else {
      assert r[0] == chats[0];
      assert r[1..] == chats[1..][..i - 1] + chats[1..][i..];
      MessageCountRemove(chats[1..], i - 1);
    }
  }

  /** Replacing a chat by one with the same id changes no lookup by id. */
  lemma {:induction false} FindChatUpdate(chats: seq<Chat>, i: nat, c: Chat, id: string)
    requires i < |chats| && c.id == chats[i].id
    ensures FindChat(chats[i := c], id) == FindChat(chats, id)
  {
    if i > 0 && chats[0].id != id {
      assert chats[i := c][1..] == chats[1..][i - 1 := c];
      FindChatUpdate(chats[1..], i - 1, c, id);
    }
  }

  /**
   * `saveChat`: without a current chat, a chat titled after the message is
   * put first and becomes current; the message is then appended to the
   * first chat with the current id, or dropped when there is none.
   */
  function SavedState(s: PageState, message: string, isUser: bool, timestamp: string, nowMs: nat, imageData: Option<string>): PageState {
    var s1 :=
      if Truthy(s.currentChatId) then s
      else PageState([Chat(NewChatId(nowMs), ChatTitle(message), [], false, timestamp)] + s.chats, Some(NewChatId(nowMs)));
    match FindChat(s1.chats, s1.currentChatId.value)
    case None => s1
    case Some(i) =>
      s1.(chats := s1.chats[i := s1.chats[i].(messages := s1.chats[i].messages + [Message(message, isUser, timestamp, imageData)])])
  }

  /** The first message starts a chat holding just that message, placed before every other chat. */
  lemma SaveChatStartsChat(s: PageState, message: string, isUser: bool, timestamp: string, nowMs: nat, imageData: Option<string>)
    requires !Truthy(s.currentChatId)
    ensures SavedState(s, message, isUser, timestamp, nowMs, imageData) ==
      PageState([Chat(NewChatId(nowMs), ChatTitle(message), [Message(message, isUser, timestamp, imageData)], false, timestamp)] + s.chats,
                Some(NewChatId(nowMs)))
  {
    var c := Chat(NewChatId(nowMs), ChatTitle(message), [], false, timestamp);
    var m := Message(message, isUser, timestamp, imageData);
    var s1 := PageState([c] + s.chats, Some(NewChatId(nowMs)));
    assert FindChat(s1.chats, c.id) == Some(0);
    assert s1.chats[0].messages + [m] == [m];
    assert s1.chats[0 := s1.chats[0].(messages := [m])] == [c.(messages := [m])] + s.chats;
  }

  /**
   * While the current id names a chat, saving keeps it named, adds exactly
   * one message, and that message is the current chat's last. When a chat
   * was already current, the message is appended to it and every other chat
   * is left as it was.
   */
  lemma SaveChatStoresMessage(s: PageState, message: string, isUser: bool, timestamp: string, nowMs: nat, imageData: Option<string>)
    requires CurrentResolves(s)
    ensures var t := SavedState(s, message, isUser, timestamp, nowMs, imageData);
      && CurrentResolves(t) && Truthy(t.currentChatId)
      && MessageCount(t.chats) == MessageCount(s.chats) + 1
      && (var ms := t.chats[FindChat(t.chats, t.currentChatId.value).value].messages;
          |ms| > 0 && ms[|ms| - 1] == Message(message, isUser, timestamp, imageData))
      && (Truthy(s.currentChatId) ==>
            var j := FindChat(s.chats, s.currentChatId.value).value;
            && t.currentChatId == s.currentChatId
            && |t.chats| == |s.chats|
            && t.chats[j].messages == s.chats[j].messages + [Message(message, isUser, timestamp, imageData)]
            && t.chats[j] == s.chats[j].(messages := t.chats[j].messages)
            && (forall k :: 0 <= k < |s.chats| && k != j ==> t.chats[k] == s.chats[k]))
  {
    var c := Chat(NewChatId(nowMs), ChatTitle(message), [], false, timestamp);
    var s1 := if Truthy(s.currentChatId) then s else PageState([c] + s.chats, Some(NewChatId(nowMs)));
    if !Truthy(s.currentChatId) {
      assert FindChat([c] + s.chats, c.id) == Some(0);
      assert ([c] + s.chats)[1..] == s.chats;
      assert MessageCount([c] + s.chats) == MessageCount(s.chats);
    }
    var id := s1.currentChatId.value;
    var i := FindChat(s1.chats, id).value;
    var updated := s1.chats[i].(messages := s1.chats[i].messages + [Message(message, isUser, timestamp, imageData)]);
    FindChatUpdate(s1.chats, i, updated, id);
    MessageCountUpdate(s1.chats, i, updated);
  }

  /** When the current id names no chat, saving changes nothing: the message is lost. */
  lemma SaveChatDanglingDrops(s: PageState, message: string, isUser: bool, timestamp: string, nowMs: nat, imageData: Option<string>)
    requires Truthy(s.currentChatId) && FindChat(s.chats, s.currentChatId.value).None?
    ensures SavedState(s, message, isUser, timestamp, nowMs, imageData) == s
  {
  }

  /** `deleteChat` as the page has it: removes the first chat with the id and leaves the current id alone. */
  function DeletedStateAsWritten(s: PageState, chatId: string): PageState {
    match FindChat(s.chats, chatId)
    case None => s
    case Some(i) => s.(chats := s.chats[..i] + s.chats[i + 1..])
  }

  /**
   * Deleting the chat being written to, then sending a message, loses the
   * message: the current id still names the deleted chat.
   */
  lemma DeleteCurrentThenSaveLosesMessage(c: Chat, message: string, isUser: bool, timestamp: string, nowMs: nat, imageData: Option<string>)
    requires c.id != ""
    ensures var t := DeletedStateAsWritten(PageState([c], Some(c.id)), c.id);
      && !CurrentResolves(t)
      && SavedState(t, message, isUser, timestamp, nowMs, imageData) == PageState([], Some(c.id))
  {
    assert FindChat([c], c.id) == Some(0);
    var t := DeletedStateAsWritten(PageState([c], Some(c.id)), c.id);
    assert t == PageState([], Some(c.id));
    SaveChatDanglingDrops(t, message, isUser, timestamp, nowMs, imageData);
  }

  /** `deleteChat`, also forgetting the current id when it named the deleted chat, as "new chat" and "clear all" do. */
  function DeletedState(s: PageState, chatId: string): PageState {
    match FindChat(s.chats, chatId)
    case None => s
    case Some(i) =>
      PageState(s.chats[..i] + s.chats[i + 1..], if s.currentChatId == Some(chatId) then None else s.currentChatId)
  }

  /** Removing one chat keeps every chat with a different id findable. */
  lemma RemoveKeepsOtherIds(chats: seq<Chat>, i: nat, id: string)
    requires i < |chats| && chats[i].id != id && FindChat(chats, id).Some?
    ensures FindChat(chats[..i] + chats[i + 1..], id).Some?
  {
    var rest := chats[..i] + chats[i + 1..];
    var j := FindChat(chats, id).value;
    var k := if j < i then j else j - 1;
    assert rest[k] == chats[j] && rest[k].id == id;
  }

  /**
   * Deleting removes the first chat with the id, and its messages, keeping
   * the others in order; the current id is forgotten only when it named the
   * deleted chat, so a current id that named a stored chat still does.
   * This holds for every page state, a dangling current id included.
   */
  lemma DeleteChatKeepsResolving(s: PageState, chatId: string)
    ensures var t := DeletedState(s, chatId);
      && (CurrentResolves(s) ==> CurrentResolves(t))
      && (FindChat(s.chats, chatId).Some? ==>
            var i := FindChat(s.chats, chatId).value;
            && s.chats[i].id == chatId
            && t.chats == s.chats[..i] + s.chats[i + 1..]
            && |t.chats| == |s.chats| - 1
            && MessageCount(t.chats) == MessageCount(s.chats) - |s.chats[i].messages|
            && t.currentChatId == if s.currentChatId == Some(chatId) then None else s.currentChatId)
      && (FindChat(s.chats, chatId).None? ==> t == s)
  {
    match FindChat(s.chats, chatId)
    case None =>
    case Some(i) =>
      var t := DeletedState(s, chatId);
      assert t.chats == s.chats[..i] + s.chats[i + 1..];
      MessageCountRemove(s.chats, i);
      if CurrentResolves(s) && Truthy(s.currentChatId) && s.currentChatId != Some(chatId) {
        RemoveKeepsOtherIds(s.chats, i, s.currentChatId.value);
      }
  }

  /**
   * `toggleArchiveChat`: flips the archive flag of the first chat with the
   * id; archiving the current chat leaves no chat current.
   */
  function ToggledState(s: PageState, chatId: string): PageState {
    match FindChat(s.chats, chatId)
    case None => s
    case Some(i) =>
      var flipped := s.chats[i].(archived := !s.chats[i].archived);
      PageState(s.chats[i := flipped],
                if s.currentChatId == Some(chatId) && flipped.archived then None else s.currentChatId)
  }

  /**
   * Toggling flips exactly one flag, in every page state, and keeps a
   * resolving current id resolving; archiving the current chat clears the
   * current id and nothing else does; toggling twice restores the chats.
   */
  lemma ToggleArchiveChatEffect(s: PageState, chatId: string)
    ensures var t := ToggledState(s, chatId);
      && (CurrentResolves(s) ==> CurrentResolves(t))
      && |t.chats| == |s.chats|
      && (forall k :: 0 <= k < |s.chats| ==>
            t.chats[k] == if Some(k) == FindChat(s.chats, chatId) then s.chats[k].(archived := !s.chats[k].archived) else s.chats[k])
      && (FindChat(s.chats, chatId).Some? && t.chats[FindChat(s.chats, chatId).value].archived ==> t.currentChatId != Some(chatId))
      && t.currentChatId == (if FindChat(s.chats, chatId).Some? && s.currentChatId == Some(chatId)
                                && !s.chats[FindChat(s.chats, chatId).value].archived
                             then None else s.currentChatId)
      && ToggledState(t, chatId).chats == s.chats
  {
    match FindChat(s.chats, chatId)
    case None =>
    case Some(i) =>
      var flipped := s.chats[i].(archived := !s.chats[i].archived);
      FindChatUpdate(s.chats, i, flipped, chatId);
      if Truthy(s.currentChatId) {
        FindChatUpdate(s.chats, i, flipped, s.currentChatId.value);
      }
  }

  /** A message with the deleted image loses its image data; every other message is kept as it is. */
  function ClearImage(m: Message, image: string): Message {
    if m.imageData == Some(image) then m.(imageData := None) else m
  }

  /** The image-delete button: in the current chat, every message holding the image loses it. */
  function ImageDeletedState(s: PageState, image: string): PageState {
    if s.currentChatId.None? then s
    else match FindChat(s.chats, s.currentChatId.value)
      case None => s
      case Some(i) =>
        var ms := s.chats[i].messages;
        s.(chats := s.chats[i := s.chats[i].(messages := seq(|ms|, k requires 0 <= k < |ms| => ClearImage(ms[k], image)))])
  }

  /**
   * After deleting an image no message of the current chat holds it: each
   * message that held it now has no image and is otherwise unchanged, and
   * nothing else changes.
   */
  lemma DeleteImageEffect(s: PageState, image: string)
    requires s.currentChatId.Some? && FindChat(s.chats, s.currentChatId.value).Some?
    ensures var t := ImageDeletedState(s, image);
      var i := FindChat(s.chats, s.currentChatId.value).value;
      && t.currentChatId == s.currentChatId && |t.chats| == |s.chats|
      && (forall k :: 0 <= k < |s.chats| && k != i ==> t.chats[k] == s.chats[k])
      && |t.chats[i].messages| == |s.chats[i].messages|
      && (forall k :: 0 <= k < |t.chats[i].messages| ==>
            && t.chats[i].messages[k].imageData != Some(image)
            && t.chats[i].messages[k].content == s.chats[i].messages[k].content
            && (s.chats[i].messages[k].imageData == Some(image) ==> t.chats[i].messages[k] == s.chats[i].messages[k].(imageData := None))
            && (s.chats[i].messages[k].imageData != Some(image) ==> t.chats[i].messages[k] == s.chats[i].messages[k]))
      && ImageDeletedState(t, image) == t
  {
    var i := FindChat(s.chats, s.currentChatId.value).value;
    var ms := s.chats[i].messages;
    var cleared := s.chats[i].(messages := seq(|ms|, k requires 0 <= k < |ms| => ClearImage(ms[k], image)));
    FindChatUpdate(s.chats, i, cleared, s.currentChatId.value);
    var t := ImageDeletedState(s, image);
    assert t.chats[i] == cleared;
    var ms2 := cleared.messages;
    assert seq(|ms2|, k requires 0 <= k < |ms2| => ClearImage(ms2[k], image)) == ms2;
    assert t.chats[i := t.chats[i].(messages := ms2)] == t.chats;
  }

  /** The page's chat state: the stored chats, the current chat id, and which sidebar view is shown. */
  class ChatPage {
    var chats: seq<Chat>
    var currentChatId: Option<string>
    var showingArchived: bool

    function State(): PageState
      reads this
    {
      PageState(chats, currentChatId)
    }

    /** The page as loaded: the stored chats and current id, showing the active chats. */
    constructor (stored: seq<Chat>, storedCurrent: Option<string>)
      ensures State() == PageState(stored, storedCurrent) && !showingArchived
    {
      chats := stored;
      currentChatId := storedCurrent;
      showingArchived := false;
    }

    /** `saveChat`. */
    method SaveChat(message: string, isUser: bool, timestamp: string, nowMs: nat, imageData: Option<string> := None)
      modifies this
      ensures State() == SavedState(old(State()), message, isUser, timestamp, nowMs, imageData)
      ensures showingArchived == old(showingArchived)
    {
      if !Truthy(currentChatId) {
        var id := ChatIdPrefix + NatToString(nowMs);
        chats := [Chat(id, ChatTitle(message), [], false, timestamp)] + chats;
        currentChatId := Some(id);
      }
      var found := FindChat(chats, currentChatId.value);
      if found.Some? {
        var i := found.value;
        chats := chats[i := chats[i].(messages := chats[i].messages + [Message(message, isUser, timestamp, imageData)])];
      }
    }

    /** `deleteChat`, forgetting the current id when it named the deleted chat. */
    method DeleteChat(chatId: string)
      modifies this
      ensures State() == DeletedState(old(State()), chatId)
      ensures showingArchived == old(showingArchived)
    {
      var found := FindChat(chats, chatId);
      if found.Some? {
        var i := found.value;
        chats := chats[..i] + chats[i + 1..];
        if currentChatId == Some(chatId) {
          currentChatId := None;
        }
      }
    }

    /** `toggleArchiveChat`. */
    method ToggleArchiveChat(chatId: string)
      modifies this
      ensures State() == ToggledState(old(State()), chatId)
      ensures showingArchived == old(showingArchived)
    {
      var found := FindChat(chats, chatId);
      if found.Some? {
        var i := found.value;
        chats := chats[i := chats[i].(archived := !chats[i].archived)];
        if chats[i].id == chatId && currentChatId == Some(chatId) && chats[i].archived {
          currentChatId := None;
        }
      }
    }

    /** The image-delete button's update of the stored chat, one message at a time. */
    method DeleteImage(image: string)
      modifies this
      ensures State() == ImageDeletedState(old(State()), image)
      ensures showingArchived == old(showingArchived)
    {
      if currentChatId.None? {
        return;
      }
      var found := FindChat(chats, currentChatId.value);
      if found.None? {
        return;
      }
      var i := found.value;
      ghost var original := chats[i].messages;
      var ms := chats[i].messages;
      for k := 0 to |ms|
        invariant |ms| == |original|
        invariant forall j :: 0 <= j < k ==> ms[j] == ClearImage(original[j], image)
        invariant forall j :: k <= j < |ms| ==> ms[j] == original[j]
      {
        if ms[k].imageData == Some(image) {
          ms := ms[k := ms[k].(imageData := None)];
        }
      }
      assert ms == seq(|original|, k requires 0 <= k < |original| => ClearImage(original[k], image));
      chats := chats[i := chats[i].(messages := ms)];
    }

    /** Opening a chat from the sidebar makes it current, when it exists. */
    method LoadChat(chatId: string)
      modifies this`currentChatId
      ensures FindChat(chats, chatId).Some? ==> currentChatId == Some(chatId)
      ensures FindChat(chats, chatId).None? ==> currentChatId == old(currentChatId)
    {
      if FindChat(chats, chatId).Some? {
        currentChatId := Some(chatId);
      }
    }

    /** The "new chat" button: no chat is current until the next message starts one. */
    method NewChat()
      modifies this`currentChatId
      ensures currentChatId == None
    {
      currentChatId := None;
    }

    /** The sidebar's archive switch. */
    method ToggleShowingArchived()
      modifies this`showingArchived
      ensures showingArchived == !old(showingArchived)
    {
      showingArchived := !showingArchived;
    }

    /** The chats the sidebar lists. */
    function Visible(): seq<Chat>
      reads this
    {
      VisibleChats(chats, showingArchived)
    }
  }
}
