/**
 * The chat store kept under one browser-storage key: reading the newest
 * chats, and saving a chat in front of them, dropping the oldest ten when
 * storage is full.
 */
module StorageHandler {
  import opened Basics
  import opened JsArray
  import opened ChatRecords

  const StorageKey: string := "chats"
  const DefaultLimit: int := 50
  /** How many chats are dropped from the end when storage is full. */
  const TrimCount: nat := 10

  /** What the storage key holds: nothing, a parsed list of chats, or text that does not parse as one. */
  datatype Stored = Absent | Parsed(chats: seq<Chat>) | Unparsable

  /** `getChats(limit)`: the first `limit` stored chats, or none when the stored text does not parse. */
  function ReadChats(stored: Stored, limit: int): (r: seq<Chat>)
    ensures stored.Parsed? && 0 <= limit ==> r == stored.chats[..Min(limit, |stored.chats|)]
    ensures !stored.Parsed? ==> r == []
  {
    match stored
    case Parsed(chats) => Slice(chats, 0, limit)
    case _ => []
  }

  /** The list `saveChat` writes, as written: the new chat first, then the last ten entries cut when storage is full. */
  function SavedListAsWritten(chats: seq<Chat>, chatData: Chat, quotaExceeded: bool): seq<Chat> {
    var all := [chatData] + chats;
    if quotaExceeded then SpliceFrom(all, -(TrimCount as int)) else all
  }

  /** When at most ten chats are stored, a full store loses everything, including the chat being saved. */
  lemma FullStoreLosesNewChat(chats: seq<Chat>, chatData: Chat)
    requires |chats| < TrimCount
    ensures SavedListAsWritten(chats, chatData, true) == []
  {
  }

  /** The list `saveChat` writes, cutting the ten oldest chats but never the one being saved. */
  function SavedList(chats: seq<Chat>, chatData: Chat, quotaExceeded: bool): (r: seq<Chat>)
    ensures 1 <= |r| <= |chats| + 1 && r[0] == chatData
    ensures r[1..] == chats[..|r| - 1]
    ensures !quotaExceeded ==> |r| == |chats| + 1
    ensures quotaExceeded ==> |r| == Max(1, |chats| + 1 - TrimCount)
  {
    var all := [chatData] + chats;
    if quotaExceeded then all[..Max(1, |all| - TrimCount)] else all
  }

  /** The two lists differ only when a full store holds ten chats or fewer. */
  lemma SavedListAgrees(chats: seq<Chat>, chatData: Chat, quotaExceeded: bool)
    requires !quotaExceeded || |chats| >= TrimCount
    ensures SavedList(chats, chatData, quotaExceeded) == SavedListAsWritten(chats, chatData, quotaExceeded)
  {
  }

  class StorageHandler {
    const storageKey: string
    var stored: Stored

    /** A handler over what the browser storage currently holds. */
    constructor (initial: Stored)
      ensures storageKey == StorageKey && stored == initial
    {
      storageKey := StorageKey;
      stored := initial;
    }

    /** `getChats`, with its default limit of 50. */
    function GetChats(limit: int := DefaultLimit): (r: seq<Chat>)
      reads this
      ensures stored.Parsed? && 0 <= limit ==> r == stored.chats[..Min(limit, |stored.chats|)]
      ensures !stored.Parsed? ==> r == []
    {
      ReadChats(stored, limit)
    }

    /**
     * `saveChat`, with the full-storage trim corrected (`SavedList` rather
     * than the code's `splice(-10)`, see `FullStoreLosesNewChat`): the chat
     * goes in front of the newest 50 stored chats. Whether storage is full
     * and whether the write succeeds are inputs; a failed write leaves the
     * store as it was and reports false.
     */
    method SaveChat(chatData: Chat, quotaExceeded: bool, writeSucceeds: bool) returns (ok: bool)
      modifies this`stored
      ensures ok == writeSucceeds
      ensures ok ==> stored == Parsed(SavedList(old(GetChats()), chatData, quotaExceeded))
      ensures !ok ==> stored == old(stored)
    {
      var chats := GetChats();
      chats := [chatData] + chats;
      if quotaExceeded {
        chats := chats[..Max(1, |chats| - TrimCount)];
      }
      if !writeSucceeds {
        return false;
      }
      stored := Parsed(chats);
      ok := true;
    }
  }

  /** A saved chat is read back first, and the store never holds more than 51 chats after a save. */
  lemma SaveThenRead(previous: Stored, chatData: Chat, quotaExceeded: bool)
    ensures var saved := SavedList(ReadChats(previous, DefaultLimit), chatData, quotaExceeded);
      && |saved| <= DefaultLimit + 1
      && ReadChats(Parsed(saved), DefaultLimit)[0] == chatData
  {
  }
}
