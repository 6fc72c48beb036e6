/** Paging through the messages of one stored chat. */
module HistoryManager {
  import opened Basics
  import opened JsArray
  import opened ChatRecords
  import opened StorageHandler

  const DefaultMessageLimit: int := 50

  /** One page of a chat's messages, and whether messages follow it. */
  datatype HistoryPage = HistoryPage(messages: seq<Message>, hasMore: bool)

  /** The index of the first message of page `page`. */
  function PageStart(page: int, limit: int): int {
    (page - 1) * limit
  }

  /** Page `page` (counted from 1) of `limit` messages each. */
  function MessagePage(msgs: seq<Message>, limit: int, page: int): HistoryPage {
    var startIndex := PageStart(page, limit);
    HistoryPage(Slice(msgs, startIndex, startIndex + limit), |msgs| > startIndex + limit)
  }

  /** Pages from 1 on start at a non-negative index, one limit apart. */
  lemma PageStartStep(page: int, limit: int)
    requires limit > 0 && page >= 1
    ensures 0 <= PageStart(page, limit)
    ensures PageStart(page + 1, limit) == PageStart(page, limit) + limit
  {
    assert (page + 1 - 1) * limit == (page - 1) * limit + limit;
  }

  lemma SliceRun(msgs: seq<Message>, start: int, limit: int)
    requires start >= 0 && limit > 0
    ensures var r := Slice(msgs, start, start + limit);
      && (start < |msgs| ==> r == msgs[start..Min(start + limit, |msgs|)])
      && (start >= |msgs| ==> r == [])
      && |r| <= limit
  {
  }

  /**
   * For a positive limit and a page from 1 on, a page is the run of messages
   * from `(page - 1) * limit`, at most `limit` long, and more follow exactly
   * when the messages go on past it.
   */
  lemma MessagePageRange(msgs: seq<Message>, limit: int, page: int)
    requires limit > 0 && page >= 1
    ensures var p := MessagePage(msgs, limit, page);
      var start := PageStart(page, limit);
      && start == (page - 1) * limit
      && (start < |msgs| ==> p.messages == msgs[start..Min(start + limit, |msgs|)])
      && (start >= |msgs| ==> p.messages == [])
      && |p.messages| <= limit
      && (p.hasMore <==> start + |p.messages| < |msgs|)
  {
    PageStartStep(page, limit);
    SliceRun(msgs, PageStart(page, limit), limit);
  }

  /** The messages of pages 1 to `n`, in order. */
  function Pages(msgs: seq<Message>, limit: int, n: nat): seq<Message> {
    if n == 0 then [] else Pages(msgs, limit, n - 1) + MessagePage(msgs, limit, n).messages
  }

  /** Page `n + 1` starts after `n` full pages. */
  lemma PageStartAfter(n: nat, limit: int)
    ensures PageStart(n + 1, limit) == n * limit
  {
  }

  /** The first `n` pages, read one after another, give the messages before page `n + 1`, the first `n * limit` (see PageStartAfter). */
  lemma {:induction false} PagesTile(msgs: seq<Message>, limit: int, n: nat)
    requires limit > 0
    ensures Pages(msgs, limit, n) == msgs[..Min(PageStart(n + 1, limit), |msgs|)]
  {
    if n == 0 {
      assert PageStart(1, limit) == 0;
    } else {
      var start := PageStart(n, limit);
      var end := PageStart(n + 1, limit);
      var page := MessagePage(msgs, limit, n).messages;
      assert 0 <= start && end == start + limit by {
        PageStartStep(n, limit);
      }
      assert Pages(msgs, limit, n - 1) == msgs[..Min(start, |msgs|)] by {
        PagesTile(msgs, limit, n - 1);
      }
      assert (start < |msgs| ==> page == msgs[start..Min(end, |msgs|)]) && (start >= |msgs| ==> page == []) by {
        MessagePageRange(msgs, limit, n);
      }
      assert Pages(msgs, limit, n) == msgs[..Min(start, |msgs|)] + page;
      PrefixThenRun(msgs, start, end);
    }
  }

  /** The messages before `start`, then those from `start` up to `end`, are the messages before `end`. */
  lemma PrefixThenRun(msgs: seq<Message>, start: int, end: int)
    requires 0 <= start <= end
    ensures msgs[..Min(start, |msgs|)] + (if start < |msgs| then msgs[start..Min(end, |msgs|)] else [])
      == msgs[..Min(end, |msgs|)]
  {
    if start < |msgs| {
      assert msgs[..start] + msgs[start..Min(end, |msgs|)] == msgs[..Min(end, |msgs|)];
    }
  }

  class HistoryManager {
    const storageHandler: StorageHandler
    const messageLimit: int
    var currentPage: int

    /** A manager over a storage handler; pages hold 50 messages unless told otherwise. */
    constructor (storageHandler: StorageHandler, messageLimit: int := DefaultMessageLimit)
      ensures this.storageHandler == storageHandler && this.messageLimit == messageLimit && currentPage == 1
    {
      this.storageHandler := storageHandler;
      this.messageLimit := messageLimit;
      currentPage := 1;
    }

    /**
     * `loadChatHistory`: the page of the first chat with the id among the
     * chats `getChats()` returns, or nothing when there is no such chat.
     */
    function LoadChatHistory(chatId: string, page: int := 1): (r: Option<HistoryPage>)
      reads this, storageHandler
      ensures r.None? <==> FindChat(storageHandler.GetChats(), chatId).None?
      ensures r.Some? ==> r.value == MessagePage(storageHandler.GetChats()[FindChat(storageHandler.GetChats(), chatId).value].messages, messageLimit, page)
    {
      var chats := storageHandler.GetChats();
      match FindChat(chats, chatId)
      case None => None
      case Some(i) => Some(MessagePage(chats[i].messages, messageLimit, page))
    }
  }

  /** Only the newest 50 stored chats can be paged: a chat stored after them is not found. */
  lemma OnlyNewestFiftyLoad(chats: seq<Chat>, chatId: string)
    requires forall k :: 0 <= k < Min(DefaultLimit, |chats|) ==> chats[k].id != chatId
    ensures FindChat(ReadChats(Parsed(chats), DefaultLimit), chatId).None?
  {
  }
}
