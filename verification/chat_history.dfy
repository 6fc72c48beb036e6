/**
 * The server's conversation store and prompt-context builder (ChatManager).
 *
 * The document collection `conversations` is a list of records in insertion
 * order. Timestamps come from a clock that strictly increases with every
 * insertion, so collection order and timestamp order agree; `Chronological`
 * states this and every operation keeps it.
 */
module ChatHistory {
  import opened Basics
  import opened OrderedDict

  /** The cap ChatManager uses when none is given. */
  const DefaultMaxHistory: int := 50

  /** How many recent exchanges go into a prompt. */
  const RecentCount: nat := 5

  /** One document of the `conversations` collection. */
  datatype Record = Record(userId: string, message: string, response: string, timestamp: nat)

  ghost predicate Chronological(rs: seq<Record>) {
    forall i, j :: 0 <= i < j < |rs| ==> rs[i].timestamp < rs[j].timestamp
  }

  /** The documents matching `{'user_id': u}`, in collection order. */
  function UserRecords(rs: seq<Record>, u: string): (r: seq<Record>)
    ensures |r| <= |rs|
    ensures forall k :: 0 <= k < |r| ==> r[k].userId == u && r[k] in rs
  {
    if rs == [] then []
    else (if rs[0].userId == u then [rs[0]] else []) + UserRecords(rs[1..], u)
  }

  lemma {:induction false} UserRecordsAppend(rs: seq<Record>, x: Record, u: string)
    ensures UserRecords(rs + [x], u) == UserRecords(rs, u) + (if x.userId == u then [x] else [])
  {
    var all := rs + [x];
    if rs == [] {
      assert all == [x] && all[1..] == [];
    } else {
      var head := if rs[0].userId == u then [rs[0]] else [];
      var rest := UserRecords(rs[1..], u);
      var tail := if x.userId == u then [x] else [];
      assert UserRecords(all, u) == head + (rest + tail) by {
        assert all[0] == rs[0] && all[1..] == rs[1..] + [x];
        UserRecordsAppend(rs[1..], x, u);
      }
      assert UserRecords(rs, u) == head + rest;
      assert head + (rest + tail) == (head + rest) + tail;
    }
  }

  /** A user's documents are in timestamp order whenever the collection is. */
  lemma {:induction false} UserRecordsChronological(rs: seq<Record>, u: string)
    requires Chronological(rs)
    ensures Chronological(UserRecords(rs, u))
  {
    if rs != [] {
      UserRecordsChronological(rs[1..], u);
      var tail := UserRecords(rs[1..], u);
      forall k | 0 <= k < |tail| ensures rs[0].timestamp < tail[k].timestamp {
        assert tail[k] in rs[1..];
        var j :| 0 <= j < |rs[1..]| && rs[1..][j] == tail[k];
        assert rs[j + 1] == tail[k];
      }
      assert UserRecords(rs, u) == (if rs[0].userId == u then [rs[0]] else []) + tail;
    }
  }

  /**
   * The collection after deleting the first `k` documents of user `u`
   * (all of them when `u` has fewer): the oldest `k`, as the next lemma shows.
   */
  function EvictOldest(rs: seq<Record>, u: string, k: nat): seq<Record> {
    if rs == [] then []
    else if rs[0].userId == u && k > 0 then EvictOldest(rs[1..], u, k - 1)
    else [rs[0]] + EvictOldest(rs[1..], u, k)
  }

  /** Eviction removes exactly the first `min(k, count)` of the user's documents and keeps the rest in order. */
  lemma {:induction false} EvictOldestUser(rs: seq<Record>, u: string, k: nat)
    ensures var ur := UserRecords(rs, u);
      UserRecords(EvictOldest(rs, u, k), u) == ur[Min(k, |ur|)..]
  {
    if rs != [] {
      EvictOldestUser(rs[1..], u, if rs[0].userId == u && k > 0 then k - 1 else k);
    }
  }

  /** Eviction for one user leaves every other user's documents as they were. */
  lemma {:induction false} EvictOldestOthers(rs: seq<Record>, u: string, k: nat, v: string)
    requires v != u
    ensures UserRecords(EvictOldest(rs, u, k), v) == UserRecords(rs, v)
  {
    if rs != [] {
      EvictOldestOthers(rs[1..], u, if rs[0].userId == u && k > 0 then k - 1 else k, v);
    }
  }

  /** Eviction only deletes: what remains comes from the collection and keeps its order. */
  lemma {:induction false} EvictOldestSubsequence(rs: seq<Record>, u: string, k: nat)
    ensures forall x :: x in EvictOldest(rs, u, k) ==> x in rs
    ensures Chronological(rs) ==> Chronological(EvictOldest(rs, u, k))
  {
    if rs != [] {
      var k' := if rs[0].userId == u && k > 0 then k - 1 else k;
      EvictOldestSubsequence(rs[1..], u, k');
      var tail := EvictOldest(rs[1..], u, k');
      if Chronological(rs) && !(rs[0].userId == u && k > 0) {
        forall j | 0 <= j < |tail| ensures rs[0].timestamp < tail[j].timestamp {
          assert tail[j] in rs[1..];
          var m :| 0 <= m < |rs[1..]| && rs[1..][m] == tail[j];
          assert rs[m + 1] == tail[j];
        }
        assert EvictOldest(rs, u, k) == [rs[0]] + tail;
      }
    }
  }

  /**
   * In a chronological collection every evicted document is older than every
   * document the user keeps: eviction is oldest-first by timestamp.
   */
  lemma EvictedAreOldest(rs: seq<Record>, u: string, k: nat)
    requires Chronological(rs)
    ensures var ur := UserRecords(rs, u); var m := Min(k, |ur|);
      var kept := UserRecords(EvictOldest(rs, u, k), u);
      forall i, j :: 0 <= i < m && 0 <= j < |kept| ==> ur[i].timestamp < kept[j].timestamp
  {
    var ur := UserRecords(rs, u);
    var m := Min(k, |ur|);
    EvictOldestUser(rs, u, k);
    UserRecordsChronological(rs, u);
    ChronologicalPrefixFirst(ur, m);
  }

  /** In a chronological sequence, every document before position `m` is older than every one from `m` on. */
  lemma ChronologicalPrefixFirst(rs: seq<Record>, m: nat)
    requires Chronological(rs) && m <= |rs|
    ensures forall i, j :: 0 <= i < m && 0 <= j < |rs[m..]| ==> rs[i].timestamp < rs[m..][j].timestamp
  {
    forall i, j | 0 <= i < m && 0 <= j < |rs[m..]| ensures rs[i].timestamp < rs[m..][j].timestamp {
      assert rs[m..][j] == rs[m + j];
    }
  }

  /** Deleting all of a user's documents: `delete_many({'user_id': u})`. */
  function RemoveUser(rs: seq<Record>, u: string): seq<Record> {
    EvictOldest(rs, u, |rs|)
  }

  /** After clearing, the user has no documents and every other user's are untouched. */
  lemma RemoveUserEffect(rs: seq<Record>, u: string, v: string)
    ensures UserRecords(RemoveUser(rs, u), u) == []
    ensures v != u ==> UserRecords(RemoveUser(rs, u), v) == UserRecords(rs, v)
  {
    EvictOldestUser(rs, u, |rs|);
    if v != u {
      EvictOldestOthers(rs, u, |rs|, v);
    }
  }

  /**
   * The collection after `add_to_history` stored `rec`: the document is
   * inserted, its user's documents are counted, and when the count exceeds
   * `maxHistory` the oldest `count - maxHistory` of them are deleted.
   */
  function AddRecord(rs: seq<Record>, rec: Record, maxHistory: int): seq<Record> {
    var inserted := rs + [rec];
    var count := |UserRecords(inserted, rec.userId)|;
    if count > maxHistory then EvictOldest(inserted, rec.userId, count - maxHistory) else inserted
  }

  /**
   * After an insertion the user holds the previous documents plus the new one,
   * minus the oldest excess; so their count is `min(count, maxHistory)` (zero
   * for a negative cap), and the new document survives whenever the cap is
   * at least one.
   */
  lemma AddRecordUser(rs: seq<Record>, rec: Record, maxHistory: int)
    ensures var before := UserRecords(rs, rec.userId) + [rec];
      var after := UserRecords(AddRecord(rs, rec, maxHistory), rec.userId);
      var excess := if |before| <= maxHistory then 0 else Min(|before| - maxHistory, |before|);
      && after == before[excess..]
      && |after| == (if |before| <= maxHistory then |before| else Max(maxHistory, 0))
      && (maxHistory >= 1 ==> after != [] && after[|after| - 1] == rec)
  {
    UserRecordsAppend(rs, rec, rec.userId);
    var inserted := rs + [rec];
    var before := UserRecords(inserted, rec.userId);
    if |before| > maxHistory {
      EvictOldestUser(inserted, rec.userId, |before| - maxHistory);
    }
  }

  /** An insertion for one user leaves every other user's documents as they were. */
  lemma AddRecordOthers(rs: seq<Record>, rec: Record, maxHistory: int, v: string)
    requires v != rec.userId
    ensures UserRecords(AddRecord(rs, rec, maxHistory), v) == UserRecords(rs, v)
  {
    UserRecordsAppend(rs, rec, v);
    var inserted := rs + [rec];
    var count := |UserRecords(inserted, rec.userId)|;
    if count > maxHistory {
      EvictOldestOthers(inserted, rec.userId, count - maxHistory, v);
    }
  }

  /** An insertion stamped later than every stored document keeps the collection chronological. */
  lemma AddRecordChronological(rs: seq<Record>, rec: Record, maxHistory: int)
    requires Chronological(rs)
    requires forall x :: x in rs ==> x.timestamp < rec.timestamp
    ensures Chronological(AddRecord(rs, rec, maxHistory))
    ensures forall x :: x in AddRecord(rs, rec, maxHistory) ==> x in rs + [rec]
  {
    var inserted := rs + [rec];
    assert Chronological(inserted) by {
      forall i, j | 0 <= i < j < |inserted| ensures inserted[i].timestamp < inserted[j].timestamp {
        assert inserted[i] == rs[i];
        if j == |rs| {
          assert inserted[j] == rec && rs[i] in rs;
        } else {
          assert inserted[j] == rs[j];
        }
      }
    }
    var count := |UserRecords(inserted, rec.userId)|;
    if count > maxHistory {
      EvictOldestSubsequence(inserted, rec.userId, count - maxHistory);
    }
  }

  /** `list.reverse()`. */
  function Reverse<T>(s: seq<T>): (r: seq<T>)
    ensures |r| == |s|
  {
    seq(|s|, i requires 0 <= i < |s| => s[|s| - 1 - i])
  }

  /**
   * The exchanges `get_context_for_prompt` renders: the user's documents
   * sorted newest first, limited to `n`, then reversed into chronological order.
   */
  function RecentExchanges(rs: seq<Record>, u: string, n: nat): seq<Record> {
    var ur := UserRecords(rs, u);
    Reverse(Reverse(ur)[..Min(n, |ur|)])
  }

  /** Taking the first `m` of the reversal and reversing back gives the last `m`. */
  lemma ReverseTakeReverse<T>(s: seq<T>, m: nat)
    requires m <= |s|
    ensures Reverse(Reverse(s)[..m]) == s[|s| - m..]
  {
    var newest := Reverse(s)[..m];
    forall i | 0 <= i < m ensures Reverse(newest)[i] == s[|s| - m + i] {
      assert Reverse(newest)[i] == newest[m - 1 - i];
    }
  }

  /** They are the user's last `min(n, count)` documents, oldest first. */
  lemma RecentAreLatest(rs: seq<Record>, u: string, n: nat)
    ensures var ur := UserRecords(rs, u);
      RecentExchanges(rs, u, n) == ur[|ur| - Min(n, |ur|)..]
  {
    var ur := UserRecords(rs, u);
    ReverseTakeReverse(ur, Min(n, |ur|));
  }

  /** One `key: value` line of the permanent context. */
  function ContextLine(entry: (string, string)): string {
    entry.0 + ": " + entry.1 + "\n"
  }

  function ContextLines(pc: Dict<string, string>): string {
    if pc == [] then "" else ContextLines(pc[..|pc| - 1]) + ContextLine(pc[|pc| - 1])
  }

  /** One exchange as rendered into a prompt. */
  function ExchangeLines(x: Record): string {
    "User: " + x.message + "\nAssistant: " + x.response + "\n"
  }

  lemma ContextLinesSnoc(pc: Dict<string, string>, i: nat)
    requires i < |pc|
    ensures ContextLines(pc[..i + 1]) == ContextLines(pc[..i]) + ContextLine(pc[i])
  {
    assert pc[..i + 1][..i] == pc[..i];
  }

  function HistoryLines(xs: seq<Record>): string {
    if xs == [] then "" else HistoryLines(xs[..|xs| - 1]) + ExchangeLines(xs[|xs| - 1])
  }

  lemma HistoryLinesSnoc(xs: seq<Record>, j: nat)
    requires j < |xs|
    ensures HistoryLines(xs[..j + 1]) == HistoryLines(xs[..j]) + ExchangeLines(xs[j])
  {
    assert xs[..j + 1][..j] == xs[..j];
  }

  const ContextHeader: string := "Permanent Context:\n"
  const HistoryHeader: string := "\nRecent Conversation History:\n"

  /** The context text for a permanent-context dictionary and a list of exchanges. */
  function PromptContext(pc: Dict<string, string>, recent: seq<Record>): string {
    ContextHeader + ContextLines(pc) + HistoryHeader + HistoryLines(recent)
  }

  /** Appends one `key: value` line per permanent fact, in insertion order. */
  method AppendContextLines(prefix: string, pc: Dict<string, string>) returns (context: string)
    ensures context == prefix + ContextLines(pc)
  {
    context := prefix;
    var i := 0;
    while i < |pc|
      invariant i <= |pc|
      invariant context == prefix + ContextLines(pc[..i])
    {
      ContextLinesSnoc(pc, i);
      context := context + ContextLine(pc[i]);
      i := i + 1;
    }
    assert pc[..i] == pc;
  }

  /** Appends the lines of each exchange, in order. */
  method AppendHistoryLines(prefix: string, xs: seq<Record>) returns (context: string)
    ensures context == prefix + HistoryLines(xs)
  {
    context := prefix;
    var j := 0;
    while j < |xs|
      invariant j <= |xs|
      invariant context == prefix + HistoryLines(xs[..j])
    {
      HistoryLinesSnoc(xs, j);
      context := context + ExchangeLines(xs[j]);
      j := j + 1;
    }
    assert xs[..j] == xs;
  }

  class ChatManager {
    var maxHistory: int
    var permanentContext: Dict<string, string>
    var conversations: seq<Record>
    /** The timestamp the next insertion receives; stands for `datetime.utcnow()`. */
    var clock: nat

    ghost predicate Valid()
      reads this
    {
      && UniqueKeys(permanentContext)
      && Chronological(conversations)
      && forall x :: x in conversations ==> x.timestamp < clock
    }

    constructor (maxHistory: int := DefaultMaxHistory)
      ensures Valid()
      ensures this.maxHistory == maxHistory && permanentContext == [] && conversations == []
    {
      this.maxHistory := maxHistory;
      permanentContext := [];
      conversations := [];
      clock := 0;
    }

    /** Sets or overwrites one permanent fact. */
    method AddPermanentInfo(key: string, value: string)
      requires Valid()
      modifies this`permanentContext
      ensures Valid()
      ensures permanentContext == Put(old(permanentContext), key, value)
    {
      PutShape(permanentContext, key, value);
      permanentContext := Put(permanentContext, key, value);
    }

    /** Stores one exchange, then trims the user's documents to `maxHistory`. */
    method AddToHistory(userId: string, message: string, response: string)
      requires Valid()
      modifies this`conversations, this`clock
      ensures Valid()
      ensures conversations == AddRecord(old(conversations), Record(userId, message, response, old(clock)), maxHistory)
    {
      var record := Record(userId, message, response, clock);
      AddRecordChronological(conversations, record, maxHistory);
      conversations := conversations + [record];
      clock := clock + 1;
      var count := |UserRecords(conversations, userId)|;
      if count > maxHistory {
        var toDelete := count - maxHistory;
        conversations := EvictOldest(conversations, userId, toDelete);
      }
    }

    /** Builds the context text: the permanent facts, then the user's five latest exchanges. */
    method GetContextForPrompt(userId: string) returns (context: string)
      ensures context == PromptContext(permanentContext, RecentExchanges(conversations, userId, RecentCount))
    {
      context := ContextHeader;
      context := AppendContextLines(context, permanentContext);
      context := context + HistoryHeader;
      var recent := RecentExchanges(conversations, userId, RecentCount);
      context := AppendHistoryLines(context, recent);
    }

    /** Deletes every document of one user. */
    method ClearUserHistory(userId: string)
      requires Valid()
      modifies this`conversations
      ensures Valid()
      ensures conversations == RemoveUser(old(conversations), userId)
    {
      EvictOldestSubsequence(conversations, userId, |conversations|);
      conversations := RemoveUser(conversations, userId);
    }
  }
}
