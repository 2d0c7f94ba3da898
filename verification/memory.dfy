/**
  The message store and the two history queries over it. The store is the message table as
  a sequence read in ascending `createdAt` order; a `where userId` clause is `Filter`, a
  descending read is `Reverse`, and `take` is `Take`.
*/
module Memory {
  import opened Wrappers
  import opened Seqs
  import opened ChatTypes

  /** One row of the message table. */
  datatype StoredMessage = StoredMessage(
    id: string,
    userId: string,
    conversationId: string,
    role: StoredRole,
    content: string,
    createdAt: int,
    source: Option<string>)

  /** The table, oldest first: each message is no newer than the ones after it. */
  predicate Chronological(store: seq<StoredMessage>) {
    SortedBy(store, (m: StoredMessage) => m.createdAt)
  }

  /** `where: { userId }`. */
  function OwnedBy(store: seq<StoredMessage>, userId: string): (r: seq<StoredMessage>)
    ensures forall i :: 0 <= i < |r| ==> r[i].userId == userId
    ensures forall m :: m in store && m.userId == userId ==> m in r
    ensures forall m :: m in r ==> m in store
    ensures IsSubsequence(r, store)
    ensures forall m {:trigger multiset(r)[m]} :: multiset(r)[m] == if m.userId == userId then multiset(store)[m] else 0
  {
    var r := Filter(store, (m: StoredMessage) => m.userId == userId);
    assert forall m :: m in store && m.userId == userId ==> m in r by {
      forall m | m in store && m.userId == userId
        ensures m in r
      {
        assert multiset(r)[m] == multiset(store)[m];
      }
    }
    assert forall m :: m in r ==> m in store by {
      forall m | m in r
        ensures m in store
      {
        FilterMember(store, (m: StoredMessage) => m.userId == userId, m);
      }
    }
    r
  }

  /** The owner's messages are in chronological order whenever the table is. */
  lemma OwnedChronological(store: seq<StoredMessage>, userId: string)
    requires Chronological(store)
    ensures Chronological(OwnedBy(store, userId))
  {
    FilterSorted(store, (m: StoredMessage) => m.userId == userId, (m: StoredMessage) => m.createdAt);
  }

  /** `MAX_CONTEXT_MESSAGES`. */
  const MaxContextMessages: nat := 15

  /** A stored message as a prompt message: role mapped, content unchanged. */
  function AsChatMessage(m: StoredMessage): (r: ChatMessage)
    ensures r.content == m.content
    ensures r.role == User <==> m.role == USER
    ensures r.role != System
  {
    ChatMessage(ChatRoleOf(m.role), m.content)
  }

  /** The rows `getConversationContext` reads: newest first, at most fifteen, turned back to oldest first. */
  function ContextWindow(store: seq<StoredMessage>, userId: string): (r: seq<StoredMessage>)
    ensures var owned := OwnedBy(store, userId);
      && |r| == Min(MaxContextMessages, |owned|)
      && r == owned[|owned| - |r|..]
  {
    var owned := OwnedBy(store, userId);
    ReverseTakeReverse(owned, MaxContextMessages);
    Reverse(Take(Reverse(owned), MaxContextMessages))
  }

  /** `getConversationContext`: the user's last fifteen messages across all conversations, oldest
      first, as prompt messages. */
  function ConversationContext(store: seq<StoredMessage>, userId: string): (r: seq<ChatMessage>)
    ensures var owned := OwnedBy(store, userId);
      && |r| == Min(MaxContextMessages, |owned|)
      && forall i :: 0 <= i < |r| ==> r[i] == AsChatMessage(owned[|owned| - |r| + i])
  {
    var w := ContextWindow(store, userId);
    seq(|w|, i requires 0 <= i < |w| => AsChatMessage(w[i]))
  }

  /** The window holds the most recent messages: none left out is newer than any taken, and the
      window itself runs oldest first. */
  lemma ContextMostRecent(store: seq<StoredMessage>, userId: string)
    requires Chronological(store)
    ensures var owned := OwnedBy(store, userId);
      var w := ContextWindow(store, userId);
      && Chronological(w)
      && forall j, k :: 0 <= j < |owned| - |w| <= k < |owned| ==> owned[j].createdAt <= owned[k].createdAt
  {
    var owned := OwnedBy(store, userId);
    OwnedChronological(store, userId);
    var w := ContextWindow(store, userId);
    assert w == owned[|owned| - |w|..];
    forall i, j | 0 <= i < j < |w|
      ensures w[i].createdAt <= w[j].createdAt
    {
      assert w[i] == owned[|owned| - |w| + i] && w[j] == owned[|owned| - |w| + j];
    }
  }

  /** Fewer than fifteen messages: the whole history is the context. */
  lemma ShortHistoryWhole(store: seq<StoredMessage>, userId: string)
    requires |OwnedBy(store, userId)| <= MaxContextMessages
    ensures ContextWindow(store, userId) == OwnedBy(store, userId)
  {
  }

  /** One entry of `getMessageHistory`. */
  datatype HistoryItem = HistoryItem(id: string, role: Role, content: string, createdAt: int)

  function AsHistoryItem(m: StoredMessage): (r: HistoryItem)
    ensures r.id == m.id && r.content == m.content && r.createdAt == m.createdAt
    ensures r.role == User <==> m.role == USER
    ensures r.role == User || r.role == Assistant
  {
    HistoryItem(m.id, if m.role == USER then User else Assistant, m.content, m.createdAt)
  }

  /** `getMessageHistory`: every message of the user, oldest first, with id, content and
      timestamp copied and the role mapped. */
  function GetMessageHistory(store: seq<StoredMessage>, userId: string): (r: seq<HistoryItem>)
    ensures var owned := OwnedBy(store, userId);
      && |r| == |owned|
      && forall i :: 0 <= i < |r| ==> r[i] == AsHistoryItem(owned[i])
  {
    var owned := OwnedBy(store, userId);
    seq(|owned|, i requires 0 <= i < |owned| => AsHistoryItem(owned[i]))
  }

  /** Exactly the user's messages appear: each of them is in the history, and each entry comes
      from one of them. */
  lemma HistoryExactlyOwned(store: seq<StoredMessage>, userId: string)
    ensures forall m :: m in store && m.userId == userId ==> AsHistoryItem(m) in GetMessageHistory(store, userId)
    ensures forall h :: h in GetMessageHistory(store, userId) ==>
              exists m :: m in store && m.userId == userId && AsHistoryItem(m) == h
  {
    var owned := OwnedBy(store, userId);
    var r := GetMessageHistory(store, userId);
    forall m | m in store && m.userId == userId
      ensures AsHistoryItem(m) in r
    {
      var i :| 0 <= i < |owned| && owned[i] == m;
      assert r[i] == AsHistoryItem(m);
    }
    forall h | h in r
      ensures exists m :: m in store && m.userId == userId && AsHistoryItem(m) == h
    {
      var i :| 0 <= i < |r| && r[i] == h;
      assert owned[i] in owned;
    }
  }

  /** The history runs in ascending `createdAt` order. */
  lemma HistoryAscending(store: seq<StoredMessage>, userId: string)
    requires Chronological(store)
    ensures var r := GetMessageHistory(store, userId);
      forall i, j :: 0 <= i < j < |r| ==> r[i].createdAt <= r[j].createdAt
  {
    OwnedChronological(store, userId);
  }

  /** The context is the tail of the history: the same messages, as prompt messages. */
  lemma ContextIsHistoryTail(store: seq<StoredMessage>, userId: string)
    ensures var h := GetMessageHistory(store, userId);
      var c := ConversationContext(store, userId);
      && |c| == Min(MaxContextMessages, |h|)
      && forall i :: 0 <= i < |c| ==>
           c[i].content == h[|h| - |c| + i].content && (c[i].role == User <==> h[|h| - |c| + i].role == User)
  {
    var owned := OwnedBy(store, userId);
    var h := GetMessageHistory(store, userId);
    var c := ConversationContext(store, userId);
    assert |h| == |owned|;
    forall i | 0 <= i < |c|
      ensures c[i].content == h[|h| - |c| + i].content && (c[i].role == User <==> h[|h| - |c| + i].role == User)
    {
      var m := owned[|owned| - |c| + i];
      assert c[i] == AsChatMessage(m);
      assert h[|h| - |c| + i] == AsHistoryItem(m);
    }
  }
}
