/**
  `GET /api/conversations`: the caller's ten newest conversations with a display title. The
  user, conversation and message tables are sequences read in ascending `createdAt` order.
*/
module ConversationsRoute {
  import opened Wrappers
  import opened Seqs
  import opened Text
  import opened Llm
  import opened Memory

  /** One row of the user table; `clientId` is unique when present. */
  datatype UserRecord = UserRecord(id: string, clientId: Option<string>)

  /** One row of the conversation table. */
  datatype ConversationRecord = ConversationRecord(id: string, userId: string, title: Option<string>, createdAt: int)

  /** One entry of the response. */
  datatype ConversationItem = ConversationItem(id: string, createdAt: int, title: string)

  const MaxListed: nat := 10
  const TitleUnits: nat := 40

  /** `findUnique({ where: { clientId } })`. */
  function FindUserByClientId(users: seq<UserRecord>, clientId: string): (r: Option<UserRecord>)
    ensures r.Some? ==> r.value in users && r.value.clientId == Some(clientId)
    ensures r.None? <==> forall i :: 0 <= i < |users| ==> users[i].clientId != Some(clientId)
  {
    if users == [] then None
    else if users[0].clientId == Some(clientId) then Some(users[0])
    else
      var r := FindUserByClientId(users[1..], clientId);
      assert forall i :: 1 <= i < |users| ==> users[i] == users[1..][i - 1];
      r
  }

  /** The earliest message of a conversation, if it has any. */
  function FirstMessage(messages: seq<StoredMessage>, conversationId: string): (r: Option<StoredMessage>)
    ensures r.Some? ==> r.value in messages && r.value.conversationId == conversationId
    ensures r.None? <==> forall m :: m in messages ==> m.conversationId != conversationId
    ensures r.Some? && Chronological(messages) ==>
              forall m :: m in messages && m.conversationId == conversationId ==> r.value.createdAt <= m.createdAt
  {
    var own := Filter(messages, (m: StoredMessage) => m.conversationId == conversationId);
    if own == [] then
      assert forall m :: m in messages ==> m.conversationId != conversationId by {
        forall m | m in messages
          ensures m.conversationId != conversationId
        {
          assert multiset(own)[m] == 0;
        }
      }
      None
    else
      FilterMember(messages, (m: StoredMessage) => m.conversationId == conversationId, own[0]);
      assert Chronological(messages) ==>
               forall m :: m in messages && m.conversationId == conversationId ==> own[0].createdAt <= m.createdAt by {
        if Chronological(messages) {
          FilterSorted(messages, (m: StoredMessage) => m.conversationId == conversationId, (m: StoredMessage) => m.createdAt);
          forall m | m in messages && m.conversationId == conversationId
            ensures own[0].createdAt <= m.createdAt
          {
            assert multiset(own)[m] == multiset(messages)[m];
            var k :| 0 <= k < |own| && own[k] == m;
          }
        }
      }
      Some(own[0])
  }

  /** The title chain `c.title ?? c.messages[0]?.content?.slice(0, 40) ?? fallback`: a stored title
      wins, even when empty; otherwise the longest prefix of the first message that fits in forty
      UTF-16 units; otherwise the untitled text. */
  function DisplayTitle(c: ConversationRecord, messages: seq<StoredMessage>): (r: string)
    ensures c.title.Some? ==> r == c.title.value
    ensures c.title.None? && FirstMessage(messages, c.id).Some? ==>
      var content := FirstMessage(messages, c.id).value.content;
      && StartsWith(content, r)
      && Utf16Length(r) <= TitleUnits
      && (Utf16Length(content) <= TitleUnits ==> r == content)
      && (|r| < |content| ==> Utf16Length(r) + Utf16Units(content[|r|]) > TitleUnits)
    ensures c.title.None? && FirstMessage(messages, c.id).None? ==> r == FallbackTitle
  {
    match c.title
    case Some(t) => t
    case None =>
      match FirstMessage(messages, c.id)
      case Some(m) => Utf16Prefix(m.content, TitleUnits)
      case None => FallbackTitle
  }

  function ItemOf(c: ConversationRecord, messages: seq<StoredMessage>): (r: ConversationItem)
    ensures r.id == c.id && r.createdAt == c.createdAt
    ensures r.title == DisplayTitle(c, messages)
  {
    ConversationItem(c.id, c.createdAt, DisplayTitle(c, messages))
  }

  /** The user's conversations, newest first, at most ten. */
  function NewestOwned(conversations: seq<ConversationRecord>, userId: string): (r: seq<ConversationRecord>)
    ensures var owned := Filter(conversations, (c: ConversationRecord) => c.userId == userId);
      && |r| == Min(MaxListed, |owned|)
      && forall i :: 0 <= i < |r| ==> r[i] == owned[|owned| - 1 - i]
  {
    var owned := Filter(conversations, (c: ConversationRecord) => c.userId == userId);
    Take(Reverse(owned), MaxListed)
  }

  /** `GET`: nothing for a missing or empty `x-client-id` header or an unknown client; otherwise
      the user's ten newest conversations, each with its id, creation time and display title. */
  function ListConversations(clientHeader: Option<string>, users: seq<UserRecord>,
                             conversations: seq<ConversationRecord>, messages: seq<StoredMessage>)
    : (r: seq<ConversationItem>)
    ensures clientHeader.None? || clientHeader == Some("") ==> r == []
    ensures clientHeader.Some? && FindUserByClientId(users, clientHeader.value).None? ==> r == []
    ensures |r| <= MaxListed
    ensures clientHeader.Some? && clientHeader.value != "" && FindUserByClientId(users, clientHeader.value).Some? ==>
      var owner := FindUserByClientId(users, clientHeader.value).value;
      var listed := NewestOwned(conversations, owner.id);
      && |r| == |listed|
      && forall i :: 0 <= i < |r| ==> r[i] == ItemOf(listed[i], messages)
  {
    if clientHeader.None? || clientHeader.value == "" then []
    else
      match FindUserByClientId(users, clientHeader.value)
      case None => []
      case Some(owner) =>
        var listed := NewestOwned(conversations, owner.id);
        seq(|listed|, i requires 0 <= i < |listed| => ItemOf(listed[i], messages))
  }

  /** Every conversation `NewestOwned` picks is in the table and belongs to the user. */
  lemma NewestAreOwned(conversations: seq<ConversationRecord>, userId: string)
    ensures forall i :: 0 <= i < |NewestOwned(conversations, userId)| ==>
              NewestOwned(conversations, userId)[i] in conversations
              && NewestOwned(conversations, userId)[i].userId == userId
  {
    var p := (c: ConversationRecord) => c.userId == userId;
    var owned := Filter(conversations, p);
    var r := NewestOwned(conversations, userId);
    forall i | 0 <= i < |r|
      ensures r[i] in conversations && r[i].userId == userId
    {
      FilterMember(conversations, p, owned[|owned| - 1 - i]);
    }
  }

  /** Every listed conversation belongs to the caller. */
  lemma ListedOwned(clientId: string, users: seq<UserRecord>,
                    conversations: seq<ConversationRecord>, messages: seq<StoredMessage>)
    requires clientId != "" && FindUserByClientId(users, clientId).Some?
    ensures var owner := FindUserByClientId(users, clientId).value;
      var r := ListConversations(Some(clientId), users, conversations, messages);
      forall i :: 0 <= i < |r| ==> exists c :: c in conversations && c.userId == owner.id && c.id == r[i].id
  {
    var owner := FindUserByClientId(users, clientId).value;
    var listed := NewestOwned(conversations, owner.id);
    NewestAreOwned(conversations, owner.id);
    var r := ListConversations(Some(clientId), users, conversations, messages);
    assert |r| == |listed| && forall i :: 0 <= i < |r| ==> r[i] == ItemOf(listed[i], messages);
    forall i | 0 <= i < |r|
      ensures exists c :: c in conversations && c.userId == owner.id && c.id == r[i].id
    {
      var c := listed[i];
      assert c in conversations && c.userId == owner.id && c.id == r[i].id;
    }
  }

  /** With the table in creation order, `NewestOwned` runs newest first. */
  lemma NewestDescending(conversations: seq<ConversationRecord>, userId: string)
    requires SortedBy(conversations, (c: ConversationRecord) => c.createdAt)
    ensures forall i, j :: 0 <= i < j < |NewestOwned(conversations, userId)| ==>
              NewestOwned(conversations, userId)[i].createdAt >= NewestOwned(conversations, userId)[j].createdAt
  {
    var p := (c: ConversationRecord) => c.userId == userId;
    var owned := Filter(conversations, p);
    FilterSorted(conversations, p, (c: ConversationRecord) => c.createdAt);
    var r := NewestOwned(conversations, userId);
    forall i, j | 0 <= i < j < |r|
      ensures r[i].createdAt >= r[j].createdAt
    {
      assert r[i] == owned[|owned| - 1 - i];
      assert r[j] == owned[|owned| - 1 - j];
    }
  }

  /** With the table in creation order, the list runs newest first. */
  lemma ListedNewestFirst(clientId: string, users: seq<UserRecord>,
                          conversations: seq<ConversationRecord>, messages: seq<StoredMessage>)
    requires clientId != "" && FindUserByClientId(users, clientId).Some?
    requires SortedBy(conversations, (c: ConversationRecord) => c.createdAt)
    ensures var r := ListConversations(Some(clientId), users, conversations, messages);
      forall i, j :: 0 <= i < j < |r| ==> r[i].createdAt >= r[j].createdAt
  {
    var owner := FindUserByClientId(users, clientId).value;
    var listed := NewestOwned(conversations, owner.id);
    NewestDescending(conversations, owner.id);
    var r := ListConversations(Some(clientId), users, conversations, messages);
    assert |r| == |listed| && forall i :: 0 <= i < |r| ==> r[i] == ItemOf(listed[i], messages);
    forall i, j | 0 <= i < j < |r|
      ensures r[i].createdAt >= r[j].createdAt
    {
      assert r[i].createdAt == listed[i].createdAt && r[j].createdAt == listed[j].createdAt;
    }
  }

  /** A caller with at most ten conversations sees all of them. */
  lemma FewConversationsAllListed(clientId: string, users: seq<UserRecord>,
                                  conversations: seq<ConversationRecord>, messages: seq<StoredMessage>)
    requires clientId != "" && FindUserByClientId(users, clientId).Some?
    requires |Filter(conversations, (c: ConversationRecord) => c.userId == FindUserByClientId(users, clientId).value.id)| <= MaxListed
    ensures var owner := FindUserByClientId(users, clientId).value;
      |ListConversations(Some(clientId), users, conversations, messages)|
        == |Filter(conversations, (c: ConversationRecord) => c.userId == owner.id)|
  {
  }

  /** An untitled conversation without messages shows the untitled text; one whose first message
      is short shows that message whole. */
  lemma TitleFallbacks(c: ConversationRecord, messages: seq<StoredMessage>)
    requires c.title.None?
    ensures (forall m :: m in messages ==> m.conversationId != c.id) ==> DisplayTitle(c, messages) == FallbackTitle
    ensures FirstMessage(messages, c.id).Some? && Utf16Length(FirstMessage(messages, c.id).value.content) <= TitleUnits ==>
              DisplayTitle(c, messages) == FirstMessage(messages, c.id).value.content
  {
  }
}
