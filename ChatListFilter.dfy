/**
 * The chat feed: each update of the two live queries (group chats created by
 * the user, private chats whose first participant is the user) is tagged with
 * its type, concatenated group-first and sorted by `lastMessageAt`, newest
 * first, with a stable sort. Also the filter drop-down's title-to-type mapping.
 */
module ChatListFilter {
  import opened Common
  import ChatUtil

  // `ChatTitle`: the filter's option labels.
  const TitleAll := "All Chats"
  const TitleGroup := "Group Chats"
  const TitlePrivate := "Private Chats"

  /** The page size each of the two live queries is limited to. */
  const BatchSize := 10

  /** One document of a snapshot: the document id and its stored data. */
  datatype ChatDoc = ChatDoc(docId: string, data: StoredChat)

  /** What one merge publishes: the type to show (always "all") and the merged feed. */
  datatype FeedUpdate = FeedUpdate(chatType: string, chats: seq<Chat>)

  // ---------------------------------------------------------------------------
  // Option selection
  // ---------------------------------------------------------------------------

  /** The title a chat type is shown under. */
  function TitleOf(chatType: string): string
    requires chatType in {ChatTypeAll, ChatTypeGroup, ChatTypePrivate}
  {
    if chatType == ChatTypeGroup then TitleGroup
    else if chatType == ChatTypePrivate then TitlePrivate
    else TitleAll
  }

  /** `handleOptionSelected`: the chat type an option's label selects; any unknown label selects all. */
  function ChatTypeForTitle(title: string): (t: string)
    ensures t == ChatTypePrivate <==> title == TitlePrivate
    ensures t == ChatTypeGroup <==> title == TitleGroup
    ensures t == ChatTypeAll <==> title != TitlePrivate && title != TitleGroup
  {
    if title == TitlePrivate then ChatTypePrivate
    else if title == TitleGroup then ChatTypeGroup
    else ChatTypeAll
  }

  /** Selecting the option shown for a type selects that type again. */
  lemma TitleRoundTrip(chatType: string)
    requires chatType in {ChatTypeAll, ChatTypeGroup, ChatTypePrivate}
    ensures ChatTypeForTitle(TitleOf(chatType)) == chatType
  {
  }

  // ---------------------------------------------------------------------------
  // Snapshot mapping
  // ---------------------------------------------------------------------------

  /**
   * The snapshot mapping: every document becomes a chat with the document's id
   * and the given type; the stored `_id` and any stored `type` are dropped and
   * every other field is kept.
   */
  function TagChats(docs: seq<ChatDoc>, tag: string): (r: seq<Chat>)
    ensures |r| == |docs|
    ensures forall i :: 0 <= i < |docs| ==>
      r[i].id == docs[i].docId && r[i].chatType == tag && r[i].fields == docs[i].data.fields
  {
    seq(|docs|, i requires 0 <= i < |docs| => Chat(docs[i].docId, tag, docs[i].data.fields))
  }

  /** A stored chat is in the user's group query: a group the user created. */
  predicate InGroupQuery(doc: StoredChat, userId: string) {
    doc.fields.membership.GroupMembers? && doc.fields.membership.createdBy == userId
  }

  /** A stored chat is in the user's private query: a pair whose first participant is the user. */
  predicate InPrivateQuery(doc: StoredChat, userId: string) {
    doc.fields.membership.PrivatePair? && doc.fields.membership.userId1 == userId
  }

  /**
   * A chat room `createChatRoom` makes is picked up by its creator's feed, and
   * the feed's mapping of its stored document gives back the same chat.
   */
  lemma CreatedRoomInCreatorsFeed(chatType: string, message: string, user1: User, user2: User,
                                  now: int, newDocId: string)
    requires ChatUtil.CreateChatRoom(chatType, message, user1, user2, now, newDocId).Some?
    ensures var chat := ChatUtil.CreateChatRoom(chatType, message, user1, user2, now, newDocId).value;
            var doc := ChatUtil.StoredDocument(chat);
            (chatType == ChatTypeGroup ==> InGroupQuery(doc, user1.id)) &&
            (chatType == ChatTypePrivate ==> InPrivateQuery(doc, user1.id)) &&
            TagChats([ChatDoc(newDocId, doc)], chatType) == [chat]
  {
  }

  // ---------------------------------------------------------------------------
  // Merge and sort
  // ---------------------------------------------------------------------------

  function Recency(c: Chat): int {
    c.fields.lastMessageAt
  }

  /** Newest first: `lastMessageAt` never increases along the sequence. */
  ghost predicate SortedByRecency(s: seq<Chat>) {
    forall i, j :: 0 <= i < j < |s| ==> Recency(s[i]) >= Recency(s[j])
  }

  /** A chat at least as recent as every chat of a sorted sequence can go in front of it. */
  lemma PrependSorted(y: Chat, s: seq<Chat>)
    requires SortedByRecency(s)
    requires forall z :: z in s ==> Recency(y) >= Recency(z)
    ensures SortedByRecency([y] + s)
  {
    var r := [y] + s;
    forall i, j | 0 <= i < j < |r| ensures Recency(r[i]) >= Recency(r[j]) {
      assert r[j] == s[j - 1];
      if i > 0 {
        assert r[i] == s[i - 1];
      }
    }
  }

  /** Places `x` after every chat at least as recent, so a later chat follows its ties. */
  function InsertByRecency(x: Chat, s: seq<Chat>): seq<Chat>
    decreases |s|
  {
    if s == [] then [x]
    else if Recency(s[0]) >= Recency(x) then [s[0]] + InsertByRecency(x, s[1..])
    else [x] + s
  }

  /** Inserting adds exactly `x`. */
  lemma {:induction false} InsertPermutes(x: Chat, s: seq<Chat>)
    ensures multiset(InsertByRecency(x, s)) == multiset(s) + multiset{x}
    decreases |s|
  {
    if s != [] && Recency(s[0]) >= Recency(x) {
      InsertPermutes(x, s[1..]);
      assert s == [s[0]] + s[1..];
    }
  }

  /** Inserting into a sequence sorted newest first keeps it sorted. */
  lemma {:induction false} InsertSorted(x: Chat, s: seq<Chat>)
    requires SortedByRecency(s)
    ensures SortedByRecency(InsertByRecency(x, s))
    decreases |s|
  {
    if s == [] {
    } else if Recency(s[0]) >= Recency(x) {
      var rest := InsertByRecency(x, s[1..]);
      InsertSorted(x, s[1..]);
      InsertPermutes(x, s[1..]);
      forall z | z in rest ensures Recency(s[0]) >= Recency(z) {
        assert z in multiset(rest);
        if z != x {
          assert z in multiset(s[1..]);
          var j :| 0 <= j < |s[1..]| && s[1..][j] == z;
          assert s[j + 1] == z;
        }
      }
      PrependSorted(s[0], rest);
    } else {
      forall z | z in s ensures Recency(x) >= Recency(z) {
        var j :| 0 <= j < |s| && s[j] == z;
        assert Recency(s[0]) >= Recency(s[j]);
      }
      PrependSorted(x, s);
    }
  }

  /**
   * The array sort with comparator `b.lastMessageAt - a.lastMessageAt`: newest
   * first, and stable, as JavaScript's sort is.
   */
  function SortByRecency(s: seq<Chat>): seq<Chat>
    decreases |s|
  {
    if s == [] then [] else InsertByRecency(s[|s| - 1], SortByRecency(s[..|s| - 1]))
  }

  /** The sort's result is sorted newest first and a permutation of its input. */
  lemma {:induction false} SortCorrect(s: seq<Chat>)
    ensures SortedByRecency(SortByRecency(s))
    ensures multiset(SortByRecency(s)) == multiset(s)
    decreases |s|
  {
    if s != [] {
      var init, last := s[..|s| - 1], s[|s| - 1];
      SortCorrect(init);
      InsertSorted(last, SortByRecency(init));
      InsertPermutes(last, SortByRecency(init));
      assert init + [last] == s;
    }
  }

  /** The chats of `s` whose `lastMessageAt` is `k`, in their order in `s`. */
  function WithRecency(s: seq<Chat>, k: int): seq<Chat> {
    if s == [] then [] else (if Recency(s[0]) == k then [s[0]] else []) + WithRecency(s[1..], k)
  }

  lemma WithRecencyCons(x: Chat, s: seq<Chat>, k: int)
    ensures WithRecency([x] + s, k) == (if Recency(x) == k then [x] else []) + WithRecency(s, k)
  {
    assert ([x] + s)[0] == x;
    assert ([x] + s)[1..] == s;
  }

  lemma {:induction false} WithRecencyConcat(a: seq<Chat>, b: seq<Chat>, k: int)
    ensures WithRecency(a + b, k) == WithRecency(a, k) + WithRecency(b, k)
    decreases |a|
  {
    if a == [] {
      assert a + b == b;
    } else {
      var x, rest := a[0], a[1..];
      var head := if Recency(x) == k then [x] else [];
      assert a == [x] + rest;
      assert a + b == [x] + (rest + b);
      WithRecencyCons(x, rest + b, k);
      WithRecencyCons(x, rest, k);
      WithRecencyConcat(rest, b, k);
      assert head + (WithRecency(rest, k) + WithRecency(b, k))
          == (head + WithRecency(rest, k)) + WithRecency(b, k);
    }
  }

  lemma {:induction false} WithRecencyAbsent(s: seq<Chat>, k: int)
    requires forall y :: y in s ==> Recency(y) != k
    ensures WithRecency(s, k) == []
    decreases |s|
  {
    if s != [] {
      assert s[0] in s;
      WithRecencyAbsent(s[1..], k);
    }
  }

  /** The tail of a sorted sequence is sorted. */
  lemma SortedTail(s: seq<Chat>)
    requires s != [] && SortedByRecency(s)
    ensures SortedByRecency(s[1..])
  {
    forall i, j | 0 <= i < j < |s[1..]| ensures Recency(s[1..][i]) >= Recency(s[1..][j]) {
      assert s[1..][i] == s[i + 1] && s[1..][j] == s[j + 1];
    }
  }

  /** A chat newer than the head of a sorted sequence is newer than all of it. */
  lemma NewerThanAll(x: Chat, s: seq<Chat>)
    requires s != [] && SortedByRecency(s) && Recency(s[0]) < Recency(x)
    ensures forall y :: y in s ==> Recency(y) != Recency(x)
  {
    forall y | y in s ensures Recency(y) != Recency(x) {
      var j :| 0 <= j < |s| && s[j] == y;
      assert Recency(s[0]) >= Recency(s[j]);
    }
  }

  /** Inserting keeps the order among ties and puts the inserted chat after them. */
  lemma {:induction false} InsertStable(x: Chat, s: seq<Chat>, k: int)
    requires SortedByRecency(s)
    ensures WithRecency(InsertByRecency(x, s), k) == WithRecency(s, k) + WithRecency([x], k)
    decreases |s|
  {
    if s == [] {
      assert InsertByRecency(x, s) == [x];
      assert WithRecency(s, k) == [];
    } else if Recency(s[0]) >= Recency(x) {
      var rest := InsertByRecency(x, s[1..]);
      assert InsertByRecency(x, s) == [s[0]] + rest;
      WithRecencyConcat([s[0]], rest, k);
      SortedTail(s);
      InsertStable(x, s[1..], k);
      WithRecencyConcat([s[0]], s[1..], k);
      assert [s[0]] + s[1..] == s;
    } else {
      assert InsertByRecency(x, s) == [x] + s;
      WithRecencyConcat([x], s, k);
      if k == Recency(x) {
        NewerThanAll(x, s);
        WithRecencyAbsent(s, k);
      }
    }
  }

  /** Stability: for every timestamp, the chats sharing it keep their input order. */
  lemma {:induction false} SortStable(s: seq<Chat>, k: int)
    ensures WithRecency(SortByRecency(s), k) == WithRecency(s, k)
    decreases |s|
  {
    if s != [] {
      var init, last := s[..|s| - 1], s[|s| - 1];
      var sortedInit := SortByRecency(init);
      assert SortByRecency(s) == InsertByRecency(last, sortedInit);
      SortCorrect(init);
      InsertStable(last, sortedInit, k);
      SortStable(init, k);
      assert init + [last] == s;
      WithRecencyConcat(init, [last], k);
    }
  }

  /** The merge of one update: group chats then private chats, sorted newest first. */
  function MergeChats(groupChats: seq<Chat>, privateChats: seq<Chat>): (r: seq<Chat>)
    ensures SortedByRecency(r)
    ensures multiset(r) == multiset(groupChats) + multiset(privateChats)
    ensures |r| == |groupChats| + |privateChats|
  {
    var merged := SortByRecency(groupChats + privateChats);
    SortCorrect(groupChats + privateChats);
    assert |merged| == |multiset(merged)| == |multiset(groupChats + privateChats)|;
    merged
  }

  /** Ties keep their concatenation order: group chats before private chats. */
  lemma MergeKeepsTieOrder(groupChats: seq<Chat>, privateChats: seq<Chat>, k: int)
    ensures WithRecency(MergeChats(groupChats, privateChats), k) ==
            WithRecency(groupChats, k) + WithRecency(privateChats, k)
  {
    SortStable(groupChats + privateChats, k);
    WithRecencyConcat(groupChats, privateChats, k);
  }

  /**
   * One update of the feed: the group snapshot tagged "group", the private
   * snapshot tagged "private", merged; published together with the type "all".
   * Every document of either snapshot appears exactly once, with its type.
   */
  function FeedOnSnapshot(groupDocs: seq<ChatDoc>, privateDocs: seq<ChatDoc>): (u: FeedUpdate)
    ensures u.chatType == ChatTypeAll
    ensures SortedByRecency(u.chats)
    ensures multiset(u.chats) == multiset(TagChats(groupDocs, ChatTypeGroup)) + multiset(TagChats(privateDocs, ChatTypePrivate))
    ensures |u.chats| == |groupDocs| + |privateDocs|
  {
    var groupChats := TagChats(groupDocs, ChatTypeGroup);
    var privateChats := TagChats(privateDocs, ChatTypePrivate);
    FeedUpdate(ChatTypeAll, MergeChats(groupChats, privateChats))
  }

  /** Every chat of the feed is a group or a private chat. */
  lemma FeedChatsTyped(groupDocs: seq<ChatDoc>, privateDocs: seq<ChatDoc>)
    ensures forall c :: c in FeedOnSnapshot(groupDocs, privateDocs).chats ==>
      c.chatType == ChatTypeGroup || c.chatType == ChatTypePrivate
  {
    var u := FeedOnSnapshot(groupDocs, privateDocs);
    forall c | c in u.chats ensures c.chatType == ChatTypeGroup || c.chatType == ChatTypePrivate {
      assert c in multiset(u.chats);
      if c in multiset(TagChats(groupDocs, ChatTypeGroup)) {
        assert c in TagChats(groupDocs, ChatTypeGroup);
      } else {
        assert c in TagChats(privateDocs, ChatTypePrivate);
      }
    }
  }

  /** With both queries limited to `BatchSize`, the feed holds at most twice that many chats. */
  lemma FeedBounded(groupDocs: seq<ChatDoc>, privateDocs: seq<ChatDoc>)
    requires |groupDocs| <= BatchSize && |privateDocs| <= BatchSize
    ensures |FeedOnSnapshot(groupDocs, privateDocs).chats| <= 2 * BatchSize
  {
  }
}
