/** The `chatList` of the chat relay: chats keyed by the ordered pair (receiver, sender). */
module ChatStore {
  import opened ChatTypes

  /** The chat belongs to the ordered pair (receiver, sender); the reversed pair does not match. */
  predicate IsPair(c: Chat, receiver: string, sender: string)
  {
    c.receiver == receiver && c.sender == sender
  }

  /** `chatList.some(...)` on the ordered pair. */
  predicate HasChat(chats: seq<Chat>, receiver: string, sender: string)
  {
    exists i :: 0 <= i < |chats| && IsPair(chats[i], receiver, sender)
  }

  /** At most one chat per ordered (receiver, sender) pair. */
  predicate UniquePairs(chats: seq<Chat>)
  {
    forall i, j :: 0 <= i < j < |chats| ==>
      !IsPair(chats[j], chats[i].receiver, chats[i].sender)
  }

  /** The `chatList.map(...)` of an `add-message` whose pair already exists: every chat of
      the pair gets `body` appended to its log, every other chat is returned as it was. */
  function AppendMatching(chats: seq<Chat>, receiver: string, sender: string, body: string): (r: seq<Chat>)
    ensures |r| == |chats|
    ensures forall i :: 0 <= i < |chats| && IsPair(chats[i], receiver, sender) ==>
              r[i].receiver == receiver && r[i].sender == sender &&
              r[i].messages == chats[i].messages + [body]
    ensures forall i :: 0 <= i < |chats| && !IsPair(chats[i], receiver, sender) ==> r[i] == chats[i]
    decreases |chats|
  {
    if |chats| == 0 then []
    else
      var c := chats[0];
      var head := if IsPair(c, receiver, sender) then c.(messages := c.messages + [body]) else c;
      var rest := AppendMatching(chats[1..], receiver, sender, body);
      assert forall i :: 1 <= i < |chats| ==> ([head] + rest)[i] == rest[i - 1] && chats[1..][i - 1] == chats[i];
      [head] + rest
  }

  /** The `chat-list` read: the chats whose receiver is `userId`, in store order,
      each projected to `{sender, messages}`. */
  function ChatsFor(chats: seq<Chat>, userId: string): (r: seq<ChatSummary>)
    ensures |r| <= |chats|
    ensures forall x :: x in r ==> exists c :: c in chats && c.receiver == userId && x == Summary(c)
    ensures forall c :: c in chats && c.receiver == userId ==> Summary(c) in r
    decreases |chats|
  {
    if |chats| == 0 then []
    else
      var rest := ChatsFor(chats[1..], userId);
      assert forall c :: c in chats[1..] ==> c in chats;
      if chats[0].receiver == userId then [Summary(chats[0])] + rest
      else rest
  }

  /** `ChatsFor` distributes over concatenation: the answer lists chats in store order. */
  lemma {:induction false} ChatsForAppend(a: seq<Chat>, b: seq<Chat>, userId: string)
    ensures ChatsFor(a + b, userId) == ChatsFor(a, userId) + ChatsFor(b, userId)
    decreases |a|
  {
    if |a| == 0 {
      assert a + b == b;
    } else {
      assert (a + b)[1..] == a[1..] + b;
      ChatsForAppend(a[1..], b, userId);
    }
  }

  /** A single chat contributes its projection exactly when the user is its receiver;
      a chat where the user is only the sender contributes nothing. */
  lemma ChatsForSingle(c: Chat, userId: string)
    ensures ChatsFor([c], userId) == if c.receiver == userId then [Summary(c)] else []
  {
    assert [c][1..] == [];
  }

  /** After appending a new chat for a pair that had none, at most one chat per pair still holds. */
  lemma UniquePairsAppendNew(chats: seq<Chat>, c: Chat)
    requires UniquePairs(chats)
    requires !HasChat(chats, c.receiver, c.sender)
    ensures UniquePairs(chats + [c])
  {
    var r := chats + [c];
    forall i, j | 0 <= i < j < |r| ensures !IsPair(r[j], r[i].receiver, r[i].sender) {
      if j == |chats| {
        assert r[i] == chats[i] && r[j] == c;
        assert !IsPair(chats[i], c.receiver, c.sender);
      }
    }
  }

  /** Appending to existing logs keeps every chat's key, hence keeps pairs unique. */
  lemma UniquePairsAppendMatching(chats: seq<Chat>, receiver: string, sender: string, body: string)
    requires UniquePairs(chats)
    ensures UniquePairs(AppendMatching(chats, receiver, sender, body))
  {
    var r := AppendMatching(chats, receiver, sender, body);
    assert forall i :: 0 <= i < |chats| ==> r[i].receiver == chats[i].receiver && r[i].sender == chats[i].sender;
  }

  /** With unique pairs, an existing ordered pair is held by exactly one chat, and only
      that chat's log grows. */
  lemma AppendMatchingTouchesOne(chats: seq<Chat>, receiver: string, sender: string, body: string)
    requires UniquePairs(chats)
    requires HasChat(chats, receiver, sender)
    ensures exists k :: 0 <= k < |chats| && IsPair(chats[k], receiver, sender) &&
              var r := AppendMatching(chats, receiver, sender, body);
              r[k].messages == chats[k].messages + [body] &&
              forall i :: 0 <= i < |chats| && i != k ==> r[i] == chats[i]
  {
    var k :| 0 <= k < |chats| && IsPair(chats[k], receiver, sender);
    var r := AppendMatching(chats, receiver, sender, body);
    forall i | 0 <= i < |chats| && i != k ensures r[i] == chats[i] {
      if i < k {
        assert !IsPair(chats[k], chats[i].receiver, chats[i].sender);
      } else {
        assert !IsPair(chats[i], chats[k].receiver, chats[k].sender);
      }
    }
  }
}
