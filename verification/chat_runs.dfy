/** Properties of the relay over single steps and over arbitrary sequences of events. */
module ChatRuns {
  import opened ChatTypes
  import opened UserRegistry
  import opened ChatStore
  import opened ChatSocket

  /** Every chat of `before` is still at its index in `after`, under the same ordered pair,
      and its old log is a prefix of its new one. */
  predicate LogsExtend(before: seq<Chat>, after: seq<Chat>)
  {
    |before| <= |after| &&
    forall i :: 0 <= i < |before| ==>
      after[i].receiver == before[i].receiver && after[i].sender == before[i].sender &&
      before[i].messages <= after[i].messages
  }

  lemma LogsExtendTransitive(a: seq<Chat>, b: seq<Chat>, c: seq<Chat>)
    requires LogsExtend(a, b) && LogsExtend(b, c)
    ensures LogsExtend(a, c)
  {
    forall i | 0 <= i < |a| ensures a[i].messages <= c[i].messages {
      assert a[i].messages <= b[i].messages && b[i].messages <= c[i].messages;
      assert b[i].messages[..|a[i].messages|] == a[i].messages;
      assert c[i].messages[..|b[i].messages|] == b[i].messages;
      assert c[i].messages[..|a[i].messages|] == c[i].messages[..|b[i].messages|][..|a[i].messages|];
    }
  }

  /** No single event removes, reorders or rewrites a message already stored. */
  lemma StepLogsExtend(s: State, input: Inbound)
    ensures LogsExtend(s.chatList, Step(s, input).next.chatList)
  {
    var after := Step(s, input).next.chatList;
    match input.event
    case AddMessage(m) =>
      if HasChat(s.chatList, m.receiver, m.sender) {
        forall i | 0 <= i < |s.chatList| ensures s.chatList[i].messages <= after[i].messages {
          if IsPair(s.chatList[i], m.receiver, m.sender) {
            assert after[i].messages == s.chatList[i].messages + [m.body];
          }
        }
      } else {
        assert forall i :: 0 <= i < |s.chatList| ==> after[i] == s.chatList[i];
      }
    case _ =>
  }

  /** Message logs are append-only over any sequence of events. */
  lemma {:induction false} RunLogsExtend(s: State, inputs: seq<Inbound>)
    ensures LogsExtend(s.chatList, Run(s, inputs).next.chatList)
    decreases |inputs|
  {
    if |inputs| == 0 {
    } else {
      var first := Step(s, inputs[0]);
      StepLogsExtend(s, inputs[0]);
      RunLogsExtend(first.next, inputs[1..]);
      LogsExtendTransitive(s.chatList, first.next.chatList, Run(first.next, inputs[1..]).next.chatList);
    }
  }

  /** Every event keeps "at most one chat per ordered (receiver, sender) pair". */
  lemma StepUniquePairs(s: State, input: Inbound)
    requires UniquePairs(s.chatList)
    ensures UniquePairs(Step(s, input).next.chatList)
  {
    match input.event
    case AddMessage(m) =>
      if HasChat(s.chatList, m.receiver, m.sender) {
        UniquePairsAppendMatching(s.chatList, m.receiver, m.sender, m.body);
      } else {
        UniquePairsAppendNew(s.chatList, Chat(m.receiver, m.sender, [m.body]));
      }
    case _ =>
  }

  lemma {:induction false} RunUniquePairs(s: State, inputs: seq<Inbound>)
    requires UniquePairs(s.chatList)
    ensures UniquePairs(Run(s, inputs).next.chatList)
    decreases |inputs|
  {
    if |inputs| > 0 {
      StepUniquePairs(s, inputs[0]);
      RunUniquePairs(Step(s, inputs[0]).next, inputs[1..]);
    }
  }

  /** Every state the relay can reach from its initial state has unique ordered pairs. */
  lemma ReachableUniquePairs(inputs: seq<Inbound>)
    ensures UniquePairs(Run(Init(), inputs).next.chatList)
  {
    RunUniquePairs(Init(), inputs);
  }

  /** On a reachable state, `add-message` for an existing pair grows exactly one chat's log. */
  lemma AddMessageGrowsOneChat(s: State, m: Message)
    requires UniquePairs(s.chatList)
    requires HasChat(s.chatList, m.receiver, m.sender)
    ensures exists k :: 0 <= k < |s.chatList| && IsPair(s.chatList[k], m.receiver, m.sender) &&
              var after := OnAddMessage(s, m).next.chatList;
              after[k].messages == s.chatList[k].messages + [m.body] &&
              forall i :: 0 <= i < |s.chatList| && i != k ==> after[i] == s.chatList[i]
  {
    AppendMatchingTouchesOne(s.chatList, m.receiver, m.sender, m.body);
  }

  /** Matching is by ordered pair: a message from `a` to `b` leaves the chat keyed
      (receiver `a`, sender `b`) as it was, unless `a` and `b` are the same identity. */
  lemma ReversedPairUntouched(s: State, m: Message, i: nat)
    requires m.receiver != m.sender
    requires i < |s.chatList| && IsPair(s.chatList[i], m.sender, m.receiver)
    ensures OnAddMessage(s, m).next.chatList[i] == s.chatList[i]
  {
  }

  /** A second `disconnect` of the same socket changes nothing and emits nothing. */
  lemma DisconnectIdempotent(s: State, socketId: string)
    ensures var once := Step(s, Inbound(socketId, Disconnect));
            Step(once.next, Inbound(socketId, Disconnect)) == once
  {
    RemoveSocketIdempotent(s.users, socketId);
  }

  /** `disconnect` undoes a `join` made on a socket that had no binding before. */
  lemma JoinThenDisconnect(s: State, socketId: string, userId: string)
    requires forall u :: u in s.users ==> u.socketId != socketId
    ensures Step(Step(s, Inbound(socketId, Join(userId))).next, Inbound(socketId, Disconnect)).next == s
  {
    var joined := User(userId, socketId);
    RemoveSocketAppend(s.users, [joined], socketId);
    RemoveSocketAbsent(s.users, socketId);
    RemoveSocketSingle(joined, socketId);
  }

  /** A message that opens a new chat becomes visible to its receiver's `chat-list`, as the
      last entry, and to nobody else's. */
  lemma ChatListAfterNewChat(s: State, m: Message, userId: string)
    requires !HasChat(s.chatList, m.receiver, m.sender)
    ensures ChatsFor(OnAddMessage(s, m).next.chatList, userId) ==
            ChatsFor(s.chatList, userId) + (if userId == m.receiver then [ChatSummary(m.sender, [m.body])] else [])
  {
    var c := Chat(m.receiver, m.sender, [m.body]);
    ChatsForAppend(s.chatList, [c], userId);
    ChatsForSingle(c, userId);
  }

  const Alice: User := User("alice", "s1")
  const Bob: User := User("bob", "s2")
  const Hi: Message := Message("bob", "alice", "hi")
  const Yo: Message := Message("carol", "alice", "yo")
  const Seeded: Chat := Chat("foo", "bar", ["123"])

  /** The two messages of the scenario below, each processed from the state it meets. */
  lemma ScenarioMessages()
    ensures Step(State([Alice, Bob], [Seeded]), Inbound("s1", AddMessage(Hi))) ==
            Transition(State([Alice, Bob], [Seeded, Chat("bob", "alice", ["hi"])]),
                       [Emission(Broadcast, AddMessageResponseName, AddMessageResponse(Hi))])
    ensures Step(State([Alice, Bob], [Seeded, Chat("bob", "alice", ["hi"])]), Inbound("s1", AddMessage(Yo))) ==
            Transition(State([Alice, Bob], [Seeded, Chat("bob", "alice", ["hi"]), Chat("carol", "alice", ["yo"])]), [])
  {
    var users := [Alice, Bob];
    assert !HasChat([Seeded], "bob", "alice");
    assert users[1].id == "bob";
    assert !HasChat([Seeded, Chat("bob", "alice", ["hi"])], "carol", "alice");
    assert !IsRegistered(users, "carol");
  }

  /** Two sockets join as "alice" and "bob"; a message from alice to bob creates the chat
      (receiver "bob", sender "alice") and is broadcast because bob has a binding. A message
      to "carol", who never joined, is stored but not emitted. */
  lemma JoinThenMessageScenario()
    ensures var t := Run(Init(), [Inbound("s1", Join("alice")), Inbound("s2", Join("bob")),
                                  Inbound("s1", AddMessage(Hi)), Inbound("s1", AddMessage(Yo))]);
            t.out == [Emission(ToSocket("s1"), JoinResponseName, JoinResponse(JoinStatus)),
                      Emission(ToSocket("s2"), JoinResponseName, JoinResponse(JoinStatus)),
                      Emission(Broadcast, AddMessageResponseName, AddMessageResponse(Hi))] &&
            t.next.chatList == [Seeded, Chat("bob", "alice", ["hi"]), Chat("carol", "alice", ["yo"])]
  {
    var i1, i2, i3, i4 := Inbound("s1", Join("alice")), Inbound("s2", Join("bob")),
                          Inbound("s1", AddMessage(Hi)), Inbound("s1", AddMessage(Yo));
    var c1, c2 := Chat("bob", "alice", ["hi"]), Chat("carol", "alice", ["yo"]);
    var s1 := State([Alice], [Seeded]);
    var s2 := State([Alice, Bob], [Seeded]);
    var s3 := State([Alice, Bob], [Seeded, c1]);
    var s4 := State([Alice, Bob], [Seeded, c1, c2]);
    var joined1 := Emission(ToSocket("s1"), JoinResponseName, JoinResponse(JoinStatus));
    var joined2 := Emission(ToSocket("s2"), JoinResponseName, JoinResponse(JoinStatus));
    var sent := Emission(Broadcast, AddMessageResponseName, AddMessageResponse(Hi));
    ScenarioMessages();
    assert Step(Init(), i1) == Transition(s1, [joined1]);
    assert Step(s1, i2) == Transition(s2, [joined2]);
    var inputs := [i1, i2, i3, i4];
    assert inputs[1..] == [i2, i3, i4] && inputs[1..][1..] == [i3, i4] && inputs[1..][1..][1..] == [i4];
    assert Run(s3, [i4]) == Transition(s4, []);
    assert Run(s2, [i3, i4]) == Transition(s4, [sent]);
    assert Run(s1, [i2, i3, i4]) == Transition(s4, [joined2, sent]);
    assert Run(Init(), inputs) == Transition(s4, [joined1, joined2, sent]);
  }
}
