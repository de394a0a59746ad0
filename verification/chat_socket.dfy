/** The `ChatSocket` relay as a pure state machine: each inbound event on a socket maps
    the state `(users, chatList)` to a new state plus the events the relay emits. */
module ChatSocket {
  import opened ChatTypes
  import opened UserRegistry
  import opened ChatStore
  import opened Subsequence

  datatype State = State(users: seq<User>, chatList: seq<Chat>)

  /** The inbound events a connected socket can raise. `Disconnect` is raised by the transport. */
  datatype Event =
    | Join(userId: string)
    | ChatListRequest(userId: string)
    | AddMessage(message: Message)
    | Disconnect

  /** An event together with the id of the socket it arrived on. */
  datatype Inbound = Inbound(socketId: string, event: Event)

  /** The new state and the emissions one handler produces. */
  datatype Transition = Transition(next: State, out: seq<Emission>)

  /** The state `ChatSocket`'s constructor sets up: no bindings and one seeded chat. */
  function Init(): (s: State)
    ensures s.users == []
    ensures |s.chatList| == 1
    ensures s.chatList[0].receiver == "foo" && s.chatList[0].sender == "bar"
    ensures s.chatList[0].messages == ["123"]
    ensures UniquePairs(s.chatList)
  {
    State([], [Chat("foo", "bar", ["123"])])
  }

  /** `join`: one binding at the end of `users`, and a success acknowledgement to the
      joining socket only. */
  function OnJoin(s: State, socketId: string, userId: string): (t: Transition)
    ensures t.next.chatList == s.chatList
    ensures |t.next.users| == |s.users| + 1
    ensures t.next.users[..|s.users|] == s.users
    ensures t.next.users[|s.users|] == User(userId, socketId)
    ensures |t.out| == 1
    ensures t.out[0].target == ToSocket(socketId)
    ensures t.out[0].name == JoinResponseName && t.out[0].payload == JoinResponse(JoinStatus)
  {
    Transition(s.(users := Register(s.users, userId, socketId)),
               [Emission(ToSocket(socketId), JoinResponseName, JoinResponse(JoinStatus))])
  }

  /** `chat-list`: a pure read answered to the requesting socket only. */
  function OnChatList(s: State, socketId: string, userId: string): (t: Transition)
    ensures t.next == s
    ensures |t.out| == 1
    ensures t.out[0].target == ToSocket(socketId) && t.out[0].name == ChatListResponseName
    ensures t.out[0].payload.ChatListResponse?
    ensures |t.out[0].payload.chats| <= |s.chatList|
    ensures forall x :: x in t.out[0].payload.chats ==>
              exists c :: c in s.chatList && c.receiver == userId && x == Summary(c)
    ensures forall c :: c in s.chatList && c.receiver == userId ==> Summary(c) in t.out[0].payload.chats
  {
    Transition(s, [Emission(ToSocket(socketId), ChatListResponseName,
                            ChatListResponse(ChatsFor(s.chatList, userId)))])
  }

  /** `add-message`: append the body to the chat of the ordered pair (receiver, sender), or
      create that chat; then broadcast the message when the receiver has a binding. */
  function OnAddMessage(s: State, m: Message): (t: Transition)
    ensures t.next.users == s.users
    ensures HasChat(s.chatList, m.receiver, m.sender) ==>
              |t.next.chatList| == |s.chatList| &&
              (forall i :: 0 <= i < |s.chatList| && IsPair(s.chatList[i], m.receiver, m.sender) ==>
                 t.next.chatList[i] == s.chatList[i].(messages := s.chatList[i].messages + [m.body])) &&
              (forall i :: 0 <= i < |s.chatList| && !IsPair(s.chatList[i], m.receiver, m.sender) ==>
                 t.next.chatList[i] == s.chatList[i])
    ensures !HasChat(s.chatList, m.receiver, m.sender) ==>
              t.next.chatList == s.chatList + [Chat(m.receiver, m.sender, [m.body])]
    ensures HasChat(t.next.chatList, m.receiver, m.sender)
    ensures |t.out| <= 1
    ensures |t.out| == 1 <==> exists u :: u in s.users && u.id == m.receiver
    ensures |t.out| == 1 ==>
              t.out[0] == Emission(Broadcast, AddMessageResponseName, AddMessageResponse(m))
  {
    var chats :=
      if HasChat(s.chatList, m.receiver, m.sender) then
        AppendMatching(s.chatList, m.receiver, m.sender, m.body)
      else
        s.chatList + [Chat(m.receiver, m.sender, [m.body])];
    assert IsRegistered(s.users, m.receiver) <==> exists u :: u in s.users && u.id == m.receiver;
    assert HasChat(chats, m.receiver, m.sender) by {
      if !HasChat(s.chatList, m.receiver, m.sender) {
        assert IsPair(chats[|s.chatList|], m.receiver, m.sender);
      }
    }
    var out :=
      if FindUser(s.users, m.receiver).Some? then
        [Emission(Broadcast, AddMessageResponseName, AddMessageResponse(m))]
      else [];
    Transition(State(s.users, chats), out)
  }

  /** `disconnect`: drop every binding of the socket; chats are untouched and nothing is emitted. */
  function OnDisconnect(s: State, socketId: string): (t: Transition)
    ensures t.next.chatList == s.chatList
    ensures t.out == []
    ensures forall u :: u in t.next.users <==> u in s.users && u.socketId != socketId
    ensures IsSubsequence(t.next.users, s.users)
  {
    Transition(s.(users := RemoveSocket(s.users, socketId)), [])
  }

  /** Dispatches one inbound event to its handler. */
  function Step(s: State, input: Inbound): Transition
  {
    match input.event
    case Join(userId) => OnJoin(s, input.socketId, userId)
    case ChatListRequest(userId) => OnChatList(s, input.socketId, userId)
    case AddMessage(m) => OnAddMessage(s, m)
    case Disconnect => OnDisconnect(s, input.socketId)
  }

  /** Processes the events one after another, each to completion, collecting every emission. */
  function Run(s: State, inputs: seq<Inbound>): Transition
    decreases |inputs|
  {
    if |inputs| == 0 then Transition(s, [])
    else
      var first := Step(s, inputs[0]);
      var rest := Run(first.next, inputs[1..]);
      Transition(rest.next, first.out + rest.out)
  }

  /** `first` followed by `second`: the final state of `second` and both emission lists in order. */
  function Then(first: Transition, second: Transition): Transition
  {
    Transition(second.next, first.out + second.out)
  }

  /** Processing no events changes nothing and emits nothing, so it composes on the left. */
  lemma RunNilPrefix(s: State, b: seq<Inbound>)
    ensures Run(s, [] + b) == Then(Run(s, []), Run(s, b))
  {
    assert [] + b == b;
    var whole := Run(s, b);
    assert [] + whole.out == whole.out;
  }

  lemma ThenAssociative(t: Transition, u: Transition, v: Transition)
    ensures Then(t, Then(u, v)) == Then(Then(t, u), v)
  {
    assert t.out + (u.out + v.out) == (t.out + u.out) + v.out;
  }

  /** A non-empty run is its first step followed by the run of the remaining events. */
  lemma RunUnfold(s: State, x: Inbound, tl: seq<Inbound>)
    ensures Run(s, [x] + tl) == Then(Step(s, x), Run(Step(s, x).next, tl))
  {
    assert ([x] + tl)[0] == x && ([x] + tl)[1..] == tl;
  }

  /** The inductive step of `RunAppend`: if the events after `x` compose, so does the whole. */
  lemma RunConsAppend(s: State, x: Inbound, tl: seq<Inbound>, b: seq<Inbound>)
    requires Run(Step(s, x).next, tl + b) == Then(Run(Step(s, x).next, tl), Run(Run(Step(s, x).next, tl).next, b))
    ensures Run(s, ([x] + tl) + b) == Then(Run(s, [x] + tl), Run(Run(s, [x] + tl).next, b))
  {
    var step := Step(s, x);
    var first := Run(step.next, tl);
    var second := Run(first.next, b);
    assert ([x] + tl) + b == [x] + (tl + b);
    RunUnfold(s, x, tl + b);
    RunUnfold(s, x, tl);
    ThenAssociative(step, first, second);
    assert Then(step, first).next == first.next;
  }

  /** Processing `a` and then `b` is processing `a + b`: each event runs to completion
      on the state its predecessors left, and emissions come out in event order. */
  lemma {:induction false} RunAppend(s: State, a: seq<Inbound>, b: seq<Inbound>)
    ensures Run(s, a + b) == Then(Run(s, a), Run(Run(s, a).next, b))
    decreases |a|
  {
    if |a| == 0 {
      assert a == [];
      RunNilPrefix(s, b);
    } else {
      assert a == [a[0]] + a[1..];
      RunAppend(Step(s, a[0]).next, a[1..], b);
      RunConsAppend(s, a[0], a[1..], b);
    }
  }
}
