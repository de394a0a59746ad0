/** The `users` list of the chat relay: bindings from identities to sockets. */
module UserRegistry {
  import opened ChatTypes
  import opened Subsequence

  /** `join`: push one binding at the end. There is no uniqueness check. */
  function Register(users: seq<User>, userId: string, socketId: string): (r: seq<User>)
    ensures |r| == |users| + 1
    ensures r[..|users|] == users
    ensures r[|users|] == User(userId, socketId)
  {
    users + [User(userId, socketId)]
  }

  predicate IsRegistered(users: seq<User>, id: string)
  {
    exists i :: 0 <= i < |users| && users[i].id == id
  }

  /** `users.find(user => user.id === id)`: the FIRST binding for `id`, if any. */
  function FindUser(users: seq<User>, id: string): (r: Option<User>)
    ensures r.Some? <==> IsRegistered(users, id)
    ensures r.Some? ==> exists i :: 0 <= i < |users| && users[i] == r.value && r.value.id == id &&
                                    forall j :: 0 <= j < i ==> users[j].id != id
    decreases |users|
  {
    if |users| == 0 then None
    else if users[0].id == id then Some(users[0])
    else
      var r := FindUser(users[1..], id);
      assert IsRegistered(users[1..], id) ==> IsRegistered(users, id);
      assert IsRegistered(users, id) ==> IsRegistered(users[1..], id) by {
        if IsRegistered(users, id) {
          var i :| 0 <= i < |users| && users[i].id == id;
          assert users[1..][i - 1].id == id;
        }
      }
      if r.Some? then
        var i :| 0 <= i < |users| - 1 && users[1..][i] == r.value && r.value.id == id &&
                 forall j :: 0 <= j < i ==> users[1..][j].id != id;
        assert users[i + 1] == r.value;
        assert forall j :: 0 <= j < i + 1 ==> users[j].id != id by {
          forall j | 0 <= j < i + 1 ensures users[j].id != id {
            if j > 0 { assert users[j] == users[1..][j - 1]; }
          }
        }
        r
      else
        r
  }

  /** `disconnect`: keep exactly the bindings whose socket is not `socketId`, in order. */
  function RemoveSocket(users: seq<User>, socketId: string): (r: seq<User>)
    ensures forall u :: u in r ==> u in users && u.socketId != socketId
    ensures forall u :: u in users && u.socketId != socketId ==> u in r
    ensures IsSubsequence(r, users)
    decreases |users|
  {
    if |users| == 0 then []
    else
      var rest := RemoveSocket(users[1..], socketId);
      if users[0].socketId == socketId then rest
      else [users[0]] + rest
  }

  /** Removal distributes over concatenation; together with the one-element case this
      pins `RemoveSocket` down as an order-preserving filter. */
  lemma {:induction false} RemoveSocketAppend(a: seq<User>, b: seq<User>, socketId: string)
    ensures RemoveSocket(a + b, socketId) == RemoveSocket(a, socketId) + RemoveSocket(b, socketId)
    decreases |a|
  {
    if |a| == 0 {
      assert a + b == b;
    } else {
      assert (a + b)[1..] == a[1..] + b;
      RemoveSocketAppend(a[1..], b, socketId);
    }
  }

  lemma RemoveSocketSingle(u: User, socketId: string)
    ensures RemoveSocket([u], socketId) == if u.socketId == socketId then [] else [u]
  {
    assert [u][1..] == [];
  }

  /** Nothing is removed when no binding uses the socket. */
  lemma {:induction false} RemoveSocketAbsent(users: seq<User>, socketId: string)
    requires forall u :: u in users ==> u.socketId != socketId
    ensures RemoveSocket(users, socketId) == users
    decreases |users|
  {
    if |users| > 0 {
      RemoveSocketAbsent(users[1..], socketId);
    }
  }

  /** A second `disconnect` of the same socket changes nothing. */
  lemma RemoveSocketIdempotent(users: seq<User>, socketId: string)
    ensures RemoveSocket(RemoveSocket(users, socketId), socketId) == RemoveSocket(users, socketId)
  {
    RemoveSocketAbsent(RemoveSocket(users, socketId), socketId);
  }
}
