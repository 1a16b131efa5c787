/** Which sessions are open, by user. */
module SessionRegistry {
  import opened EventBus
  import opened Outcomes
  import opened SseOutbox

  type Registry = map<int, set<nat>>

  predicate Registered(r: Registry, user: int, session: nat) {
    user in r && session in r[user]
  }

  function Add(r: Registry, user: int, session: nat): Registry {
    r[user := (if user in r then r[user] else {}) + {session}]
  }

  /** A user without sessions leaves no entry behind. */
  function Remove(r: Registry, user: int, session: nat): Registry {
    if user !in r then r
    else if r[user] - {session} == {} then r - {user}
    else r[user := r[user] - {session}]
  }

  /** The collected sessions may come in any order, each once. */
  ghost predicate IsCollected(r: Registry, audience: Audience, order: seq<nat>) {
    && (forall i, j | 0 <= i < j < |order| :: order[i] != order[j])
    && (forall x :: x in order <==>
                    exists user :: (audience == ToAll || audience == ToUser(user)) && Registered(r, user, x))
  }

  lemma AddRemove(r: Registry, user: int, session: nat, u: int, x: nat)
    ensures Registered(Add(r, user, session), u, x) <==> Registered(r, u, x) || (u == user && x == session)
    ensures Registered(Remove(r, user, session), u, x) <==> Registered(r, u, x) && !(u == user && x == session)
    ensures (forall v | v in r :: r[v] != {}) ==> forall v | v in Remove(r, user, session) :: Remove(r, user, session)[v] != {}
  {
    if user in r {
      assert x in r[user] - {session} <==> x in r[user] && x != session;
    }
  }

  /** The registry object. Session ids come from one counter, so no two users share one. */
  class ActiveSessionRegistry {
    var sessions: map<int, map<nat, SseSession>>
    var nextId: nat

    function Value(): Registry
      reads this
    {
      map u | u in sessions :: sessions[u].Keys
    }

    ghost predicate Valid()
      reads this
    {
      && (forall u | u in sessions :: sessions[u].Keys != {})
      && (forall u | u in sessions :: forall x | x in sessions[u] ::
            sessions[u][x].userId == u && sessions[u][x].sessionId == x && x < nextId)
      && (forall u, v | u in sessions && v in sessions && u != v :: sessions[u].Keys !! sessions[v].Keys)
    }

    constructor ()
      ensures Valid() && Value() == map[]
    {
      sessions := map[];
      nextId := 1;
    }

    method NextSessionId() returns (id: nat)
      requires Valid()
      modifies this`nextId
      ensures Valid() && nextId == old(nextId) + 1
      ensures forall u :: !Registered(Value(), u, id)
    {
      id := nextId;
      nextId := nextId + 1;
    }

    method AddSession(session: SseSession)
      requires Valid() && session.sessionId < nextId
      requires forall u | u != session.userId :: !Registered(Value(), u, session.sessionId)
      modifies this`sessions
      ensures Valid() && Value() == Add(old(Value()), session.userId, session.sessionId)
    {
      var mine: map<nat, SseSession> := if session.userId in sessions then sessions[session.userId] else map[];
      sessions := sessions[session.userId := mine[session.sessionId := session]];
      ghost var before := old(Value());
      assert mine.Keys == if session.userId in before then before[session.userId] else {};
      assert sessions[session.userId].Keys == mine.Keys + {session.sessionId};
      assert Value() == Add(old(Value()), session.userId, session.sessionId);
      forall u | u in sessions && u != session.userId ensures sessions[u].Keys !! sessions[session.userId].Keys {
        assert !Registered(old(Value()), u, session.sessionId);
        assert session.userId in old(sessions) ==> old(sessions)[u].Keys !! old(sessions)[session.userId].Keys;
      }
    }

    method RemoveSession(user: int, session: nat)
      requires Valid()
      modifies this`sessions
      ensures Valid() && Value() == Remove(old(Value()), user, session)
    {
      if user !in sessions {
        return;
      }
      var mine := sessions[user] - {session};
      assert mine.Keys == sessions[user].Keys - {session};
      if mine.Keys == {} {
        sessions := sessions - {user};
      } else {
        sessions := sessions[user := mine];
      }
    }

    method CollectUserSessions(user: int) returns (result: seq<SseSession>)
      requires Valid()
      ensures forall i | 0 <= i < |result| :: result[i].userId == user
      ensures forall x :: x in Ids(result) <==> Registered(Value(), user, x)
      ensures IsCollected(Value(), ToUser(user), Ids(result))
    {
      result := [];
      if user !in sessions {
        return;
      }
      var left := sessions[user].Keys;
      while left != {}
        invariant left <= sessions[user].Keys
        invariant forall i | 0 <= i < |result| :: result[i].userId == user
        invariant forall x :: x in Ids(result) <==> x in sessions[user] && x !in left
        invariant forall i, j | 0 <= i < j < |result| :: result[i].sessionId != result[j].sessionId
        decreases left
      {
        ghost var witnessed := SomeElement(left);
        var x :| x in left;
        forall i | 0 <= i < |result| ensures result[i].sessionId != x {
          assert Ids(result)[i] in Ids(result);
        }
        assert Ids(result + [sessions[user][x]]) == Ids(result) + [x];
        result := result + [sessions[user][x]];
        left := left - {x};
      }
      assert forall x :: x in Ids(result) <==> Registered(Value(), user, x);
    }

    method CollectAllSessions() returns (result: seq<SseSession>)
      requires Valid()
      ensures forall x :: x in Ids(result) <==> exists user :: Registered(Value(), user, x)
      ensures IsCollected(Value(), ToAll, Ids(result))
    {
      result := [];
      var left := sessions.Keys;
      while left != {}
        invariant left <= sessions.Keys
        invariant forall x :: x in Ids(result) <==> exists u :: u in sessions && u !in left && x in sessions[u]
        invariant forall i, j | 0 <= i < j < |result| :: result[i].sessionId != result[j].sessionId
        decreases left
      {
        ghost var witnessed := SomeElement(left);
        var u :| u in left;
        var mine := CollectUserSessions(u);
        assert Ids(result + mine) == Ids(result) + Ids(mine);
        forall x ensures x in Ids(mine) <==> x in sessions[u] {
          assert x in Ids(mine) <==> Registered(Value(), u, x);
        }
        forall i, j | 0 <= i < |result| && 0 <= j < |mine| ensures result[i].sessionId != mine[j].sessionId {
          assert Ids(result)[i] in Ids(result) && Ids(mine)[j] in Ids(mine);
          var v :| v in sessions && v !in left && Ids(result)[i] in sessions[v];
          assert sessions[v].Keys !! sessions[u].Keys;
        }
        forall i, j | 0 <= i < j < |mine| ensures mine[i].sessionId != mine[j].sessionId {
          assert Ids(mine)[i] != Ids(mine)[j];
        }
        result := result + mine;
        left := left - {u};
      }
      forall x ensures x in Ids(result) <==> exists u :: Registered(Value(), u, x) {
        if exists u :: Registered(Value(), u, x) {
          var u :| Registered(Value(), u, x);
          assert u in sessions && x in sessions[u];
        }
        if x in Ids(result) {
          var u :| u in sessions && u !in left && x in sessions[u];
          assert Registered(Value(), u, x);
        }
      }
    }
  }

  function Ids(sessions: seq<SseSession>): seq<nat> {
    seq(|sessions|, i requires 0 <= i < |sessions| => sessions[i].sessionId)
  }
}
