/**
 * The full chat manager (`ContractChatManager`): sessions without a per-user
 * cap, expiry after `SESSION_TIMEOUT_HOURS` of inactivity with bulk cleanup,
 * a canned reply, and the event sequence of the simulated token stream.
 */
module ContractChat {
  import opened Wrappers
  import opened Text
  import opened ChatSessions

  const SessionTimeoutHours := 24
  /** `SESSION_TIMEOUT_HOURS * 3600` seconds, in microseconds. */
  const TimeoutMicros := SessionTimeoutHours * 3600 * 1000000

  const ReplyHead := "收到您的问题: "
  const ReplyTail := "\n\n这是一个简化的回复，实际应用中需要集成大模型服务。"
  const StreamText := "请进一步明确审查方式"

  /**
   * `_is_session_expired`: a session without `updated_at` is expired; otherwise
   * it is expired once strictly more than the timeout has passed since then.
   */
  predicate SessionExpired(updatedAt: Option<int>, now: int)
  {
    updatedAt == None || now - updatedAt.value > TimeoutMicros
  }

  lemma ExpiryBoundary(updatedAt: int, now: int)
    ensures now - updatedAt == TimeoutMicros ==> !SessionExpired(Some(updatedAt), now)
    ensures now - updatedAt == TimeoutMicros + 1 ==> SessionExpired(Some(updatedAt), now)
    ensures TimeoutMicros == 86400000000
  {
  }

  /** Expiry is monotone in time: an expired session stays expired. */
  lemma ExpiredStaysExpired(updatedAt: Option<int>, now: int, later: int)
    requires now <= later && SessionExpired(updatedAt, now)
    ensures SessionExpired(updatedAt, later)
  {
  }

  predicate Expired(s: Session, now: int)
  {
    SessionExpired(Some(s.updatedAt), now)
  }

  /** The `expired_sessions` list of `cleanup_expired_sessions`, in dict order. */
  function ExpiredIds(order: seq<string>, sessions: map<string, Session>, now: int): (ids: seq<string>)
    ensures forall k :: k in ids <==> k in order && k in sessions && Expired(sessions[k], now)
  {
    if order == [] then []
    else
      var init := ExpiredIds(order[..|order| - 1], sessions, now);
      var k := order[|order| - 1];
      assert forall x :: x in order <==> x in order[..|order| - 1] || x == k by {
        assert order == order[..|order| - 1] + [k];
      }
      if k in sessions && Expired(sessions[k], now) then init + [k] else init
  }

  lemma {:induction false} ExpiredIdsDistinct(order: seq<string>, sessions: map<string, Session>, now: int)
    requires Distinct(order)
    ensures Distinct(ExpiredIds(order, sessions, now))
  {
    if order != [] {
      var init := order[..|order| - 1];
      var k := order[|order| - 1];
      ExpiredIdsDistinct(init, sessions, now);
      assert k !in init by {
        assert forall i :: 0 <= i < |init| ==> init[i] == order[i];
      }
      var ids := ExpiredIds(init, sessions, now);
      assert k !in ids;
      if k in sessions && Expired(sessions[k], now) {
        var r := ids + [k];
        forall i, j | 0 <= i < j < |r|
          ensures r[i] != r[j]
        {
          if j == |ids| {
            assert r[i] == ids[i];
          }
        }
      }
    }
  }

  /** The insertion order after `del d[k]` for each `k` of `ks` in turn. */
  function WithoutAll(order: seq<string>, ks: seq<string>): (r: seq<string>)
    ensures forall x :: x in r <==> x in order && x !in ks
  {
    if ks == [] then order
    else
      var init := ks[..|ks| - 1];
      assert forall x :: x in ks <==> x in init || x == ks[|ks| - 1] by {
        assert ks == init + [ks[|ks| - 1]];
      }
      Without(WithoutAll(order, init), ks[|ks| - 1])
  }

  /** `f"收到您的问题: {question}\n\n这是一个简化的回复，实际应用中需要集成大模型服务。"`. */
  function Reply(question: string): string
  {
    ReplyHead + question + ReplyTail
  }

  /** The question a reply answers. */
  function QuestionOf(reply: string): string
    requires |reply| >= |ReplyHead| + |ReplyTail|
  {
    reply[|ReplyHead|..|reply| - |ReplyTail|]
  }

  /** The reply always begins with the fixed head and the question, and the question can be read back from it. */
  lemma ReplyQuotesQuestion(question: string)
    ensures ReplyHead + question <= Reply(question)
    ensures |Reply(question)| >= |ReplyHead| + |ReplyTail| && QuestionOf(Reply(question)) == question
  {
    var r := Reply(question);
    assert r[..|ReplyHead| + |question|] == ReplyHead + question;
    assert r[|ReplyHead|..|r| - |ReplyTail|] == question;
  }

  /** One event of `chat_stream`, without its timestamps and constant fields. */
  datatype StreamEvent =
    | Start(question: string, sessionId: Option<string>)
    | Token(content: char, tokenIndex: nat, progress: string, sessionId: Option<string>)
    | Complete(totalTokens: nat, sessionId: Option<string>)

  /** `f"{i + 1}/{len(response_text)}"`. */
  function Progress(done: nat, total: nat): string
  {
    NatToString(done) + "/" + NatToString(total)
  }

  /** The characters the token events carry, in order. */
  function TokensText(events: seq<StreamEvent>): string
  {
    if events == [] then ""
    else TokensText(events[..|events| - 1]) + (if events[|events| - 1].Token? then [events[|events| - 1].content] else "")
  }

  /** Reading a progress string back gives the two counts. */
  lemma ProgressRoundTrip(done: nat, total: nat)
    ensures Split(Progress(done, total), '/') == [NatToString(done), NatToString(total)]
  {
    var a, b := NatToString(done), NatToString(total);
    assert '/' !in a && '/' !in b by {
      assert forall i :: 0 <= i < |a| ==> '0' <= a[i] <= '9';
      assert forall i :: 0 <= i < |b| ==> '0' <= b[i] <= '9';
    }
    SplitPrefix(a, b, '/');
    SplitNoSep(b, '/');
    assert Progress(done, total) == a + ['/'] + b;
  }

  /** `chat_stream(question, session_id)`: the events it yields, in order. */
  method ChatStream(question: string, sessionId: Option<string>) returns (events: seq<StreamEvent>)
    ensures |events| == |StreamText| + 2
    ensures events[0] == Start(question, sessionId)
    ensures forall i :: 0 <= i < |StreamText| ==>
              events[i + 1] == Token(StreamText[i], i + 1, Progress(i + 1, |StreamText|), sessionId)
    ensures events[|StreamText| + 1] == Complete(|StreamText|, sessionId)
    ensures TokensText(events) == StreamText
  {
    events := [Start(question, sessionId)];
    var responseText := StreamText;
    for i := 0 to |responseText|
      invariant |events| == i + 1 && events[0] == Start(question, sessionId)
      invariant forall j :: 0 <= j < i ==>
                  events[j + 1] == Token(StreamText[j], j + 1, Progress(j + 1, |StreamText|), sessionId)
      invariant TokensText(events) == StreamText[..i]
    {
      var token := Token(responseText[i], i + 1, Progress(i + 1, |responseText|), sessionId);
      assert (events + [token])[..|events|] == events;
      assert StreamText[..i + 1] == StreamText[..i] + [StreamText[i]];
      events := events + [token];
    }
    var complete := Complete(|responseText|, sessionId);
    assert (events + [complete])[..|events|] == events;
    events := events + [complete];
  }

  /** One round of the deletion loop removes `ids[j]` from the table: the key invariants of the loop hold one step on. */
  lemma DeleteStepKeys(sessions0: map<string, Session>, sessions: map<string, Session>, ids: seq<string>, j: nat)
    requires j < |ids| && Distinct(ids)
    requires forall k :: k in ids ==> k in sessions0
    requires forall k :: k in sessions <==> k in sessions0 && k !in ids[..j]
    requires |sessions| == |sessions0| - j
    requires forall k :: k in sessions ==> sessions[k] == sessions0[k]
    ensures forall k :: k in sessions - {ids[j]} <==> k in sessions0 && k !in ids[..j + 1]
    ensures forall k :: k in sessions - {ids[j]} ==> (sessions - {ids[j]})[k] == sessions0[k]
    ensures |sessions - {ids[j]}| == |sessions0| - (j + 1)
  {
    var id := ids[j];
    assert id !in ids[..j];
    assert id in sessions;
    assert ids[..j + 1] == ids[..j] + [id];
    assert (sessions - {id}).Keys == sessions.Keys - {id};
  }

  /** One round of the deletion loop removes `ids[j]` from the order. */
  lemma DeleteStepOrder(order0: seq<string>, ids: seq<string>, j: nat)
    requires j < |ids|
    ensures Without(WithoutAll(order0, ids[..j]), ids[j]) == WithoutAll(order0, ids[..j + 1])
  {
    assert ids[..j + 1][..j] == ids[..j];
  }

  class ContractChatManager {
    var sessions: map<string, Session>
    /** The order in which `self.sessions` yields its keys. */
    var order: seq<string>

    ghost predicate Valid()
      reads this
    {
      WellKeyed(order, sessions)
    }

    constructor ()
      ensures Valid() && sessions == map[] && order == []
    {
      sessions := map[];
      order := [];
    }

    /** `create_session(user_id, contract_file)`: no validation and no cap; `freshId` stands for `uuid4()`. */
    method CreateSession(userId: string, contractFile: Option<string>, freshId: string, now: int) returns (id: string)
      requires Valid()
      requires freshId !in sessions
      modifies this
      ensures Valid()
      ensures id == freshId
      ensures sessions == old(sessions)[freshId := NewSession(freshId, userId, contractFile, now)]
      ensures order == old(order) + [freshId]
      ensures forall u :: SessionsOf(order, sessions, Some(u))
                          == old(SessionsOf(order, sessions, Some(u)))
                             + (if u == userId then [NewSession(freshId, userId, contractFile, now)] else [])
    {
      var session := NewSession(freshId, userId, contractFile, now);
      WellKeyedAdd(order, sessions, session);
      forall u {
        ListAfterAdd(order, sessions, freshId, session, Some(u));
      }
      sessions := sessions[freshId := session];
      order := order + [freshId];
      id := freshId;
    }

    /** `delete_session(session_id)`. */
    method DeleteSession(sessionId: string) returns (deleted: bool)
      requires Valid()
      modifies this
      ensures Valid()
      ensures deleted <==> sessionId in old(sessions)
      ensures sessions == old(sessions) - {sessionId}
      ensures order == Without(old(order), sessionId)
    {
      deleted := sessionId in sessions;
      WellKeyedDelete(order, sessions, sessionId);
      if deleted {
        sessions := sessions - {sessionId};
        order := Without(order, sessionId);
      } else {
        WithoutAbsent(order, sessionId);
      }
    }

    /**
     * `chat(question, session_id)`: the canned reply; a truthy id naming a
     * session gets the question and the reply appended, user first.
     */
    method Chat(question: string, sessionId: Option<string>, userMsgId: string, replyId: string, now: int)
      returns (response: string)
      requires Valid()
      modifies this
      ensures Valid() && order == old(order)
      ensures response == Reply(question)
      ensures sessionId.Some? && sessionId.value != "" && sessionId.value in old(sessions) ==>
                var s := old(sessions)[sessionId.value];
                sessions == old(sessions)[sessionId.value := AddMessage(AddMessage(s, userMsgId, "user", question, None, now),
                                                                          replyId, "assistant", response, None, now)] &&
                |sessions[sessionId.value].messages| == |s.messages| + 2
      ensures !(sessionId.Some? && sessionId.value != "" && sessionId.value in old(sessions)) ==> sessions == old(sessions)
    {
      response := Reply(question);
      if sessionId.Some? && sessionId.value != "" && sessionId.value in sessions {
        var session := sessions[sessionId.value];
        session := AddMessage(session, userMsgId, "user", question, None, now);
        session := AddMessage(session, replyId, "assistant", response, None, now);
        WellKeyedReplace(order, sessions, session);
        sessions := sessions[sessionId.value := session];
      }
    }

    /** `list_sessions(user_id)`: the user's sessions (all for `None`) in dict order. */
    method ListSessions(user: Option<string>) returns (r: seq<Session>)
      requires Valid()
      ensures r == SessionsOf(order, sessions, user)
      ensures forall i :: 0 <= i < |r| ==> r[i] in sessions.Values && OwnedBy(r[i], user)
    {
      r := [];
      for i := 0 to |order|
        invariant r == SessionsOf(order[..i], sessions, user)
      {
        var k := order[i];
        var session := sessions[k];
        if user == None || session.userId == user.value {
          r := r + [session];
        }
        SessionsOfAppend(order[..i], [k], sessions, user);
        assert order[..i + 1] == order[..i] + [k];
        assert SessionsOf([k], sessions, user) == Entry(k, sessions, user) + SessionsOf([], sessions, user);
      }
      assert order[..|order|] == order;
      forall i | 0 <= i < |r|
        ensures r[i] in sessions.Values && OwnedBy(r[i], user)
      {
        SessionsOfSound(order, sessions, user, i);
      }
    }

    /**
     * `cleanup_expired_sessions()`: collects the expired ids in dict order,
     * deletes them, and returns how many there were.
     */
    method CleanupExpiredSessions(now: int) returns (removed: nat)
      requires Valid()
      modifies this
      ensures Valid()
      ensures removed == |old(ExpiredIds(order, sessions, now))|
      ensures removed == |old(sessions)| - |sessions|
      ensures forall k :: k in sessions <==> k in old(sessions) && !Expired(old(sessions)[k], now)
      ensures forall k :: k in sessions ==> sessions[k] == old(sessions)[k]
      ensures order == WithoutAll(old(order), old(ExpiredIds(order, sessions, now)))
    {
      var expiredSessions: seq<string> := [];
      for i := 0 to |order|
        invariant expiredSessions == ExpiredIds(order[..i], sessions, now)
      {
        var sessionId := order[i];
        if SessionExpired(Some(sessions[sessionId].updatedAt), now) {
          expiredSessions := expiredSessions + [sessionId];
        }
        assert order[..i + 1][..i] == order[..i];
      }
      assert order[..|order|] == order;
      ExpiredIdsDistinct(order, sessions, now);
      DeleteEach(expiredSessions);
      removed := |expiredSessions|;
    }

    /** The second loop of `cleanup_expired_sessions`: `del self.sessions[session_id]` for each listed id. */
    method DeleteEach(ids: seq<string>)
      requires Valid() && Distinct(ids)
      requires forall k :: k in ids ==> k in sessions
      modifies this
      ensures Valid()
      ensures |sessions| == |old(sessions)| - |ids|
      ensures forall k :: k in sessions <==> k in old(sessions) && k !in ids
      ensures forall k :: k in sessions ==> sessions[k] == old(sessions)[k]
      ensures order == WithoutAll(old(order), ids)
    {
      assert ids[..0] == [];
      for j := 0 to |ids|
        invariant Valid()
        invariant forall k :: k in sessions <==> k in old(sessions) && k !in ids[..j]
        invariant forall k :: k in sessions ==> sessions[k] == old(sessions)[k]
        invariant order == WithoutAll(old(order), ids[..j])
        invariant |sessions| == |old(sessions)| - j
      {
        DeleteStepKeys(old(sessions), sessions, ids, j);
        DeleteStepOrder(old(order), ids, j);
        WellKeyedDelete(order, sessions, ids[j]);
        sessions := sessions - {ids[j]};
        order := Without(order, ids[j]);
      }
      assert ids[..|ids|] == ids;
    }
  }
}
