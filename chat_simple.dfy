/**
 * The simplified chat manager (`SimpleContractChatManager`): a per-user cap of
 * ten sessions with eviction of the oldest, a cap of one hundred messages per
 * session, keyword-driven prompt templates and a five-message history window.
 */
module SimpleChat {
  import opened Wrappers
  import opened Text
  import opened ChatSessions

  const MaxSessionsPerUser := 10
  const MaxMessagesPerSession := 100
  const MaxMessageLength := 10000
  const HistoryWindow := 5
  const NoHistory := "无聊天历史"
  const LengthError := "处理消息时出现错误: 消息长度超过限制"
  const NoContract := "暂无合同内容"

  // ---------------------------------------------------------------------------
  // Prompt templates

  /** The six templates of `SimplePromptFactory`; their texts are not modelled. */
  datatype TemplateType = Basic | RiskAnalysis | ClauseAnalysis | LegalAdvice | Summary | Negotiation

  function TemplateName(t: TemplateType): string
  {
    match t
    case Basic => "basic"
    case RiskAnalysis => "risk_analysis"
    case ClauseAnalysis => "clause_analysis"
    case LegalAdvice => "legal_advice"
    case Summary => "summary"
    case Negotiation => "negotiation"
  }

  /** `get_template(template_type)`: the template of that name, `basic` for an unknown name. */
  function GetTemplate(name: string): (t: TemplateType)
    ensures t != Basic ==> TemplateName(t) == name
    ensures (forall u :: TemplateName(u) != name) ==> t == Basic
  {
    if name == "risk_analysis" then RiskAnalysis
    else if name == "clause_analysis" then ClauseAnalysis
    else if name == "legal_advice" then LegalAdvice
    else if name == "summary" then Summary
    else if name == "negotiation" then Negotiation
    else (assert name != TemplateName(RiskAnalysis); Basic)
  }

  lemma GetTemplateRoundTrip(t: TemplateType)
    ensures GetTemplate(TemplateName(t)) == t
  {
    match t
    case Basic =>
    case RiskAnalysis =>
    case ClauseAnalysis =>
    case LegalAdvice =>
    case Summary =>
    case Negotiation =>
  }

  const RiskKeywords := ["风险", "风险点", "风险分析"]
  const ClauseKeywords := ["条款", "分析条款", "条款分析"]
  const LegalKeywords := ["法律", "法律建议", "法律问题"]
  const SummaryKeywords := ["摘要", "总结", "概述"]
  const NegotiationKeywords := ["谈判", "协商", "建议"]

  /** `any(keyword in question for keyword in keywords)`. */
  predicate AnyIn(question: string, keywords: seq<string>)
  {
    keywords != [] && (Contains(question, keywords[0]) || AnyIn(question, keywords[1..]))
  }

  /** `_get_prompt_template(question)`: the first keyword group the question hits picks the template. */
  function PromptTemplate(question: string): TemplateType
  {
    if AnyIn(question, RiskKeywords) then GetTemplate("risk_analysis")
    else if AnyIn(question, ClauseKeywords) then GetTemplate("clause_analysis")
    else if AnyIn(question, LegalKeywords) then GetTemplate("legal_advice")
    else if AnyIn(question, SummaryKeywords) then GetTemplate("summary")
    else if AnyIn(question, NegotiationKeywords) then GetTemplate("negotiation")
    else GetTemplate("basic")
  }

  /**
   * The longer keywords of the first three groups contain the shortest one, so
   * the choice comes down to risk (风险) over clause (条款) over legal (法律)
   * over summary over negotiation over basic.
   */
  lemma TemplatePriority(question: string)
    ensures PromptTemplate(question)
            == if Contains(question, "风险") then RiskAnalysis
               else if Contains(question, "条款") then ClauseAnalysis
               else if Contains(question, "法律") then LegalAdvice
               else if Contains(question, "摘要") || Contains(question, "总结") || Contains(question, "概述") then Summary
               else if Contains(question, "谈判") || Contains(question, "协商") || Contains(question, "建议") then Negotiation
               else Basic
  {
    RiskGroup(question);
    ClauseGroup(question);
    LegalGroup(question);
    AnyOfThree(question, "摘要", "总结", "概述");
    AnyOfThree(question, "谈判", "协商", "建议");
  }

  lemma RiskGroup(question: string)
    ensures AnyIn(question, RiskKeywords) <==> Contains(question, "风险")
  {
    assert "风险" <= "风险点" && "风险" <= "风险分析";
    GroupReduces(question, "风险", "风险点", "风险分析");
  }

  lemma ClauseGroup(question: string)
    ensures AnyIn(question, ClauseKeywords) <==> Contains(question, "条款")
  {
    assert Contains("分析条款", "条款") by {
      assert "分析条款"[1..] == "析条款" && "析条款"[1..] == "条款";
    }
    assert "条款" <= "条款分析";
    GroupReduces(question, "条款", "分析条款", "条款分析");
  }

  lemma LegalGroup(question: string)
    ensures AnyIn(question, LegalKeywords) <==> Contains(question, "法律")
  {
    assert "法律" <= "法律建议" && "法律" <= "法律问题";
    GroupReduces(question, "法律", "法律建议", "法律问题");
  }

  lemma AnyOfThree(question: string, a: string, b: string, c: string)
    ensures AnyIn(question, [a, b, c]) <==> Contains(question, a) || Contains(question, b) || Contains(question, c)
  {
    var g := [a, b, c];
    assert g[1..] == [b, c] && g[1..][1..] == [c] && g[1..][1..][1..] == [];
    assert AnyIn(question, g) == (Contains(question, a) || AnyIn(question, [b, c]));
    assert AnyIn(question, [b, c]) == (Contains(question, b) || AnyIn(question, [c]));
    assert AnyIn(question, [c]) == (Contains(question, c) || AnyIn(question, []));
  }

  /** A keyword group whose longer keywords contain its first one matches iff the first one does. */
  lemma GroupReduces(question: string, k: string, x: string, y: string)
    requires Contains(x, k) && Contains(y, k)
    ensures AnyIn(question, [k, x, y]) <==> Contains(question, k)
  {
    AnyOfThree(question, k, x, y);
    if Contains(question, x) {
      ContainsTrans(question, x, k);
    }
    if Contains(question, y) {
      ContainsTrans(question, y, k);
    }
  }

  // ---------------------------------------------------------------------------
  // Chat history

  function RoleLabel(role: string): string
  {
    if role == "user" then "用户" else "助手"
  }

  /** One history line, `f"{role}: {msg.content}"`. */
  function HistoryLine(m: Message): string
  {
    RoleLabel(m.role) + ": " + m.content
  }

  /** The lines for a list of messages, in order. */
  function HistoryLines(ms: seq<Message>): (lines: seq<string>)
    ensures |lines| == |ms|
    ensures forall i :: 0 <= i < |ms| ==> lines[i] == HistoryLine(ms[i])
  {
    if ms == [] then [] else HistoryLines(ms[..|ms| - 1]) + [HistoryLine(ms[|ms| - 1])]
  }

  /** `messages[-5:]`. */
  function Window(ms: seq<Message>): (w: seq<Message>)
    ensures |w| == Min(HistoryWindow, |ms|) && w == ms[|ms| - |w|..]
  {
    ms[SliceStart(-HistoryWindow, |ms|)..]
  }

  /** The text `_format_chat_history` produces. */
  function ChatHistoryText(ms: seq<Message>): string
  {
    if ms == [] then NoHistory else Join(HistoryLines(Window(ms)), "\n")
  }

  /** `_format_chat_history(messages)`. */
  method FormatChatHistory(messages: seq<Message>) returns (text: string)
    ensures text == ChatHistoryText(messages)
  {
    if messages == [] {
      return NoHistory;
    }
    var window := messages[SliceStart(-HistoryWindow, |messages|)..];
    var history: seq<string> := [];
    for i := 0 to |window|
      invariant history == HistoryLines(window[..i])
    {
      assert window[..i + 1][..i] == window[..i];
      history := history + [HistoryLine(window[i])];
    }
    assert window[..|window|] == window;
    text := Join(history, "\n");
  }

  /**
   * When no message content holds a newline, splitting the history on newlines
   * gives back one line per message of the last five, oldest first.
   */
  lemma HistoryShowsLastFive(ms: seq<Message>)
    requires ms != []
    requires forall i :: 0 <= i < |ms| ==> '\n' !in ms[i].content
    ensures var lines := Split(ChatHistoryText(ms), '\n');
            |lines| == Min(HistoryWindow, |ms|) &&
            forall i :: 0 <= i < |lines| ==> lines[i] == HistoryLine(ms[|ms| - |lines| + i])
  {
    var w := Window(ms);
    var lines := HistoryLines(w);
    forall p | p in lines
      ensures '\n' !in p
    {
      var i :| 0 <= i < |lines| && lines[i] == p;
      assert w[i] == ms[|ms| - |w| + i];
      LineHasNoNewline(w[i]);
    }
    SplitJoin(lines, '\n');
    assert ChatHistoryText(ms) == Join(lines, ['\n']);
  }

  lemma LineHasNoNewline(m: Message)
    requires '\n' !in m.content
    ensures '\n' !in HistoryLine(m)
  {
    var role := RoleLabel(m.role);
    assert '\n' !in role;
    assert HistoryLine(m) == role + ": " + m.content;
  }

  /** A non-empty history starts with a role label, so it never reads as the "no history" marker. */
  lemma HistoryNotMarker(ms: seq<Message>)
    requires ms != []
    ensures ChatHistoryText(ms) != NoHistory
  {
    var lines := HistoryLines(Window(ms));
    JoinStartsWith(lines, "\n");
    var first := lines[0];
    assert first[0] == '用' || first[0] == '助';
    assert NoHistory[0] == '无';
  }

  // ---------------------------------------------------------------------------
  // User ids

  /** Python's `str.isspace` for one character. */
  predicate IsSpace(c: char)
  {
    var n := c as int;
    n == 32 || 9 <= n <= 13 || 28 <= n <= 31 || n == 0x85 || n == 0xA0 || n == 0x1680
    || 0x2000 <= n <= 0x200A || n == 0x2028 || n == 0x2029 || n == 0x202F || n == 0x205F || n == 0x3000
  }

  function TrimLeft(s: string): (r: string)
    ensures r == [] || !IsSpace(r[0])
    ensures r == [] <==> forall i :: 0 <= i < |s| ==> IsSpace(s[i])
  {
    if s != [] && IsSpace(s[0]) then TrimLeft(s[1..]) else s
  }

  function TrimRight(s: string): (r: string)
    ensures |r| <= |s| && r == s[..|r|]
    ensures r == [] <==> forall i :: 0 <= i < |s| ==> IsSpace(s[i])
  {
    if s != [] && IsSpace(s[|s| - 1]) then TrimRight(s[..|s| - 1]) else s
  }

  /** `s.strip()`. */
  function PyStrip(s: string): string
  {
    TrimRight(TrimLeft(s))
  }

  /** `not user_id or not user_id.strip()`: the id is empty or made of whitespace only. */
  predicate MissingUserId(userId: string)
  {
    userId == [] || PyStrip(userId) == []
  }

  lemma MissingIffBlank(userId: string)
    ensures MissingUserId(userId) <==> forall i :: 0 <= i < |userId| ==> IsSpace(userId[i])
  {
  }

  // ---------------------------------------------------------------------------
  // Session listings

  /** The sessions of one user in dict order. */
  function UserList(order: seq<string>, sessions: map<string, Session>, user: string): seq<Session>
  {
    SessionsOf(order, sessions, Some(user))
  }

  /** Index of the first session with the least `created_at`: what `min(..., key=created_at)` picks. */
  function OldestIndex(list: seq<Session>): (i: nat)
    requires list != []
    ensures i < |list|
    ensures forall j :: 0 <= j < |list| ==> list[i].createdAt <= list[j].createdAt
    ensures forall j :: 0 <= j < i ==> list[j].createdAt > list[i].createdAt
  {
    if |list| == 1 then 0
    else
      var m := OldestIndex(list[1..]) + 1;
      if list[m].createdAt < list[0].createdAt then m else 0
  }

  /** The session that creating one more for `user` evicts. */
  function Oldest(order: seq<string>, sessions: map<string, Session>, user: string): Session
    requires UserList(order, sessions, user) != []
  {
    var list := UserList(order, sessions, user);
    list[OldestIndex(list)]
  }

  /** `list.sort(key=updated_at, reverse=True)`: newest first, ties in their original order. */
  function SortByRecent(s: seq<Session>): seq<Session>
  {
    if s == [] then [] else InsertByRecent(s[0], SortByRecent(s[1..]))
  }

  function InsertByRecent(x: Session, s: seq<Session>): seq<Session>
  {
    if s == [] || x.updatedAt >= s[0].updatedAt then [x] + s
    else [s[0]] + InsertByRecent(x, s[1..])
  }

  predicate NewestFirst(s: seq<Session>)
  {
    forall i, j :: 0 <= i < j < |s| ==> s[i].updatedAt >= s[j].updatedAt
  }

  lemma {:induction false} InsertByRecentKeeps(x: Session, s: seq<Session>)
    requires NewestFirst(s)
    ensures NewestFirst(InsertByRecent(x, s))
    ensures multiset(InsertByRecent(x, s)) == multiset(s) + multiset{x}
    ensures InsertByRecent(x, s)[0] == x || InsertByRecent(x, s)[0] == s[0]
  {
    InsertByRecentSorted(x, s);
    InsertByRecentAdds(x, s);
  }

  /** The insertion adds exactly `x`. */
  lemma {:induction false} InsertByRecentAdds(x: Session, s: seq<Session>)
    ensures multiset(InsertByRecent(x, s)) == multiset(s) + multiset{x}
  {
    if s != [] && x.updatedAt < s[0].updatedAt {
      InsertByRecentAdds(x, s[1..]);
      assert s == [s[0]] + s[1..];
    }
  }

  /** The insertion keeps a newest-first list newest-first, and its head is `x` or the old head. */
  lemma {:induction false} InsertByRecentSorted(x: Session, s: seq<Session>)
    requires NewestFirst(s)
    ensures NewestFirst(InsertByRecent(x, s))
    ensures InsertByRecent(x, s)[0] == x || InsertByRecent(x, s)[0] == s[0]
  {
    if s != [] && x.updatedAt < s[0].updatedAt {
      var rest := InsertByRecent(x, s[1..]);
      InsertByRecentSorted(x, s[1..]);
      assert InsertByRecent(x, s) == [s[0]] + rest;
      // the head of `rest` is `x` or `s[1]`, both no newer than `s[0]`
      assert s[0].updatedAt >= rest[0].updatedAt;
      assert forall j :: 0 <= j < |rest| ==> s[0].updatedAt >= rest[j].updatedAt;
    }
  }

  /** The listing order is newest first and a permutation of the sessions listed. */
  lemma {:induction false} SortByRecentSorts(s: seq<Session>)
    ensures NewestFirst(SortByRecent(s))
    ensures multiset(SortByRecent(s)) == multiset(s)
  {
    if s != [] {
      SortByRecentSorts(s[1..]);
      InsertByRecentKeeps(s[0], SortByRecent(s[1..]));
      assert s == [s[0]] + s[1..];
    }
  }

  // ---------------------------------------------------------------------------
  // Results of `chat` and `get_system_stats`

  /** The dict `chat` returns, without its timestamp and response time. */
  datatype ChatReply =
    | SessionNotFound
    | Answered(sessionId: string, response: string, contextUsed: string)
    | Failed(sessionId: string, response: string)

  /** `contract_content[:200] + "..."` when longer than 200 characters. */
  function ContextPreview(content: string): (r: string)
    ensures |content| <= 200 ==> r == content
    ensures |content| > 200 ==> |r| == 203 && r[..200] == content[..200] && r[200..] == "..."
  {
    if |content| > 200 then content[..200] + "..." else content
  }

  datatype UserStat = UserStat(sessions: nat, messages: nat)

  /** `get_system_stats()` without the four constant availability flags. */
  datatype SystemStats = SystemStats(totalSessions: nat, totalMessages: nat, activeUsers: nat, userStats: map<string, UserStat>)

  /** The `user_stats` dict after visiting the sessions named by `order`. */
  function UserStats(order: seq<string>, sessions: map<string, Session>): map<string, UserStat>
  {
    if order == [] then map[]
    else
      var m := UserStats(order[..|order| - 1], sessions);
      var k := order[|order| - 1];
      if k !in sessions then m
      else
        var u := sessions[k].userId;
        var before := if u in m then m[u] else UserStat(0, 0);
        m[u := UserStat(before.sessions + 1, before.messages + |sessions[k].messages|)]
  }

  /** Messages held by a list of sessions. */
  function MessageSum(list: seq<Session>): nat
  {
    if list == [] then 0 else MessageSum(list[..|list| - 1]) + |list[|list| - 1].messages|
  }

  lemma {:induction false} MessageSumAppend(a: seq<Session>, b: seq<Session>)
    ensures MessageSum(a + b) == MessageSum(a) + MessageSum(b)
  {
    if b != [] {
      MessageSumAppend(a, b[..|b| - 1]);
      assert (a + b)[..|a + b| - 1] == a + b[..|b| - 1];
    } else {
      assert a + b == a;
    }
  }

  lemma UserListSnoc(init: seq<string>, k: string, sessions: map<string, Session>, u: string)
    ensures UserList(init + [k], sessions, u) == UserList(init, sessions, u) + Entry(k, sessions, Some(u))
  {
    SessionsOfAppend(init, [k], sessions, Some(u));
    assert SessionsOf([k], sessions, Some(u)) == Entry(k, sessions, Some(u)) + SessionsOf([], sessions, Some(u));
  }

  /** A user appears in `user_stats` iff they own a session, with their session and message counts. */
  lemma {:induction false} UserStatsMatchListing(order: seq<string>, sessions: map<string, Session>, u: string)
    ensures u in UserStats(order, sessions) <==> UserList(order, sessions, u) != []
    ensures u in UserStats(order, sessions) ==>
              UserStats(order, sessions)[u] == UserStat(|UserList(order, sessions, u)|, MessageSum(UserList(order, sessions, u)))
  {
    if order != [] {
      var init := order[..|order| - 1];
      var k := order[|order| - 1];
      UserStatsMatchListing(init, sessions, u);
      assert order == init + [k];
      UserListSnoc(init, k, sessions, u);
      var before := UserList(init, sessions, u);
      var e := Entry(k, sessions, Some(u));
      MessageSumAppend(before, e);
      var m := UserStats(init, sessions);
      UserStatsStep(order, sessions, u);
      if k in sessions && sessions[k].userId == u {
        assert e == [sessions[k]];
        assert MessageSum(e) == |sessions[k].messages|;
      } else {
        assert e == [];
        assert before + e == before;
      }
    }
  }

  /** How visiting one more session changes the entry of user `u`. */
  lemma UserStatsStep(order: seq<string>, sessions: map<string, Session>, u: string)
    requires order != []
    ensures var m := UserStats(order[..|order| - 1], sessions);
            var k := order[|order| - 1];
            var after := UserStats(order, sessions);
            if k in sessions && sessions[k].userId == u then
              var b := if u in m then m[u] else UserStat(0, 0);
              u in after && after[u] == UserStat(b.sessions + 1, b.messages + |sessions[k].messages|)
            else
              (u in after <==> u in m) && (u in m ==> after[u] == m[u])
  {
  }

  /** The table keeps no user above `MAX_SESSIONS_PER_USER` sessions. */
  ghost predicate CappedTable(order: seq<string>, sessions: map<string, Session>)
  {
    forall u :: |UserList(order, sessions, u)| <= MaxSessionsPerUser
  }

  lemma ReplaceKeepsCap(order: seq<string>, sessions: map<string, Session>, s: Session)
    requires s.sessionId in sessions && s.userId == sessions[s.sessionId].userId
    ensures CappedTable(order, sessions) ==> CappedTable(order, sessions[s.sessionId := s])
  {
    var after := sessions[s.sessionId := s];
    if CappedTable(order, sessions) {
      forall u
        ensures |UserList(order, after, u)| <= MaxSessionsPerUser
      {
        ListAfterReplace(order, sessions, s.sessionId, s, Some(u));
        assert |UserList(order, sessions, u)| <= MaxSessionsPerUser;
      }
    }
  }

  /**
   * The `try` block of `chat` for a message within the length limit: the user
   * message is added, the list cut to its last `MAX_MESSAGES_PER_SESSION`,
   * the reply generated from the template and history, and added.
   */
  method Converse(session: Session, userMessage: string, userMsgId: string, replyId: string, now: int, contract: string,
                  generate: (TemplateType, string, string, string) -> string)
    returns (updated: Session, response: string)
    ensures var kept := RecentMessages(session.messages + [Message(userMsgId, "user", userMessage, now, None)], MaxMessagesPerSession);
            response == generate(PromptTemplate(userMessage), contract, ChatHistoryText(kept), userMessage) &&
            updated == session.(messages := kept + [Message(replyId, "assistant", response, now, None)], updatedAt := now)
    ensures |updated.messages| == Min(|session.messages| + 1, MaxMessagesPerSession) + 1
  {
    updated := AddMessage(session, userMsgId, "user", userMessage, None, now);
    ghost var grown := updated.messages;
    if |updated.messages| > MaxMessagesPerSession {
      updated := updated.(messages := updated.messages[|updated.messages| - MaxMessagesPerSession..]);
    }
    assert updated.messages == RecentMessages(grown, MaxMessagesPerSession);
    var template := PromptTemplate(userMessage);
    var history := FormatChatHistory(updated.messages);
    response := generate(template, contract, history, userMessage);
    updated := AddMessage(updated, replyId, "assistant", response, None, now);
  }

  // ---------------------------------------------------------------------------
  // The manager

  class SimpleContractChatManager {
    var sessions: map<string, Session>
    /** The order in which `self.sessions` yields its keys. */
    var order: seq<string>
    var contractContent: string

    ghost predicate Valid()
      reads this
    {
      WellKeyed(order, sessions)
    }

    /** No user holds more than `MAX_SESSIONS_PER_USER` sessions. */
    ghost predicate Capped()
      reads this
    {
      CappedTable(order, sessions)
    }

    constructor ()
      ensures Valid() && Capped()
      ensures sessions == map[] && order == [] && contractContent == ""
    {
      sessions := map[];
      order := [];
      contractContent := "";
    }

    /** `delete_session(session_id)`. */
    method DeleteSession(sessionId: string) returns (deleted: bool)
      requires Valid()
      modifies this
      ensures Valid() && contractContent == old(contractContent)
      ensures deleted <==> sessionId in old(sessions)
      ensures sessions == old(sessions) - {sessionId}
      ensures order == Without(old(order), sessionId)
      ensures deleted ==> forall u :: |UserList(order, sessions, u)| == |old(UserList(order, sessions, u))|
                                        - (if old(sessions)[sessionId].userId == u then 1 else 0)
      ensures deleted ==> forall u :: u != old(sessions)[sessionId].userId ==>
                                        UserList(order, sessions, u) == old(UserList(order, sessions, u))
      ensures old(Capped()) ==> Capped()
    {
      deleted := sessionId in sessions;
      if deleted {
        ghost var order0, sessions0 := order, sessions;
        WellKeyedDelete(order, sessions, sessionId);
        sessions := sessions - {sessionId};
        order := Without(order, sessionId);
        forall u
          ensures |UserList(order, sessions, u)| == |UserList(order0, sessions0, u)|
                  - (if sessions0[sessionId].userId == u then 1 else 0)
          ensures u != sessions0[sessionId].userId ==> UserList(order, sessions, u) == UserList(order0, sessions0, u)
        {
          SessionsOfWithout(order0, sessions0, sessionId, Some(u));
          if u != sessions0[sessionId].userId {
            ListAfterDeleteOther(order0, sessions0, sessionId, Some(u));
          }
        }
      } else {
        WithoutAbsent(order, sessionId);
      }
    }

    /**
     * `create_session(user_id, contract_file)`, with `freshId` for `uuid4()`
     * and `now` for `datetime.now()`.
     */
    method CreateSession(userId: string, contractFile: Option<string>, freshId: string, now: int)
      returns (r: Result<string, string>)
      requires Valid()
      requires freshId !in sessions
      modifies this
      ensures Valid() && contractContent == old(contractContent)
      ensures MissingUserId(userId) ==> r == Err("ValueError") && sessions == old(sessions) && order == old(order)
      ensures !MissingUserId(userId) ==> r == Ok(freshId)
      ensures !MissingUserId(userId) && |old(UserList(order, sessions, userId))| < MaxSessionsPerUser ==>
                sessions == old(sessions)[freshId := NewSession(freshId, userId, contractFile, now)] &&
                order == old(order) + [freshId]
      ensures !MissingUserId(userId) && |old(UserList(order, sessions, userId))| >= MaxSessionsPerUser ==>
                var evicted := old(Oldest(order, sessions, userId)).sessionId;
                sessions == (old(sessions) - {evicted})[freshId := NewSession(freshId, userId, contractFile, now)] &&
                order == Without(old(order), evicted) + [freshId]
      ensures !MissingUserId(userId) ==>
                var before := |old(UserList(order, sessions, userId))|;
                |UserList(order, sessions, userId)| == if before >= MaxSessionsPerUser then before else before + 1
      ensures forall u :: u != userId ==> UserList(order, sessions, u) == old(UserList(order, sessions, u))
      ensures old(Capped()) ==> Capped()
    {
      if userId == [] || PyStrip(userId) == [] {
        return Err("ValueError");
      }
      ghost var order0, sessions0 := order, sessions;
      ghost var before := |UserList(order, sessions, userId)|;
      var userSessions := UserList(order, sessions, userId);
      if |userSessions| >= MaxSessionsPerUser {
        var oldest := userSessions[OldestIndex(userSessions)];
        SessionsOfSound(order, sessions, Some(userId), OldestIndex(userSessions));
        var _ := DeleteSession(oldest.sessionId);
        assert oldest == Oldest(order0, sessions0, userId);
      }
      assert |UserList(order, sessions, userId)| == if before >= MaxSessionsPerUser then before - 1 else before;
      assert freshId !in sessions;
      ghost var order1, sessions1 := order, sessions;
      var session := NewSession(freshId, userId, contractFile, now);
      WellKeyedAdd(order, sessions, session);
      sessions := sessions[freshId := session];
      order := order + [freshId];
      forall u
        ensures UserList(order, sessions, u)
                == UserList(order1, sessions1, u) + (if u == userId then [session] else [])
      {
        ListAfterAdd(order1, sessions1, freshId, session, Some(u));
      }
      forall u | u != userId
        ensures UserList(order, sessions, u) == UserList(order0, sessions0, u)
      {
        assert UserList(order, sessions, u) == UserList(order1, sessions1, u) + [];
      }
      assert |UserList(order, sessions, userId)| == |UserList(order1, sessions1, userId)| + 1;
      r := Ok(freshId);
    }

    /**
     * `chat(session_id, user_message)`, with `generate` standing for
     * `_generate_response` (template, contract text, history, question).
     */
    method Chat(sessionId: string, userMessage: string, userMsgId: string, replyId: string, now: int,
                generate: (TemplateType, string, string, string) -> string)
      returns (result: ChatReply)
      requires Valid()
      modifies this
      ensures Valid() && order == old(order) && contractContent == old(contractContent)
      ensures sessionId !in old(sessions) ==> result == SessionNotFound && sessions == old(sessions)
      ensures sessionId in old(sessions) && |userMessage| > MaxMessageLength ==>
                result == Failed(sessionId, LengthError) &&
                sessions == old(sessions)[sessionId := AddMessage(old(sessions)[sessionId], replyId, "assistant",
                                                                   LengthError, Some("ValueError"), now)]
      ensures sessionId in old(sessions) && |userMessage| <= MaxMessageLength ==>
                var s := old(sessions)[sessionId];
                var kept := RecentMessages(s.messages + [Message(userMsgId, "user", userMessage, now, None)], MaxMessagesPerSession);
                var contract := if contractContent == "" then NoContract else contractContent;
                var response := generate(PromptTemplate(userMessage), contract, ChatHistoryText(kept), userMessage);
                result == Answered(sessionId, response, ContextPreview(contractContent)) &&
                sessions == old(sessions)[sessionId := s.(messages := kept + [Message(replyId, "assistant", response, now, None)],
                                                          updatedAt := now)] &&
                |sessions[sessionId].messages| == Min(|s.messages| + 1, MaxMessagesPerSession) + 1
      ensures old(Capped()) ==> Capped()
    {
      if sessionId !in sessions {
        return SessionNotFound;
      }
      var session := sessions[sessionId];
      if |userMessage| > MaxMessageLength {
        session := AddMessage(session, replyId, "assistant", LengthError, Some("ValueError"), now);
        result := Failed(sessionId, LengthError);
      } else {
        var contract := if contractContent == "" then NoContract else contractContent;
        var response;
        session, response := Converse(session, userMessage, userMsgId, replyId, now, contract, generate);
        result := Answered(sessionId, response, ContextPreview(contractContent));
      }
      ReplaceKeepsCap(order, sessions, session);
      WellKeyedReplace(order, sessions, session);
      sessions := sessions[sessionId := session];
    }

    /** `list_sessions(user_id)`: the user's sessions (all for `None`), newest first. */
    method ListSessions(user: Option<string>) returns (r: seq<Session>)
      requires Valid()
      ensures r == SortByRecent(SessionsOf(order, sessions, user))
      ensures NewestFirst(r)
      ensures multiset(r) == multiset(SessionsOf(order, sessions, user))
    {
      var list: seq<Session> := [];
      for i := 0 to |order|
        invariant list == SessionsOf(order[..i], sessions, user)
      {
        var k := order[i];
        var session := sessions[k];
        if user == None || session.userId == user.value {
          list := list + [session];
        }
        SessionsOfAppend(order[..i], [k], sessions, user);
        assert order[..i + 1] == order[..i] + [k];
        assert SessionsOf([k], sessions, user) == Entry(k, sessions, user) + SessionsOf([], sessions, user);
      }
      assert order[..|order|] == order;
      r := SortByRecent(list);
      SortByRecentSorts(list);
    }

    /** `get_system_stats()`. */
    method GetSystemStats() returns (stats: SystemStats)
      requires Valid()
      ensures stats.totalSessions == |sessions|
      ensures stats.totalMessages == TotalMessages(order, sessions)
      ensures stats.userStats == UserStats(order, sessions)
      ensures stats.activeUsers == |stats.userStats|
    {
      var userStats: map<string, UserStat> := map[];
      for i := 0 to |order|
        invariant userStats == UserStats(order[..i], sessions)
      {
        var session := sessions[order[i]];
        var userId := session.userId;
        if userId !in userStats {
          userStats := userStats[userId := UserStat(0, 0)];
        }
        userStats := userStats[userId := UserStat(userStats[userId].sessions + 1,
                                                  userStats[userId].messages + |session.messages|)];
        assert order[..i + 1][..i] == order[..i];
      }
      assert order[..|order|] == order;
      stats := SystemStats(|sessions|, TotalMessages(order, sessions), |userStats|, userStats);
    }
  }
}
