/**
 * The Telegram bot (arxiv_tgbot.py): per-user sessions kept by a session manager that expires idle
 * ones, the `/set_keywords` dialogue that edits a user's saved queries, and the delivery of search
 * results that records each (paper, user) pair after a successful send.
 *
 * Each dialogue event is first described as a pure `Step` (what the next state, `tmp_data` and
 * stored list are), and the classes apply that step to the session, the manager and the store.
 */
module Telegram {
  import opened Wrappers
  import opened Strings
  import opened Store
  import opened Client
  import opened Delivery
  import opened Dialogue

  /** The session `state` tags; `NoState` is `None`. */
  datatype FlowState = NoState | SettingKeywords | AddingKeyword | AddingMaxResults | DeletingKeyword

  /** One `{"chat_id": ..., "message_id": ...}` entry of a session's revoke list. */
  datatype RevokeRef = RevokeRef(chatId: int, messageId: int)

  /** What a reply or edit call handed back: a message, or anything else (`None`, `True`). */
  datatype Reply = Posted(chatId: int, messageId: int) | NotAMessage

  /**
   * The entries `add_revoke_message` appends for a reply: a message's chat and id; nothing for a
   * falsy value, nor for a value without a `chat`, which only a `dict` would have been kept as.
   */
  function Tracked(r: Reply): seq<RevokeRef> {
    if r.Posted? then [RevokeRef(r.chatId, r.messageId)] else []
  }

  /** The watchdog's test: idle for strictly longer than the timeout. */
  predicate IsExpired(now: real, lastActive: real, timeout: int) {
    now - lastActive > timeout as real
  }

  /** Expiry is strict: a session idle for exactly its timeout is kept, one idle any longer is not. */
  lemma ExpiryStrict(lastActive: real, timeout: int, extra: real)
    ensures !IsExpired(lastActive + timeout as real, lastActive, timeout)
    ensures extra > 0.0 ==> IsExpired(lastActive + timeout as real + extra, lastActive, timeout)
    ensures forall now: real :: IsExpired(now, lastActive, timeout) <==> now > lastActive + timeout as real
  {
  }

  /**
   * What one dialogue event does: the next `state` and `tmp_data`, the query list then written
   * for the user (if any), whether the bot's reply joins the revoke list, and whether the session
   * ends. `Raises` is an exception that escapes the handler, leaving the session as it was.
   */
  datatype Step =
    | Step(state: FlowState, tmp: map<string, string>, write: Option<seq<SearchQuery>>, tracks: bool, ends: bool)
    | Raises

  /** The event only re-prompts: nothing changes and the reply is not tracked. */
  function Stay(state: FlowState, tmp: map<string, string>): Step {
    Step(state, tmp, None, false, false)
  }

  /** `session.end()`: the revoke list is cleared, state and `tmp_data` reset, the session removed. */
  function Ended(write: Option<seq<SearchQuery>>): Step {
    Step(NoState, map[], write, false, true)
  }

  /** The session invariant: while a cap is asked for, the keyword it belongs to is held, stripped. */
  predicate WellFormed(state: FlowState, tmp: map<string, string>) {
    state == AddingMaxResults ==> "new_keyword" in tmp && tmp["new_keyword"] != "" && Trimmed(tmp["new_keyword"])
  }

  /** A query's cap when the message gives it as a number inside `1..maxAllowed`. */
  function CapOf(text: string, maxAllowed: int): Option<int> {
    var n := ParseInt(Strip(text));
    if n.Some? && 1 <= n.value <= maxAllowed then n else None
  }

  /** `start`: asks for a first query when the user has none, otherwise offers the three choices. */
  function StartStep(tmp: map<string, string>, stored: seq<SearchQuery>): Step {
    Step(if stored == [] then AddingKeyword else SettingKeywords, tmp, None, true, false)
  }

  /** `on_callback` for a button's `data`; `stored` is the user's saved list. */
  function CallbackStep(state: FlowState, tmp: map<string, string>, data: string, stored: seq<SearchQuery>): Step {
    if data == "cancel" then Ended(None)
    else if data == "add_keyword" then Step(AddingKeyword, tmp, None, true, false)
    else if data == "delete_keyword" then
      if stored == [] then Ended(None) else Step(DeletingKeyword, tmp, None, true, false)
    else Stay(state, tmp)
  }

  /** `on_message` for a text message; `stored` is the user's saved list. */
  function MessageStep(state: FlowState, tmp: map<string, string>, text: string, stored: seq<SearchQuery>,
                       maxAllowed: int): Step
  {
    var t := Strip(text);
    match state
    case AddingKeyword =>
      if t == "" then Stay(state, tmp)
      else Step(AddingMaxResults, tmp["new_keyword" := t], None, true, false)
    case AddingMaxResults =>
      var cap := CapOf(text, maxAllowed);
      if cap.None? then Stay(state, tmp)
      else if "new_keyword" !in tmp then Raises
      else if Listed(stored, tmp["new_keyword"]) then Stay(AddingKeyword, tmp)
      else Ended(Some(stored + [SearchQuery(tmp["new_keyword"], cap)]))
    case DeletingKeyword =>
      var n := ParseInt(t);
      if n.Some? && 0 <= n.value - 1 < |stored| then Ended(Some(RemoveAt(stored, n.value - 1)))
      else Stay(state, tmp)
    case _ => Stay(state, tmp)
  }

  /** The fields the dialogue writes for a user. */
  function TelegramConfig(qs: seq<SearchQuery>): map<string, FieldValue> {
    map["search_queries" := Queries(qs), "platform" := Text("telegram")]
  }

  /** From a well-formed session no message raises, and the session stays well formed. */
  lemma MessageKeepsWellFormed(state: FlowState, tmp: map<string, string>, text: string, stored: seq<SearchQuery>,
                               maxAllowed: int)
    requires WellFormed(state, tmp)
    ensures var s := MessageStep(state, tmp, text, stored, maxAllowed);
      s.Step? && WellFormed(s.state, s.tmp)
  {
    match state
    case AddingKeyword => AddingKeywordFacts(tmp, text, stored, maxAllowed);
      assert Trimmed(Strip(text));
    case AddingMaxResults => AddingMaxResultsFacts(tmp, text, stored, maxAllowed);
    case DeletingKeyword => DeletingFacts(tmp, text, stored, maxAllowed);
    case _ =>
  }

  /** A button press never raises, never writes, keeps the session well formed, and ends it exactly on cancel or on delete with nothing saved. */
  lemma CallbackFacts(state: FlowState, tmp: map<string, string>, data: string, stored: seq<SearchQuery>)
    requires WellFormed(state, tmp)
    ensures var s := CallbackStep(state, tmp, data, stored);
      && s.Step? && s.write.None? && WellFormed(s.state, s.tmp)
      && (s.ends <==> data == "cancel" || (data == "delete_keyword" && stored == []))
      && (data == "add_keyword" ==> s.state == AddingKeyword && s.tracks)
      && (data == "delete_keyword" && stored != [] ==> s.state == DeletingKeyword && s.tracks)
  {
  }

  /**
   * Asking for a query: stripped-empty text changes nothing; any other text is held, stripped, as
   * `new_keyword` and the cap is asked for. The store is never written here.
   */
  lemma AddingKeywordFacts(tmp: map<string, string>, text: string, stored: seq<SearchQuery>, maxAllowed: int)
    ensures var s := MessageStep(AddingKeyword, tmp, text, stored, maxAllowed);
      && s.Step? && s.write.None? && !s.ends
      && (s.state == AddingKeyword <==> forall i | 0 <= i < |text| :: IsSpace(text[i]))
      && (s.state == AddingKeyword ==> s == Stay(AddingKeyword, tmp))
      && (s.state != AddingKeyword ==>
            s.state == AddingMaxResults && s.tmp == tmp["new_keyword" := Strip(text)] && s.tracks)
  {
    StripEmpty(text);
  }

  /** An accepted cap is what `int(text)` gives for the message. */
  lemma CapParses(text: string, maxAllowed: int)
    requires CapOf(text, maxAllowed).Some?
    ensures ParseInt(text) == CapOf(text, maxAllowed)
  {
    StripIdempotent(text);
  }

  /**
   * Asking for the cap: the session stays as it is unless the text is a number in `1..maxAllowed`;
   * then a listed keyword sends the user back to entering a query, keeping the store, and an
   * unlisted one is appended with that cap, after which the session ends.
   */
  lemma AddingMaxResultsFacts(tmp: map<string, string>, text: string, stored: seq<SearchQuery>, maxAllowed: int)
    requires "new_keyword" in tmp
    ensures var s := MessageStep(AddingMaxResults, tmp, text, stored, maxAllowed);
      var kw := tmp["new_keyword"];
      && s.Step?
      && (s.state == AddingMaxResults <==> CapOf(text, maxAllowed).None?)
      && (s.state == AddingMaxResults ==> s == Stay(AddingMaxResults, tmp))
      && (CapOf(text, maxAllowed).Some? && Listed(stored, kw) ==> s == Stay(AddingKeyword, tmp))
      && (s.write.Some? <==> CapOf(text, maxAllowed).Some? && !Listed(stored, kw))
      && (s.write.Some? ==>
            && s.ends && s.write.value == stored + [SearchQuery(kw, CapOf(text, maxAllowed))]
            && ParseInt(text) == CapOf(text, maxAllowed))
  {
    var cap := CapOf(text, maxAllowed);
    var kw := tmp["new_keyword"];
    var s := MessageStep(AddingMaxResults, tmp, text, stored, maxAllowed);
    if cap.None? {
      assert s == Stay(AddingMaxResults, tmp);
    } else if Listed(stored, kw) {
      assert s == Stay(AddingKeyword, tmp);
    } else {
      CapParses(text, maxAllowed);
      assert s == Ended(Some(stored + [SearchQuery(kw, cap)]));
    }
  }

  /**
   * Deleting: a number `k` with `1 <= k <= |stored|` removes entry `k - 1` and ends the session;
   * any other text changes nothing.
   */
  lemma DeletingFacts(tmp: map<string, string>, text: string, stored: seq<SearchQuery>, maxAllowed: int)
    ensures var s := MessageStep(DeletingKeyword, tmp, text, stored, maxAllowed);
      var n := ParseInt(text);
      && s.Step?
      && (s.write.Some? <==> n.Some? && 1 <= n.value <= |stored|)
      && (s.write.Some? ==> s.ends && s.write.value == RemoveAt(stored, n.value - 1))
      && (s.write.None? ==> s == Stay(DeletingKeyword, tmp))
  {
    StripIdempotent(text);
  }

  /** Typing the number `start` lists in front of an entry deletes exactly that entry. */
  lemma DeleteShownNumber(tmp: map<string, string>, stored: seq<SearchQuery>, i: nat, maxAllowed: int)
    requires i < |stored|
    ensures MessageStep(DeletingKeyword, tmp, IntToString(i + 1), stored, maxAllowed) == Ended(Some(RemoveAt(stored, i)))
  {
    ParseIntToString(i + 1);
    DeletingFacts(tmp, IntToString(i + 1), stored, maxAllowed);
  }

  /** In every state: a write happens exactly when the session ends with something to store. */
  lemma WriteEnds(state: FlowState, tmp: map<string, string>, text: string, stored: seq<SearchQuery>, maxAllowed: int)
    ensures var s := MessageStep(state, tmp, text, stored, maxAllowed);
      s.Step? ==> (s.ends <==> s.write.Some?) && (s.ends ==> s.state == NoState && s.tmp == map[])
  {
    match state
    case AddingKeyword => AddingKeywordFacts(tmp, text, stored, maxAllowed);
    case AddingMaxResults =>
      if "new_keyword" in tmp {
        AddingMaxResultsFacts(tmp, text, stored, maxAllowed);
      }
    case DeletingKeyword => DeletingFacts(tmp, text, stored, maxAllowed);
    case _ =>
  }

  /** A list the dialogue writes is well kept whenever the list it started from was. */
  lemma MessageWriteKeepsList(state: FlowState, tmp: map<string, string>, text: string, stored: seq<SearchQuery>,
                              maxAllowed: int)
    requires WellFormed(state, tmp) && WellKept(stored, maxAllowed)
    ensures var s := MessageStep(state, tmp, text, stored, maxAllowed);
      s.Step? && (s.write.Some? ==> WellKept(s.write.value, maxAllowed))
  {
    match state
    case AddingKeyword => AddingKeywordFacts(tmp, text, stored, maxAllowed);
    case AddingMaxResults =>
      var s := MessageStep(state, tmp, text, stored, maxAllowed);
      AddingMaxResultsFacts(tmp, text, stored, maxAllowed);
      if s.write.Some? {
        var q := SearchQuery(tmp["new_keyword"], CapOf(text, maxAllowed));
        assert s.write.value == stored + [q];
        AppendKeeps(stored, q, maxAllowed);
      }
    case DeletingKeyword =>
      var s := MessageStep(state, tmp, text, stored, maxAllowed);
      DeletingFacts(tmp, text, stored, maxAllowed);
      if s.write.Some? {
        RemoveKeeps(stored, ParseInt(text).value - 1, maxAllowed);
      }
    case _ =>
  }

  /** The write the dialogue makes is accepted and sets just this user's saved list. */
  lemma TelegramWriteStores(users: map<int, UserRow>, userId: int, qs: seq<SearchQuery>)
    ensures var r := Upsert(users, userId, TelegramConfig(qs), UserColumns);
      && r.Some? && r.value.Keys == users.Keys + {userId}
      && QueriesOf(r.value[userId]) == qs
      && forall id | id in users && id != userId :: r.value[id] == users[id]
  {
    var c := TelegramConfig(qs);
    assert c.Keys == {"search_queries", "platform"};
    if userId in users {
      var row := Merge(users[userId], c, UserColumns);
      assert "search_queries" in row && row["search_queries"] == Queries(qs);
    }
  }

  /**
   * As the table is declared, without a `platform` column, the same write for a user with no row
   * is refused (the row constructor raises `TypeError`), so such a user can never save a query.
   */
  lemma TelegramWriteRefusedAsDeclared(users: map<int, UserRow>, userId: int, qs: seq<SearchQuery>)
    requires userId !in users
    ensures Upsert(users, userId, TelegramConfig(qs), UserColumnsAsDeclared).None?
  {
    assert "platform" in TelegramConfig(qs).Keys;
  }

  /** The fields of a session that its methods update, as one value. */
  datatype SessionFields = SessionFields(state: FlowState, tmpData: map<string, string>, toRevoke: seq<RevokeRef>,
                                         lastActive: real, hasFlow: bool)

  /** The fields a cleared session has: state and temporary data reset, nothing left to revoke. */
  function Cleared(f: SessionFields): SessionFields {
    f.(state := NoState, tmpData := map[], toRevoke := [])
  }

  /** One user's session (`UserSession`). */
  class UserSession {
    const userId: int
    const timeout: int
    var state: FlowState
    var tmpData: map<string, string>
    /** `_messages_to_revoke` */
    var toRevoke: seq<RevokeRef>
    var lastActive: real
    /** Whether `/set_keywords` attached a flow (`session.flow`). */
    var hasFlow: bool

    constructor (userId: int, timeout: int, now: real)
      ensures this.userId == userId && this.timeout == timeout
      ensures state == NoState && tmpData == map[] && toRevoke == [] && lastActive == now && !hasFlow
    {
      this.userId := userId;
      this.timeout := timeout;
      state, tmpData, toRevoke, lastActive, hasFlow := NoState, map[], [], now, false;
    }

    predicate Consistent()
      reads this
    {
      WellFormed(state, tmpData)
    }

    function Fields(): SessionFields
      reads this
    {
      SessionFields(state, tmpData, toRevoke, lastActive, hasFlow)
    }

    /** `touch` */
    method Touch(now: real)
      modifies this
      ensures lastActive == now
      ensures state == old(state) && tmpData == old(tmpData) && toRevoke == old(toRevoke) && hasFlow == old(hasFlow)
    {
      lastActive := now;
    }

    /** `add_revoke_message` */
    method AddRevokeMessage(reply: Reply)
      modifies this
      ensures toRevoke == old(toRevoke) + Tracked(reply)
      ensures state == old(state) && tmpData == old(tmpData) && lastActive == old(lastActive) && hasFlow == old(hasFlow)
    {
      if reply.Posted? {
        toRevoke := toRevoke + [RevokeRef(reply.chatId, reply.messageId)];
      }
    }

    /**
     * `revoke_messages`: a delete is tried for every tracked message, in order, whatever becomes of
     * the others (`deleted` says which succeeded), and the list is emptied.
     */
    method RevokeMessages() returns (attempted: seq<RevokeRef>, deleted: seq<bool>)
      modifies this
      ensures attempted == old(toRevoke) && |deleted| == |attempted| && toRevoke == []
      ensures state == old(state) && tmpData == old(tmpData) && lastActive == old(lastActive) && hasFlow == old(hasFlow)
    {
      attempted, deleted := [], [];
      var pending := toRevoke;
      for i := 0 to |pending|
        invariant attempted == pending[..i] && |deleted| == i
      {
        var ok: bool := *;
        attempted, deleted := attempted + [pending[i]], deleted + [ok];
      }
      toRevoke := [];
    }

    /** `reset` */
    method Reset()
      modifies this
      ensures state == NoState && tmpData == map[]
      ensures toRevoke == old(toRevoke) && lastActive == old(lastActive) && hasFlow == old(hasFlow)
    {
      state, tmpData := NoState, map[];
    }

    /** `end`: the flow finishes the session, which leaves the manager. */
    method End(manager: SessionManager) returns (attempted: seq<RevokeRef>)
      requires manager.Valid()
      modifies this, manager
      ensures attempted == old(toRevoke)
      ensures state == NoState && tmpData == map[] && toRevoke == []
      ensures lastActive == old(lastActive) && hasFlow == old(hasFlow)
      ensures manager.sessions == old(manager.sessions) - {userId} && manager.botAttached == old(manager.botAttached)
      ensures manager.Valid()
    {
      var deleted;
      attempted, deleted := RevokeMessages();
      Reset();
      manager.Remove(userId);
    }

    /** `on_expire`: the timeout notice may fail to send; either way the session is cleared. */
    method OnExpire() returns (attempted: seq<RevokeRef>, noticeSent: bool)
      modifies this
      ensures attempted == old(toRevoke)
      ensures state == NoState && tmpData == map[] && toRevoke == []
      ensures lastActive == old(lastActive) && hasFlow == old(hasFlow)
    {
      var deleted;
      attempted, deleted := RevokeMessages();
      noticeSent := *;
      Reset();
    }
  }

  predicate SessionExpired(s: UserSession, now: real)
    reads s
  {
    IsExpired(now, s.lastActive, s.timeout)
  }

  /** `SessionManager`: the sessions by user id. */
  class SessionManager {
    const timeout: int
    var sessions: map<int, UserSession>
    /** Whether `attach_bot` has been called; only then are expired sessions handled. */
    var botAttached: bool

    constructor (timeout: int)
      ensures this.timeout == timeout && sessions == map[] && !botAttached
    {
      this.timeout := timeout;
      sessions, botAttached := map[], false;
    }

    /** Each session sits under its own user's id and has the manager's timeout. */
    predicate Valid()
      reads this
    {
      forall uid | uid in sessions :: sessions[uid].userId == uid && sessions[uid].timeout == timeout
    }

    /** `attach_bot` */
    method AttachBot()
      modifies this
      ensures botAttached && sessions == old(sessions)
    {
      botAttached := true;
    }

    /**
     * `get_or_create`: the existing session for a known id, otherwise a new one added under that id
     * alone; either way it is touched.
     */
    method GetOrCreate(uid: int, now: real) returns (s: UserSession)
      requires Valid()
      modifies this, if uid in sessions then {sessions[uid]} else {}
      ensures Valid() && botAttached == old(botAttached)
      ensures sessions == old(sessions)[uid := s] && s.userId == uid && s.lastActive == now
      ensures uid in old(sessions) ==>
        && s == old(sessions[uid])
        && s.state == old(sessions[uid].state) && s.tmpData == old(sessions[uid].tmpData)
        && s.toRevoke == old(sessions[uid].toRevoke) && s.hasFlow == old(sessions[uid].hasFlow)
      ensures uid !in old(sessions) ==>
        fresh(s) && s.state == NoState && s.tmpData == map[] && s.toRevoke == [] && !s.hasFlow
    {
      if uid in sessions {
        s := sessions[uid];
      } else {
        s := new UserSession(uid, timeout, now);
        sessions := sessions[uid := s];
      }
      s.Touch(now);
    }

    /** `remove`: drops that id's entry; nothing happens for an id not present. */
    method Remove(uid: int)
      requires Valid()
      modifies this
      ensures sessions == old(sessions) - {uid} && botAttached == old(botAttached)
      ensures Valid()
    {
      if uid in sessions {
        sessions := sessions - {uid};
      }
    }

    /** The scan of `_watchdog_loop`: every session idle for longer than its timeout, each once. */
    method ScanExpired(now: real) returns (expired: seq<UserSession>)
      requires Valid()
      ensures forall i | 0 <= i < |expired| ::
        expired[i].userId in sessions && sessions[expired[i].userId] == expired[i] && SessionExpired(expired[i], now)
      ensures forall uid | uid in sessions && SessionExpired(sessions[uid], now) :: sessions[uid] in expired
      ensures forall i, j | 0 <= i < j < |expired| :: expired[i].userId != expired[j].userId
    {
      expired := [];
      var todo := sessions.Keys;
      while todo != {}
        invariant todo <= sessions.Keys
        invariant forall i | 0 <= i < |expired| ::
          expired[i].userId in sessions - todo && sessions[expired[i].userId] == expired[i] && SessionExpired(expired[i], now)
        invariant forall uid | uid in sessions && uid !in todo && SessionExpired(sessions[uid], now) :: sessions[uid] in expired
        invariant forall i, j | 0 <= i < j < |expired| :: expired[i].userId != expired[j].userId
        decreases todo
      {
        HasElement(todo);
        var uid: int :| uid in todo;
        var s := sessions[uid];
        if SessionExpired(s, now) {
          expired := expired + [s];
        }
        todo := todo - {uid};
      }
    }

    /** `_handle_expire`: the session is cleared and, in any case, removed. */
    method HandleExpire(s: UserSession) returns (noticeSent: bool)
      requires Valid()
      modifies this, s
      ensures Valid() && botAttached == old(botAttached)
      ensures sessions == old(sessions) - {s.userId}
      ensures s.Fields() == Cleared(old(s.Fields()))
    {
      var attempted;
      attempted, noticeSent := s.OnExpire();
      Remove(s.userId);
    }

    /**
     * One round of `_watchdog_loop`: with a bot attached, every expired session is cleared and
     * removed and every other one stays; without one, expired sessions are only found.
     */
    method WatchdogPass(now: real)
      requires Valid()
      modifies this, sessions.Values
      ensures Valid() && botAttached == old(botAttached)
      ensures sessions.Keys <= old(sessions).Keys
      ensures forall uid | uid in old(sessions) ::
        uid in sessions <==> !(botAttached && old(SessionExpired(sessions[uid], now)))
      ensures forall uid | uid in sessions :: sessions[uid] == old(sessions[uid]) && sessions[uid].Fields() == old(sessions[uid].Fields())
      ensures forall uid | uid in old(sessions) && uid !in sessions :: old(sessions)[uid].Fields() == Cleared(old(sessions[uid].Fields()))
    {
      var expired := ScanExpired(now);
      if !botAttached {
        return;
      }
      ghost var removed := HandleAll(expired);
      forall uid | uid in old(sessions) ensures uid in removed <==> old(SessionExpired(sessions[uid], now)) {
        if uid in removed {
          var j :| 0 <= j < |expired| && expired[j].userId == uid;
        }
      }
    }

    /** `_handle_expire` for each of `expired` in turn; `removed` are their user ids. */
    method HandleAll(expired: seq<UserSession>) returns (ghost removed: set<int>)
      requires Valid()
      requires forall j | 0 <= j < |expired| :: expired[j].userId in sessions && sessions[expired[j].userId] == expired[j]
      requires forall i, j | 0 <= i < j < |expired| :: expired[i].userId != expired[j].userId
      modifies this, sessions.Values
      ensures Valid() && botAttached == old(botAttached)
      ensures removed == set j | 0 <= j < |expired| :: expired[j].userId
      ensures sessions == old(sessions) - removed
      ensures forall uid | uid in sessions :: sessions[uid].Fields() == old(sessions[uid].Fields())
      ensures forall j | 0 <= j < |expired| :: expired[j].Fields() == Cleared(old(expired[j].Fields()))
    {
      removed := {};
      ghost var before := sessions;
      for i := 0 to |expired|
        invariant Valid() && botAttached == old(botAttached)
        invariant removed == set j | 0 <= j < i :: expired[j].userId
        invariant sessions == before - removed
        invariant forall uid | uid in sessions :: unchanged(sessions[uid])
        invariant forall j | 0 <= j < i :: expired[j].Fields() == Cleared(old(expired[j].Fields()))
      {
        assert expired[i].userId in sessions && unchanged(expired[i]);
        assert expired[i].Fields() == old(expired[i].Fields());
        var noticeSent := HandleExpire(expired[i]);
        removed := removed + {expired[i].userId};
      }
    }
  }

  /** `SetKeywordsFlow`: the dialogue; `maxAllowed` is the configured `arxiv.max_results`. */
  class SetKeywordsFlow {
    const db: Database
    const maxAllowed: int

    constructor (db: Database, maxAllowed: int)
      ensures this.db == db && this.maxAllowed == maxAllowed
    {
      this.db := db;
      this.maxAllowed := maxAllowed;
    }

    /** Carries out a step on the session, the manager and the store. */
    method Apply(s: UserSession, manager: SessionManager, step: Step, reply: Reply)
      requires step.Step? && (step.ends ==> step.state == NoState && step.tmp == map[])
      requires manager.Valid()
      modifies s, manager, db
      ensures manager.Valid() && manager.botAttached == old(manager.botAttached)
      ensures s.state == step.state && s.tmpData == step.tmp
      ensures s.lastActive == old(s.lastActive) && s.hasFlow == old(s.hasFlow)
      ensures s.toRevoke == if step.ends then [] else old(s.toRevoke) + (if step.tracks then Tracked(reply) else [])
      ensures manager.sessions == if step.ends then old(manager.sessions) - {s.userId} else old(manager.sessions)
      ensures db.users ==
        if step.write.Some? then Upsert(old(db.users), s.userId, TelegramConfig(step.write.value), UserColumns).value
        else old(db.users)
      ensures step.write.Some? ==> db.StoredQueries(s.userId) == step.write.value
      ensures step.write.None? ==> db.StoredQueries(s.userId) == old(db.StoredQueries(s.userId))
      ensures db.papers == old(db.papers) && db.sent == old(db.sent)
    {
      if step.write.Some? {
        TelegramWriteStores(db.users, s.userId, step.write.value);
        var ok := db.InsertOrUpdateUser(s.userId, TelegramConfig(step.write.value));
      }
      if step.ends {
        var attempted := s.End(manager);
      } else {
        s.state, s.tmpData := step.state, step.tmp;
        if step.tracks {
          s.AddRevokeMessage(reply);
        }
      }
    }

    /** `start`, with `reply` what the prompt's reply call returned. */
    method Start(s: UserSession, now: real, reply: Reply)
      modifies s
      ensures s.state == if db.StoredQueries(s.userId) == [] then AddingKeyword else SettingKeywords
      ensures s.tmpData == old(s.tmpData) && s.toRevoke == old(s.toRevoke) + Tracked(reply)
      ensures s.lastActive == now && s.hasFlow == old(s.hasFlow)
      ensures old(s.Consistent()) ==> s.Consistent()
    {
      s.Touch(now);
      var step := StartStep(s.tmpData, db.StoredQueries(s.userId));
      s.state := step.state;
      s.AddRevokeMessage(reply);
    }

    /** `on_callback` for a button's `data`. */
    method OnCallback(s: UserSession, manager: SessionManager, data: string, now: real, reply: Reply)
      requires manager.Valid()
      modifies s, manager, db
      ensures var step := CallbackStep(old(s.state), old(s.tmpData), data, old(db.StoredQueries(s.userId)));
        && s.state == step.state && s.tmpData == step.tmp
        && s.toRevoke == (if step.ends then [] else old(s.toRevoke) + (if step.tracks then Tracked(reply) else []))
        && manager.sessions == (if step.ends then old(manager.sessions) - {s.userId} else old(manager.sessions))
      ensures manager.Valid() && manager.botAttached == old(manager.botAttached)
      ensures s.lastActive == now && s.hasFlow == old(s.hasFlow)
      ensures old(s.Consistent()) ==> s.Consistent()
      ensures db.users == old(db.users) && db.papers == old(db.papers) && db.sent == old(db.sent)
    {
      s.Touch(now);
      var step := CallbackStep(s.state, s.tmpData, data, db.StoredQueries(s.userId));
      Apply(s, manager, step, reply);
    }

    /**
     * `on_message` for a text message. `raised` is the `KeyError` of a cap entered with no keyword
     * held, which leaves everything but the touch as it was; from a consistent session it never happens.
     */
    method OnMessage(s: UserSession, manager: SessionManager, text: string, now: real, reply: Reply)
      returns (raised: bool)
      requires manager.Valid()
      modifies s, manager, db
      ensures var step := MessageStep(old(s.state), old(s.tmpData), text, old(db.StoredQueries(s.userId)), maxAllowed);
        && raised == step.Raises?
        && (raised ==>
              && s.state == old(s.state) && s.tmpData == old(s.tmpData) && s.toRevoke == old(s.toRevoke)
              && manager.sessions == old(manager.sessions) && db.users == old(db.users))
        && (!raised ==>
              && s.state == step.state && s.tmpData == step.tmp
              && s.toRevoke == (if step.ends then [] else old(s.toRevoke) + (if step.tracks then Tracked(reply) else []))
              && manager.sessions == (if step.ends then old(manager.sessions) - {s.userId} else old(manager.sessions))
              && db.StoredQueries(s.userId) ==
                   (if step.write.Some? then step.write.value else old(db.StoredQueries(s.userId))))
      ensures old(s.Consistent()) ==> !raised && s.Consistent()
      ensures old(s.Consistent()) && old(WellKept(db.StoredQueries(s.userId), maxAllowed)) ==>
        WellKept(db.StoredQueries(s.userId), maxAllowed)
      ensures manager.Valid() && manager.botAttached == old(manager.botAttached)
      ensures s.lastActive == now && s.hasFlow == old(s.hasFlow)
      ensures db.papers == old(db.papers) && db.sent == old(db.sent)
    {
      s.Touch(now);
      var stored := db.StoredQueries(s.userId);
      var step := MessageStep(s.state, s.tmpData, text, stored, maxAllowed);
      if s.Consistent() {
        MessageKeepsWellFormed(s.state, s.tmpData, text, stored, maxAllowed);
        if WellKept(stored, maxAllowed) {
          MessageWriteKeepsList(s.state, s.tmpData, text, stored, maxAllowed);
        }
      }
      if step.Raises? {
        return true;
      }
      WriteEnds(s.state, s.tmpData, text, stored, maxAllowed);
      raised := false;
      Apply(s, manager, step, reply);
    }
  }

  /** The delivery keys of papers sent to one user: (arXiv id, user id). */
  function PairsFor(ps: seq<PaperEntry>, userId: int): (keys: seq<(string, int)>)
    ensures |keys| == |ps| && forall i | 0 <= i < |ps| :: keys[i] == (ps[i].arxivId, userId)
  {
    if ps == [] then [] else PairsFor(ps[..|ps| - 1], userId) + [(ps[|ps| - 1].arxivId, userId)]
  }

  /** The `search_queries` of one user the background loop visits. */
  datatype TelegramUser = TelegramUser(chatId: int, queries: seq<SearchQuery>)

  /** The Telegram bot: the store, the search client, the sessions and the dialogue. */
  class TgBot {
    const db: Database
    const client: ArxivClient
    const manager: SessionManager
    /** The dialogue every `/set_keywords` attaches; each flow holds only the store and the configuration. */
    const flow: SetKeywordsFlow

    constructor (db: Database, client: ArxivClient, maxAllowed: int)
      requires client.db == db
      ensures this.db == db && this.client == client && flow.db == db && flow.maxAllowed == maxAllowed
      ensures fresh(manager) && manager.timeout == 180 && manager.sessions == map[] && !manager.botAttached
    {
      this.db := db;
      this.client := client;
      manager := new SessionManager(180);
      flow := new SetKeywordsFlow(db, maxAllowed);
    }

    predicate Valid()
      reads this, manager
    {
      manager.Valid() && flow.db == db && client.db == db
    }

    /** `handle_set_keywords`: the user's session gets the flow, which starts. */
    method HandleSetKeywords(uid: int, now: real, reply: Reply)
      requires Valid()
      modifies manager, if uid in manager.sessions then {manager.sessions[uid]} else {}
      ensures Valid() && uid in manager.sessions
      ensures manager.sessions == old(manager.sessions)[uid := manager.sessions[uid]]
      ensures var s := manager.sessions[uid];
        && s.hasFlow && s.lastActive == now
        && s.state == (if db.StoredQueries(uid) == [] then AddingKeyword else SettingKeywords)
        && s.tmpData == (if uid in old(manager.sessions) then old(manager.sessions[uid].tmpData) else map[])
        && s.toRevoke == (if uid in old(manager.sessions) then old(manager.sessions[uid].toRevoke) else []) + Tracked(reply)
    {
      var s := manager.GetOrCreate(uid, now);
      s.hasFlow := true;
      flow.Start(s, now, reply);
    }

    /**
     * `handle_callback`: `raised` is the `AttributeError` of a session without a flow, which
     * is then only created or touched; otherwise the flow handles the button.
     */
    method HandleCallback(uid: int, now: real, data: string, reply: Reply) returns (raised: bool)
      requires Valid()
      modifies manager, db, if uid in manager.sessions then {manager.sessions[uid]} else {}
      ensures Valid()
      ensures raised <==> !(uid in old(manager.sessions) && old(manager.sessions[uid].hasFlow))
      ensures raised ==> uid in manager.sessions && manager.sessions == old(manager.sessions)[uid := manager.sessions[uid]]
      ensures raised ==>
        manager.sessions[uid].Fields() ==
          if uid in old(manager.sessions) then old(manager.sessions[uid].Fields()).(lastActive := now)
          else SessionFields(NoState, map[], [], now, false)
      ensures !raised ==>
        var s := old(manager.sessions[uid]);
        var step := CallbackStep(old(s.state), old(s.tmpData), data, old(db.StoredQueries(uid)));
        && manager.sessions == (if step.ends then old(manager.sessions) - {uid} else old(manager.sessions))
        && s.state == step.state && s.tmpData == step.tmp
        && s.toRevoke == (if step.ends then [] else old(s.toRevoke) + (if step.tracks then Tracked(reply) else []))
        && s.lastActive == now && s.hasFlow
      ensures db.users == old(db.users) && db.papers == old(db.papers) && db.sent == old(db.sent)
    {
      var s := manager.GetOrCreate(uid, now);
      if !s.hasFlow {
        return true;
      }
      raised := false;
      flow.OnCallback(s, manager, data, now, reply);
    }

    /**
     * `handle_message`: for a session without a flow only the session is created or touched;
     * otherwise the flow handles the text and `raised` is what it lets escape.
     */
    method HandleMessage(uid: int, now: real, text: string, reply: Reply) returns (raised: bool)
      requires Valid()
      modifies manager, db, if uid in manager.sessions then {manager.sessions[uid]} else {}
      ensures Valid()
      ensures !(uid in old(manager.sessions) && old(manager.sessions[uid].hasFlow)) ==>
        && !raised && uid in manager.sessions
        && manager.sessions == old(manager.sessions)[uid := manager.sessions[uid]]
        && manager.sessions[uid].Fields() ==
             (if uid in old(manager.sessions) then old(manager.sessions[uid].Fields()).(lastActive := now)
              else SessionFields(NoState, map[], [], now, false))
        && db.users == old(db.users)
      ensures uid in old(manager.sessions) && old(manager.sessions[uid].hasFlow) ==>
        var s := old(manager.sessions[uid]);
        var step := MessageStep(old(s.state), old(s.tmpData), text, old(db.StoredQueries(uid)), flow.maxAllowed);
        && raised == step.Raises?
        && s.lastActive == now && s.hasFlow
        && (raised ==>
              && s.state == old(s.state) && s.tmpData == old(s.tmpData) && s.toRevoke == old(s.toRevoke)
              && manager.sessions == old(manager.sessions) && db.users == old(db.users))
        && (!raised ==>
              && s.state == step.state && s.tmpData == step.tmp
              && s.toRevoke == (if step.ends then [] else old(s.toRevoke) + (if step.tracks then Tracked(reply) else []))
              && manager.sessions == (if step.ends then old(manager.sessions) - {uid} else old(manager.sessions))
              && db.StoredQueries(uid) == (if step.write.Some? then step.write.value else old(db.StoredQueries(uid))))
      ensures db.papers == old(db.papers) && db.sent == old(db.sent)
    {
      var s := manager.GetOrCreate(uid, now);
      if !s.hasFlow {
        return false;
      }
      ghost var state, tmp, stored := s.state, s.tmpData, db.StoredQueries(uid);
      assert state == old(manager.sessions[uid].state) && tmp == old(manager.sessions[uid].tmpData);
      assert stored == old(db.StoredQueries(uid));
      raised := flow.OnMessage(s, manager, text, now, reply);
      ghost var step := MessageStep(state, tmp, text, stored, flow.maxAllowed);
      assert raised == step.Raises?;
    }

    /**
     * `fetch_papers_for_query`: `searchRaised` is the search raising, which is caught here: nothing
     * is sent and nothing stored. Otherwise `found` is what the search returns, and every paper
     * whose (id, user) pair is not recorded is sent (`outcomes` says which sends succeed) and its
     * pair recorded after a send that succeeded. `sent` are the papers whose send was tried.
     */
    method FetchPapersForQuery(userId: int, queryText: string, maxResults: int,
                               api: (string, int) -> ApiResult, enrich: PaperEntry -> Enrichment, enrichFails: bool)
      returns (searchRaised: bool, sent: seq<PaperEntry>, outcomes: seq<bool>, found: seq<PaperEntry>)
      requires Valid()
      modifies db
      ensures Valid()
      ensures |outcomes| == |found|
      ensures searchRaised == api(queryText, EffectiveMax(Some(maxResults), client.maxResults)).FetchRaised?
      ensures (found, db.papers) ==
        SearchSpec(old(db.papers), api(queryText, EffectiveMax(Some(maxResults), client.maxResults)),
                   client.hasLlm, enrich, enrichFails)
      ensures var pass := Deliver(old(db.sent), PairsFor(found, userId), outcomes, false);
        db.sent == pass.recorded && PairsFor(sent, userId) == pass.attempted
      ensures db.users == old(db.users)
    {
      sent, outcomes := [], [];
      found, searchRaised := client.Search(queryText, Some(maxResults), api, enrich, enrichFails);
      if searchRaised {
        return;
      }
      sent, outcomes := SendUnsent(userId, found);
    }

    /** The loop of `fetch_papers_for_query`: one try per paper, a failure not stopping the rest. */
    method SendUnsent(userId: int, papers: seq<PaperEntry>) returns (sent: seq<PaperEntry>, outcomes: seq<bool>)
      modifies db
      ensures |outcomes| == |papers|
      ensures var pass := Deliver(old(db.sent), PairsFor(papers, userId), outcomes, false);
        db.sent == pass.recorded && PairsFor(sent, userId) == pass.attempted
      ensures db.users == old(db.users) && db.papers == old(db.papers)
    {
      sent, outcomes := [], [];
      ghost var keys := PairsFor(papers, userId);
      for k := 0 to |papers|
        invariant |outcomes| == k
        invariant var pass := Deliver(old(db.sent), keys[..k], outcomes, false);
          db.sent == pass.recorded && PairsFor(sent, userId) == pass.attempted
        invariant db.users == old(db.users) && db.papers == old(db.papers)
      {
        var p := papers[k];
        var sendOk: bool := *;
        assert keys[..k + 1] == keys[..k] + [(p.arxivId, userId)];
        assert (keys[..k] + [(p.arxivId, userId)])[..k] == keys[..k];
        assert (outcomes + [sendOk])[..k] == outcomes;
        if !db.IsSended(p.arxivId, userId) {
          assert PairsFor(sent + [p], userId) == PairsFor(sent, userId) + [(p.arxivId, userId)];
          sent := sent + [p];
          if sendOk {
            db.Sended(p.arxivId, userId);
          }
        }
        outcomes := outcomes + [sendOk];
      }
      assert keys[..|papers|] == keys;
    }
  
    /**
     * One pass of `_background_fetch_loop` over the users the store lists for Telegram: each of
     * their queries in order, with `max_results` defaulting to 10. `keys` are the (paper, user)
     * pairs the searches find, user after user, and the store threads through every search. The
     * pass as a whole is one delivery pass over those pairs, so a pair recorded by an earlier query
     * is not sent again by a later one. `attempted` are the pairs whose send was tried.
     */
    method BackgroundPass(users: seq<TelegramUser>, api: (string, int) -> ApiResult,
                          enrich: PaperEntry -> Enrichment, enrichFails: bool)
      returns (attempted: seq<(string, int)>, ghost keys: seq<(string, int)>, ghost outcomes: seq<bool>)
      requires Valid()
      modifies db
      ensures Valid()
      ensures (keys, db.papers) == PassSearches(old(db.papers), users, api, client.maxResults, client.hasLlm, enrich, enrichFails)
      ensures |outcomes| == |keys|
      ensures var pass := Deliver(old(db.sent), keys, outcomes, false);
        db.sent == pass.recorded && attempted == pass.attempted
      ensures forall k | k in keys :: exists u | u in users :: k.1 == u.chatId
      ensures db.users == old(db.users)
    {
      attempted, keys, outcomes := [], [], [];
      ghost var stored := db.papers;
      for i := 0 to |users|
        invariant Valid() && |outcomes| == |keys|
        invariant (keys, db.papers) == PassSearches(stored, users[..i], api, client.maxResults, client.hasLlm, enrich, enrichFails)
        invariant var pass := Deliver(old(db.sent), keys, outcomes, false);
          db.sent == pass.recorded && attempted == pass.attempted
        invariant db.users == old(db.users)
      {
        var u := users[i];
        PassSearchesSnoc(stored, users, i, api, client.maxResults, client.hasLlm, enrich, enrichFails);
        var more, found, oks := FetchForUser(u, api, enrich, enrichFails);
        DeliverConcat(old(db.sent), keys, outcomes, found, oks, false);
        attempted, keys, outcomes := attempted + more, keys + found, outcomes + oks;
      }
      assert users[..|users|] == users;
      PassSearchesStore(stored, users, api, client.maxResults, client.hasLlm, enrich, enrichFails);
    }

    /**
     * The inner loop of `_background_fetch_loop`: `fetch_papers_for_query` for each of one user's
     * queries, in order, each raise caught there. `keys` are the pairs of every paper found, query
     * after query, and the pass is one `Deliver` pass over them.
     */
    method FetchForUser(u: TelegramUser, api: (string, int) -> ApiResult, enrich: PaperEntry -> Enrichment,
                        enrichFails: bool)
      returns (attempted: seq<(string, int)>, ghost keys: seq<(string, int)>, ghost outcomes: seq<bool>)
      requires Valid()
      modifies db
      ensures Valid()
      ensures var run := SearchesEach(old(db.papers), QueryRequests(u.queries, SweepMax, client.maxResults), api,
                                      client.hasLlm, enrich, enrichFails);
        keys == PairsFor(Flatten(run.0), u.chatId) && db.papers == run.1
      ensures |outcomes| == |keys|
      ensures var pass := Deliver(old(db.sent), keys, outcomes, false);
        db.sent == pass.recorded && attempted == pass.attempted
      ensures forall k | k in keys :: k.1 == u.chatId
      ensures db.users == old(db.users)
    {
      attempted, keys, outcomes := [], [], [];
      ghost var stored, reqs := db.papers, QueryRequests(u.queries, SweepMax, client.maxResults);
      ghost var fs: seq<seq<PaperEntry>> := [];
      for j := 0 to |u.queries|
        invariant Valid() && |outcomes| == |keys|
        invariant (fs, db.papers) == SearchesEach(stored, reqs[..j], api, client.hasLlm, enrich, enrichFails)
        invariant keys == PairsFor(Flatten(fs), u.chatId)
        invariant var pass := Deliver(old(db.sent), keys, outcomes, false);
          db.sent == pass.recorded && attempted == pass.attempted
        invariant db.users == old(db.users)
      {
        var q := u.queries[j];
        SearchesEachSnoc(stored, reqs, j, api, client.hasLlm, enrich, enrichFails);
        assert reqs[j] == (q.query, EffectiveMax(Some(SweepMax(q)), client.maxResults));
        var raised, sent, oks, found := FetchPapersForQuery(u.chatId, q.query, SweepMax(q), api, enrich, enrichFails);
        var pairs := PairsFor(found, u.chatId);
        DeliverConcat(old(db.sent), keys, outcomes, pairs, oks, false);
        FlattenSnoc(fs, found);
        PairsForConcat(Flatten(fs), found, u.chatId);
        attempted, keys, outcomes := attempted + PairsFor(sent, u.chatId), keys + pairs, outcomes + oks;
        fs := fs + [found];
      }
      assert reqs[..|u.queries|] == reqs;
      PairsForUser(Flatten(fs), u.chatId);
    }
  }

  lemma PairsForUser(ps: seq<PaperEntry>, userId: int)
    ensures forall k | k in PairsFor(ps, userId) :: k.1 == userId
  {
  }

  lemma PairsForConcat(a: seq<PaperEntry>, b: seq<PaperEntry>, userId: int)
    ensures PairsFor(a + b, userId) == PairsFor(a, userId) + PairsFor(b, userId)
  {
    assert forall i | 0 <= i < |a + b| :: (a + b)[i] == if i < |a| then a[i] else b[i - |a|];
  }

  /**
   * The searches of a background pass, user after user, each user's queries searched with their
   * raise caught and over the store the previous search left: the (paper, user) pairs found and
   * the store afterwards.
   */
  function PassSearches(stored: map<string, PaperRow>, users: seq<TelegramUser>, api: (string, int) -> ApiResult,
                        defaultMax: int, hasLlm: bool, enrich: PaperEntry -> Enrichment, enrichFails: bool):
    (seq<(string, int)>, map<string, PaperRow>)
    decreases |users|
  {
    if users == [] then ([], stored)
    else
      var n := |users| - 1;
      var r := PassSearches(stored, users[..n], api, defaultMax, hasLlm, enrich, enrichFails);
      var s := SearchesEach(r.1, QueryRequests(users[n].queries, SweepMax, defaultMax), api, hasLlm, enrich, enrichFails);
      (r.0 + PairsFor(Flatten(s.0), users[n].chatId), s.1)
  }

  lemma PassSearchesSnoc(stored: map<string, PaperRow>, users: seq<TelegramUser>, i: nat, api: (string, int) -> ApiResult,
                         defaultMax: int, hasLlm: bool, enrich: PaperEntry -> Enrichment, enrichFails: bool)
    requires i < |users|
    ensures var r := PassSearches(stored, users[..i], api, defaultMax, hasLlm, enrich, enrichFails);
      var s := SearchesEach(r.1, QueryRequests(users[i].queries, SweepMax, defaultMax), api, hasLlm, enrich, enrichFails);
      PassSearches(stored, users[..i + 1], api, defaultMax, hasLlm, enrich, enrichFails) ==
        (r.0 + PairsFor(Flatten(s.0), users[i].chatId), s.1)
  {
    assert users[..i + 1][..i] == users[..i];
  }

  /** Every paper of the lists is stored when each list's papers are. */
  lemma {:induction false} FlattenStored(fs: seq<seq<PaperEntry>>, m: map<string, PaperRow>)
    requires forall c | 0 <= c < |fs| :: AllStored(fs[c], m)
    ensures AllStored(Flatten(fs), m)
    decreases |fs|
  {
    if fs != [] {
      var n := |fs| - 1;
      FlattenStored(fs[..n], m);
      KeepsStored(Flatten(fs[..n]), fs[n], m, m);
    }
  }

  /** Every pair is of a paper stored in `m` and of one of `users`. */
  predicate PairsStored(pairs: seq<(string, int)>, m: map<string, PaperRow>, users: seq<TelegramUser>) {
    forall i | 0 <= i < |pairs| :: pairs[i].0 in m && exists u | u in users :: pairs[i].1 == u.chatId
  }

  lemma PairsForStored(found: seq<PaperEntry>, m: map<string, PaperRow>, user: TelegramUser, users: seq<TelegramUser>)
    requires AllStored(found, m) && user in users
    ensures PairsStored(PairsFor(found, user.chatId), m, users)
  {
  }

  lemma PairsStoredJoin(a: seq<(string, int)>, b: seq<(string, int)>, m0: map<string, PaperRow>, m: map<string, PaperRow>,
                        users: seq<TelegramUser>, n: nat)
    requires n <= |users| && PairsStored(a, m0, users[..n]) && KeepsRows(m0, m) && PairsStored(b, m, users)
    ensures PairsStored(a + b, m, users)
  {
    var ab := a + b;
    forall i | 0 <= i < |ab| ensures ab[i].0 in m && exists u | u in users :: ab[i].1 == u.chatId {
      if i < |a| {
        assert ab[i] == a[i] && a[i].0 in m0;
        var u :| u in users[..n] && a[i].1 == u.chatId;
        assert u in users;
      } else {
        assert ab[i] == b[i - |a|];
      }
    }
  }

  /**
   * A background pass keeps every stored row, and every pair it offers for sending is of a paper
   * stored afterwards and of one of the users visited.
   */
  lemma {:induction false} PassSearchesStore(stored: map<string, PaperRow>, users: seq<TelegramUser>,
                                             api: (string, int) -> ApiResult, defaultMax: int, hasLlm: bool,
                                             enrich: PaperEntry -> Enrichment, enrichFails: bool)
    ensures var r := PassSearches(stored, users, api, defaultMax, hasLlm, enrich, enrichFails);
      KeepsRows(stored, r.1) && PairsStored(r.0, r.1, users)
    decreases |users|
  {
    if users != [] {
      var n := |users| - 1;
      PassSearchesStore(stored, users[..n], api, defaultMax, hasLlm, enrich, enrichFails);
      var r := PassSearches(stored, users[..n], api, defaultMax, hasLlm, enrich, enrichFails);
      var reqs := QueryRequests(users[n].queries, SweepMax, defaultMax);
      SearchesEachStore(r.1, reqs, api, hasLlm, enrich, enrichFails);
      var s := SearchesEach(r.1, reqs, api, hasLlm, enrich, enrichFails);
      FlattenStored(s.0, s.1);
      PairsForStored(Flatten(s.0), s.1, users[n], users);
      PairsStoredJoin(r.0, PairsFor(Flatten(s.0), users[n].chatId), r.1, s.1, users, n);
      assert users[..n + 1] == users;
      PassSearchesSnoc(stored, users, n, api, defaultMax, hasLlm, enrich, enrichFails);
    }
  }
}
