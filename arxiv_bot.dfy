/**
 * The ConversationHandler variant of the Telegram bot (arxiv_bot.py): the MarkdownV2 escaper, the
 * `/set_keywords` conversation as handlers that return the next state and edit `user_data`, and
 * the background sweep that sends each user the papers its `user_notify` lists do not yet hold.
 */
module ArxivBot {
  import opened Wrappers
  import opened Strings
  import opened Store
  import opened Client
  import opened Delivery
  import opened Dialogue

  // ---------------------------------------------------------------------------------------------
  // escape_markdown_v2

  /** The characters MarkdownV2 reserves. */
  predicate IsSpecial(c: char) {
    c in "_*[]()~>#+-=|{}.!"
  }

  /** Every reserved character behind one backslash, every other one as it is. */
  function Escaped(s: string): string {
    if s == [] then [] else (if IsSpecial(s[0]) then ['\\', s[0]] else [s[0]]) + Escaped(s[1..])
  }

  /** `escape_markdown_v2`: `""` for an empty text, the escaped text otherwise. */
  function EscapeMarkdownV2(text: string): string {
    if text == "" then "" else Escaped(text)
  }

  function SpecialCount(s: string): nat {
    if s == [] then 0 else (if IsSpecial(s[0]) then 1 else 0) + SpecialCount(s[1..])
  }

  /** Reading an escaped text back: a backslash before a reserved character is dropped. */
  function Unescape(s: string): string {
    if s == [] then []
    else if |s| >= 2 && s[0] == '\\' && IsSpecial(s[1]) then [s[1]] + Unescape(s[2..])
    else [s[0]] + Unescape(s[1..])
  }

  /** The escaped text grows by one backslash per reserved character. */
  lemma EscapeLength(text: string)
    ensures |EscapeMarkdownV2(text)| == |text| + SpecialCount(text)
  {
    EscapedLength(text);
  }

  lemma {:induction false} EscapedLength(s: string)
    ensures |Escaped(s)| == |s| + SpecialCount(s)
  {
    if s != [] {
      EscapedLength(s[1..]);
    }
  }

  /** An escaped text never starts with a reserved character. */
  lemma EscapedHead(s: string)
    ensures Escaped(s) != [] ==> !IsSpecial(Escaped(s)[0])
  {
  }

  /** Escaping loses nothing: unescaping gives the text back. */
  lemma {:induction false} UnescapeEscape(text: string)
    ensures Unescape(EscapeMarkdownV2(text)) == text
  {
    if text != [] {
      var rest := text[1..];
      UnescapeEscape(rest);
      assert Unescape(Escaped(rest)) == rest by {
        if rest == [] {
        }
      }
      EscapedHead(rest);
      var e := Escaped(text);
      if IsSpecial(text[0]) {
        assert e == ['\\', text[0]] + Escaped(rest);
        assert e[2..] == Escaped(rest);
      } else {
        assert e == [text[0]] + Escaped(rest);
        assert e[1..] == Escaped(rest);
      }
    }
  }

  /** In the escaped text every reserved character stands right after a backslash. */
  lemma {:induction false} EscapedGuarded(text: string)
    ensures var r := EscapeMarkdownV2(text);
      forall i | 0 <= i < |r| && IsSpecial(r[i]) :: i > 0 && r[i - 1] == '\\'
  {
    if text != [] {
      var rest := text[1..];
      EscapedGuarded(rest);
      var e := Escaped(rest);
      assert e == EscapeMarkdownV2(rest) by {
        if rest == [] {
        }
      }
      var h := if IsSpecial(text[0]) then ['\\', text[0]] else [text[0]];
      assert Escaped(text) == h + e;
      forall i | 0 <= i < |h + e| && IsSpecial((h + e)[i]) ensures i > 0 && (h + e)[i - 1] == '\\' {
        if i >= |h| {
          assert (h + e)[i] == e[i - |h|];
          if i - |h| > 0 {
            assert (h + e)[i - 1] == e[i - |h| - 1];
          } else {
            EscapedHead(rest);
          }
        }
      }
    }
  }

  // ---------------------------------------------------------------------------------------------
  // The /set_keywords conversation

  /** The conversation states; `Idle` is outside the conversation (never entered, or `END`). */
  datatype ConvState = Idle | SettingKeywords | AddingKeyword | AddingMaxResults | DeletingKeyword

  /** The two keys the conversation keeps in `context.user_data`. */
  datatype UserData = UserData(newKeyword: Option<string>, settingKeywords: bool)

  /** What a handler does: the state it leads to, `user_data` after it, and the list it stores (if any). */
  datatype Turn = Turn(next: ConvState, data: UserData, write: Option<seq<SearchQuery>>)

  /** An update the conversation can see: a command, a button press or a plain text message. */
  datatype Event = Command(name: string) | Button(data: string) | TextMessage(text: string)

  /** `set_keywords`: straight to entering a query when the user has none, else the two choices. */
  function SetKeywords(data: UserData, stored: seq<SearchQuery>): Turn {
    if stored == [] then Turn(AddingKeyword, data.(settingKeywords := true), None)
    else Turn(SettingKeywords, data, None)
  }

  /** `handle_setting_choice`; any other button returns `None`, which keeps the state. */
  function HandleSettingChoice(data: UserData, button: string, stored: seq<SearchQuery>): Turn {
    if button == "add_keyword" then Turn(AddingKeyword, data.(settingKeywords := true), None)
    else if button == "delete_keyword" then
      if stored == [] then Turn(Idle, data, None) else Turn(DeletingKeyword, data, None)
    else Turn(SettingKeywords, data, None)
  }

  /** `add_keyword` */
  function AddKeyword(data: UserData, text: string): Turn {
    var t := Strip(text);
    if t == "" then Turn(AddingKeyword, data, None)
    else Turn(AddingMaxResults, data.(newKeyword := Some(t)), None)
  }

  /** `add_max_results` */
  function AddMaxResults(data: UserData, text: string, stored: seq<SearchQuery>, maxAllowed: int): Turn {
    var n := ParseInt(text);
    if n.None? || n.value < 1 || n.value > maxAllowed then Turn(AddingMaxResults, data, None)
    else if data.newKeyword.None? || data.newKeyword.value == "" then Turn(Idle, data, None)
    else if Listed(stored, data.newKeyword.value) then Turn(AddingKeyword, data.(newKeyword := None), None)
    else Turn(Idle, data.(newKeyword := None), Some(stored + [SearchQuery(data.newKeyword.value, n)]))
  }

  /** `delete_keyword` */
  function DeleteKeyword(data: UserData, text: string, stored: seq<SearchQuery>): Turn {
    var n := ParseInt(text);
    if n.None? then Turn(DeletingKeyword, data, None)
    else if stored == [] then Turn(Idle, data, None)
    else if 0 <= n.value - 1 < |stored| then Turn(Idle, data, Some(RemoveAt(stored, n.value - 1)))
    else Turn(DeletingKeyword, data, None)
  }

  /** `cancel` */
  function Cancel(data: UserData): Turn {
    Turn(Idle, data.(newKeyword := None, settingKeywords := false), None)
  }

  /**
   * The `ConversationHandler`: outside the conversation only `/set_keywords` enters it; inside,
   * each state's handler takes its kind of update, `/cancel` is the fallback, and every other
   * update is ignored.
   */
  function Dispatch(state: ConvState, ev: Event, data: UserData, stored: seq<SearchQuery>, maxAllowed: int): Turn {
    var ignored := Turn(state, data, None);
    match state
    case Idle => if ev == Command("set_keywords") then SetKeywords(data, stored) else ignored
    case _ =>
      if ev == Command("cancel") then Cancel(data)
      else match ev
        case Button(b) => if state == SettingKeywords then HandleSettingChoice(data, b, stored) else ignored
        case TextMessage(t) =>
          if state == AddingKeyword then AddKeyword(data, t)
          else if state == AddingMaxResults then AddMaxResults(data, t, stored, maxAllowed)
          else if state == DeletingKeyword then DeleteKeyword(data, t, stored)
          else ignored
        case Command(_) => ignored
  }

  /** A held keyword is one `add_keyword` stored: stripped. */
  predicate DataWellFormed(data: UserData) {
    data.newKeyword.Some? ==> Trimmed(data.newKeyword.value)
  }

  /**
   * Entering a query: stripped-empty text keeps asking; any other text is held, stripped, and the
   * cap is asked for.
   */
  lemma AddKeywordFacts(data: UserData, text: string)
    ensures var t := AddKeyword(data, text);
      && t.write.None?
      && (t.next == AddingKeyword <==> forall i | 0 <= i < |text| :: IsSpace(text[i]))
      && (t.next == AddingKeyword ==> t.data == data)
      && (t.next != AddingKeyword ==>
            t.next == AddingMaxResults && t.data == data.(newKeyword := Some(Strip(text))) && Trimmed(Strip(text)))
  {
    StripEmpty(text);
  }

  /**
   * Entering the cap: a text that is not a number in `1..maxAllowed` keeps asking; otherwise a
   * missing keyword ends the conversation, a listed one is dropped and the user asked for another
   * query, and an unlisted one is appended with that cap, dropped, and the conversation ends.
   */
  lemma AddMaxResultsFacts(data: UserData, text: string, stored: seq<SearchQuery>, maxAllowed: int)
    ensures var t := AddMaxResults(data, text, stored, maxAllowed);
      var n := ParseInt(text);
      var inRange := n.Some? && 1 <= n.value <= maxAllowed;
      var held := data.newKeyword.Some? && data.newKeyword.value != "";
      && (t.next == AddingMaxResults <==> !inRange)
      && (t.next == AddingMaxResults ==> t == Turn(AddingMaxResults, data, None))
      && (inRange && !held ==> t == Turn(Idle, data, None))
      && (inRange && held && Listed(stored, data.newKeyword.value) ==>
            t == Turn(AddingKeyword, data.(newKeyword := None), None))
      && (t.write.Some? <==> inRange && held && !Listed(stored, data.newKeyword.value))
      && (t.write.Some? ==>
            t.next == Idle && t.data.newKeyword.None?
            && t.write.value == stored + [SearchQuery(data.newKeyword.value, n)])
  {
  }

  /**
   * Deleting: text that is no number keeps asking; with nothing saved the conversation ends; a
   * number `k` with `1 <= k <= |stored|` removes entry `k - 1` and ends it; any other number keeps asking.
   */
  lemma DeleteKeywordFacts(data: UserData, text: string, stored: seq<SearchQuery>)
    ensures var t := DeleteKeyword(data, text, stored);
      var n := ParseInt(text);
      && t.data == data
      && (t.write.Some? <==> n.Some? && 1 <= n.value <= |stored|)
      && (t.write.Some? ==> t.next == Idle && t.write.value == RemoveAt(stored, n.value - 1))
      && (t.write.None? ==> (t.next == Idle <==> n.Some? && stored == []))
      && (t.write.None? && t.next != Idle ==> t.next == DeletingKeyword)
  {
  }

  /** Typing the number the list shows in front of an entry deletes exactly that entry. */
  lemma DeleteShownNumber(data: UserData, stored: seq<SearchQuery>, i: nat)
    requires i < |stored|
    ensures DeleteKeyword(data, IntToString(i + 1), stored) == Turn(Idle, data, Some(RemoveAt(stored, i)))
  {
    ParseIntToString(i + 1);
  }

  /** The entry and the choice: the right next state, and nothing stored. */
  lemma ChoiceFacts(data: UserData, button: string, stored: seq<SearchQuery>)
    ensures SetKeywords(data, stored).next == (if stored == [] then AddingKeyword else SettingKeywords)
    ensures SetKeywords(data, stored).write.None? && HandleSettingChoice(data, button, stored).write.None?
    ensures var t := HandleSettingChoice(data, button, stored);
      && (button == "add_keyword" ==> t.next == AddingKeyword && t.data.settingKeywords)
      && (button == "delete_keyword" ==> t.next == (if stored == [] then Idle else DeletingKeyword))
      && (button != "add_keyword" && button != "delete_keyword" ==> t == Turn(SettingKeywords, data, None))
  {
  }

  /** `/cancel` drops both keys and ends the conversation, from any state inside it. */
  lemma CancelFacts(state: ConvState, data: UserData, stored: seq<SearchQuery>, maxAllowed: int)
    requires state != Idle
    ensures Dispatch(state, Command("cancel"), data, stored, maxAllowed) ==
      Turn(Idle, UserData(None, false), None)
  {
  }

  /** Only a text message in the cap or the delete state can store a list. */
  lemma DispatchWriteOnText(state: ConvState, ev: Event, data: UserData, stored: seq<SearchQuery>, maxAllowed: int)
    ensures var t := Dispatch(state, ev, data, stored, maxAllowed);
      && (!ev.TextMessage? || state == Idle ==> t.write.None?)
      && (ev.TextMessage? && state == AddingKeyword ==> t == AddKeyword(data, ev.text))
      && (ev.TextMessage? && state == AddingMaxResults ==> t == AddMaxResults(data, ev.text, stored, maxAllowed))
      && (ev.TextMessage? && state == DeletingKeyword ==> t == DeleteKeyword(data, ev.text, stored))
      && (ev.TextMessage? && state == SettingKeywords ==> t == Turn(state, data, None))
  {
  }

  /** Every update keeps `user_data` well formed. */
  lemma DispatchKeepsWellFormed(state: ConvState, ev: Event, data: UserData, stored: seq<SearchQuery>, maxAllowed: int)
    requires DataWellFormed(data)
    ensures DataWellFormed(Dispatch(state, ev, data, stored, maxAllowed).data)
  {
    var t := Dispatch(state, ev, data, stored, maxAllowed);
    DispatchWriteOnText(state, ev, data, stored, maxAllowed);
    if ev.TextMessage? && state == AddingKeyword {
      AddKeywordFacts(data, ev.text);
    } else if ev.TextMessage? && state == AddingMaxResults {
      AddMaxResultsFacts(data, ev.text, stored, maxAllowed);
      assert t.data == data || t.data == data.(newKeyword := None);
    } else if ev.TextMessage? && state == DeletingKeyword {
      DeleteKeywordFacts(data, ev.text, stored);
    } else if !ev.TextMessage? && state != Idle {
      assert t.data.newKeyword.None? || t.data.newKeyword == data.newKeyword;
    }
  }

  /** A list the conversation stores is well kept whenever the list it started from was. */
  lemma DispatchWriteKeepsList(state: ConvState, ev: Event, data: UserData, stored: seq<SearchQuery>, maxAllowed: int)
    requires DataWellFormed(data) && WellKept(stored, maxAllowed)
    ensures var t := Dispatch(state, ev, data, stored, maxAllowed);
      t.write.Some? ==> WellKept(t.write.value, maxAllowed)
  {
    var t := Dispatch(state, ev, data, stored, maxAllowed);
    DispatchWriteOnText(state, ev, data, stored, maxAllowed);
    if ev.TextMessage? && state == AddingMaxResults {
      AddMaxResultsFacts(data, ev.text, stored, maxAllowed);
      if t.write.Some? {
        AppendKeeps(stored, SearchQuery(data.newKeyword.value, ParseInt(ev.text)), maxAllowed);
      }
    } else if ev.TextMessage? && state == DeletingKeyword {
      DeleteKeywordFacts(data, ev.text, stored);
      if t.write.Some? {
        RemoveKeeps(stored, ParseInt(ev.text).value - 1, maxAllowed);
      }
    } else if ev.TextMessage? && state == AddingKeyword {
      AddKeywordFacts(data, ev.text);
    }
  }

  /** The fields the conversation writes for a user. */
  function ConversationConfig(qs: seq<SearchQuery>): map<string, FieldValue> {
    map["search_queries" := Queries(qs)]
  }

  /** That write is accepted even as the table is declared, and sets just this user's saved list. */
  lemma ConversationWriteStores(users: map<int, UserRow>, userId: int, qs: seq<SearchQuery>)
    ensures var r := Upsert(users, userId, ConversationConfig(qs), UserColumnsAsDeclared);
      && r == Upsert(users, userId, ConversationConfig(qs), UserColumns)
      && r.Some? && r.value.Keys == users.Keys + {userId}
      && QueriesOf(r.value[userId]) == qs
      && forall id | id in users && id != userId :: r.value[id] == users[id]
  {
    var c := ConversationConfig(qs);
    assert c.Keys == {"search_queries"};
    if userId in users {
      var row := Merge(users[userId], c, UserColumns);
      assert "search_queries" in row && row["search_queries"] == Queries(qs);
      assert Merge(users[userId], c, UserColumnsAsDeclared) == row;
    }
  }

  // ---------------------------------------------------------------------------------------------
  // The background sweep

  /**
   * The dedup of one user's sends in the sweep: a paper whose `user_notify` already holds the
   * chat is skipped; for the others a send is tried (`ok[i]` is its outcome) and `update_user_notify`
   * called after a send that succeeded. The result is the table and the ids whose send was tried.
   */
  function NotifyPass(papers: map<string, PaperRow>, chatId: int, ids: seq<string>, ok: seq<bool>):
    (map<string, PaperRow>, seq<string>)
    requires |ok| == |ids|
    decreases |ids|
  {
    if ids == [] then (papers, [])
    else
      var n := |ids| - 1;
      var r := NotifyPass(papers, chatId, ids[..n], ok[..n]);
      if chatId in NotifyList(r.0, ids[n]) then r
      else (if ok[n] then AddNotify(r.0, ids[n], chatId) else r.0, r.1 + [ids[n]])
  }

  /** The papers whose notified list holds `user`. */
  function NotifiedIds(papers: map<string, PaperRow>, user: int): set<string> {
    set id | id in papers && user in papers[id].userNotify
  }

  /** Recording a user on a stored paper adds that paper to the user's ids and to no one else's. */
  lemma NotifiedAfterAdd(papers: map<string, PaperRow>, arxivId: string, user: int, other: int)
    requires arxivId in papers
    ensures NotifiedIds(AddNotify(papers, arxivId, user), user) == NotifiedIds(papers, user) + {arxivId}
    ensures other != user ==> NotifiedIds(AddNotify(papers, arxivId, user), other) == NotifiedIds(papers, other)
  {
    AddNotifyFacts(papers, arxivId, user);
  }

  /**
   * When every paper is stored, the sweep's dedup is the delivery rule with the papers already
   * notified to the chat as the records: the same sends are tried, the chat's notified papers
   * afterwards are the records afterwards, no other user's are touched, no row appears or goes,
   * and no list gains a duplicate.
   */
  lemma {:induction false} NotifyPassIsDeliver(papers: map<string, PaperRow>, chatId: int, ids: seq<string>, ok: seq<bool>,
                                               other: int)
    requires |ok| == |ids|
    requires forall i | 0 <= i < |ids| :: ids[i] in papers
    ensures var r := NotifyPass(papers, chatId, ids, ok);
      var d := Deliver(NotifiedIds(papers, chatId), ids, ok, false);
      && r.0.Keys == papers.Keys
      && r.1 == d.attempted
      && NotifiedIds(r.0, chatId) == d.recorded
      && (other != chatId ==> NotifiedIds(r.0, other) == NotifiedIds(papers, other))
      && (NotifyListsDistinct(papers) ==> NotifyListsDistinct(r.0))
    decreases |ids|
  {
    if ids != [] {
      var n := |ids| - 1;
      NotifyPassIsDeliver(papers, chatId, ids[..n], ok[..n], other);
      var r := NotifyPass(papers, chatId, ids[..n], ok[..n]);
      assert ids[n] in r.0;
      assert chatId in NotifyList(r.0, ids[n]) <==> ids[n] in NotifiedIds(r.0, chatId);
      if chatId !in NotifyList(r.0, ids[n]) && ok[n] {
        NotifiedAfterAdd(r.0, ids[n], chatId, other);
        AddNotifyFacts(r.0, ids[n], chatId);
      }
    }
  }

  /** A second sweep over papers whose every send succeeded sends nothing and changes nothing. */
  lemma SweepTwiceSendsNothing(papers: map<string, PaperRow>, chatId: int, ids: seq<string>, ok: seq<bool>, again: seq<bool>)
    requires |ok| == |ids| && |again| == |ids|
    requires forall i | 0 <= i < |ids| :: ids[i] in papers
    requires forall i | 0 <= i < |ok| :: ok[i]
    ensures var r := NotifyPass(papers, chatId, ids, ok);
      NotifyPass(r.0, chatId, ids, again).1 == []
  {
    var r := NotifyPass(papers, chatId, ids, ok);
    NotifyPassIsDeliver(papers, chatId, ids, ok, chatId);
    NotifyPassIsDeliver(r.0, chatId, ids, again, chatId);
    RedeliverNothing(NotifiedIds(papers, chatId), ids, ok, again, false);
  }

  /** The send outcomes `ok`, cut or padded with failures to `n` of them. */
  function Fit(ok: seq<bool>, n: nat): seq<bool> {
    seq(n, k requires 0 <= k < n => k < |ok| && ok[k])
  }

  lemma FitExact(ok: seq<bool>)
    ensures Fit(ok, |ok|) == ok
  {
  }

  /**
   * One user's sweep with the search awaited: the user's queries searched in order; a search that
   * raises ends the user's turn (the `except: continue`), and the papers gathered so far are
   * dropped unsent; otherwise the dedup runs over everything gathered, `ok` giving the send
   * outcomes. The store afterwards and the ids whose send was tried.
   */
  function UserSweep(stored: map<string, PaperRow>, qs: seq<SearchQuery>, chatId: int, ok: seq<bool>,
                     api: (string, int) -> ApiResult, defaultMax: int, hasLlm: bool,
                     enrich: PaperEntry -> Enrichment, enrichFails: bool): (map<string, PaperRow>, seq<string>)
  {
    var s := SearchesInOrder(stored, qs, SweepMax, api, defaultMax, hasLlm, enrich, enrichFails);
    if s.2 then (s.1, []) else NotifyPass(s.1, chatId, Ids(s.0), Fit(ok, |s.0|))
  }

  /**
   * As written, `update_user_notify` answers true for a second user of a paper but does not store
   * it, so the next sweep finds the user missing from the list and sends the paper again; the
   * corrected update (`AddNotify`) lists the user, and the next sweep skips the paper.
   */
  lemma SecondUserResentAsWritten(papers: map<string, PaperRow>, arxivId: string, first: int, second: int, ok: bool)
    requires arxivId in papers && papers[arxivId].userNotify == [first] && second != first
    ensures var w := AddNotifyAsWritten(papers, arxivId, second);
      && w.0 && w.1 == papers
      && NotifyPass(w.1, second, [arxivId], [ok]).1 == [arxivId]
    ensures NotifyPass(AddNotify(papers, arxivId, second), second, [arxivId], [ok]).1 == []
  {
    var w := AddNotifyAsWritten(papers, arxivId, second);
    assert second !in NotifyList(w.1, arxivId);
    assert [arxivId][..0] == [] && [ok][..0] == [];
    AddNotifyFacts(papers, arxivId, second);
  }

  /**
   * One user's sweep, end to end: the searches keep every stored row and store every paper found.
   * When one raises nothing is sent and no list changes. Otherwise the sends tried are the ones
   * the delivery rule picks with the papers already notified to the chat as its records, so none
   * of them was notified before; the chat's notified papers afterwards are the records after the
   * pass, and no other user's change.
   */
  lemma SweepDelivers(stored: map<string, PaperRow>, qs: seq<SearchQuery>, api: (string, int) -> ApiResult,
                      defaultMax: int, hasLlm: bool, enrich: PaperEntry -> Enrichment, enrichFails: bool,
                      chatId: int, ok: seq<bool>, other: int)
    ensures var s := SearchesInOrder(stored, qs, SweepMax, api, defaultMax, hasLlm, enrich, enrichFails);
      var r := UserSweep(stored, qs, chatId, ok, api, defaultMax, hasLlm, enrich, enrichFails);
      && KeepsRows(stored, s.1) && AllStored(s.0, s.1)
      && (s.2 ==> r == (s.1, []))
      && (!s.2 ==>
            var d := Deliver(NotifiedIds(s.1, chatId), Ids(s.0), Fit(ok, |s.0|), false);
            && r.0.Keys == s.1.Keys
            && r.1 == d.attempted && NotifiedIds(r.0, chatId) == d.recorded
            && (forall id | id in r.1 :: id !in NotifiedIds(s.1, chatId))
            && (other != chatId ==> NotifiedIds(r.0, other) == NotifiedIds(s.1, other)))
  {
    var s := SearchesInOrder(stored, qs, SweepMax, api, defaultMax, hasLlm, enrich, enrichFails);
    SearchesStore(stored, qs, SweepMax, api, defaultMax, hasLlm, enrich, enrichFails);
    if !s.2 {
      var f := Fit(ok, |s.0|);
      NotifyPassIsDeliver(s.1, chatId, Ids(s.0), f, other);
      DeliverFacts(NotifiedIds(s.1, chatId), Ids(s.0), f, false);
    }
  }

  /**
   * `isinstance(res, list)` and `papers.extend(res)` for each result: what is not a list is
   * logged and skipped.
   */
  function Gathered(results: seq<ThreadResult>): seq<PaperEntry> {
    if results == [] then []
    else Gathered(results[..|results| - 1]) + (if results[|results| - 1].PaperList? then results[|results| - 1].papers else [])
  }

  /**
   * As written the sweep calls the coroutine function `search` (and `fetch_today_new`) through
   * `asyncio.to_thread`, so every result is a coroutine object, nothing is gathered, no search
   * runs, and the user is sent nothing, however many queries the user has.
   */
  lemma {:induction false} SweepAsWrittenSendsNothing(papers: map<string, PaperRow>, chatId: int, qs: seq<SearchQuery>)
    ensures var results := seq(|qs|, i requires 0 <= i < |qs| => SearchInThreadAsWritten(qs[i].query, SweepMax(qs[i])));
      Gathered(results) == [] && NotifyPass(papers, chatId, Ids(Gathered(results)), []) == (papers, [])
    decreases |qs|
  {
    if qs != [] {
      var n := |qs| - 1;
      SweepAsWrittenSendsNothing(papers, chatId, qs[..n]);
      var results := seq(|qs|, i requires 0 <= i < |qs| => SearchInThreadAsWritten(qs[i].query, SweepMax(qs[i])));
      assert results[..n] == seq(n, i requires 0 <= i < n => SearchInThreadAsWritten(qs[..n][i].query, SweepMax(qs[..n][i])));
    }
  }

  /**
   * With the search awaited, every paper a user's searches find that was not yet notified to the
   * chat gets a send, unless a search raised, when none does; as written, the same user is sent nothing.
   */
  lemma SweepCorrectedSends(stored: map<string, PaperRow>, qs: seq<SearchQuery>, api: (string, int) -> ApiResult,
                            defaultMax: int, hasLlm: bool, enrich: PaperEntry -> Enrichment, enrichFails: bool,
                            chatId: int, ok: seq<bool>, id: string)
    requires var s := SearchesInOrder(stored, qs, SweepMax, api, defaultMax, hasLlm, enrich, enrichFails);
      id in Ids(s.0) && id !in NotifiedIds(s.1, chatId)
    ensures var s := SearchesInOrder(stored, qs, SweepMax, api, defaultMax, hasLlm, enrich, enrichFails);
      var r := UserSweep(stored, qs, chatId, ok, api, defaultMax, hasLlm, enrich, enrichFails);
      (id in r.1 <==> !s.2)
    ensures var asWritten := seq(|qs|, i requires 0 <= i < |qs| => SearchInThreadAsWritten(qs[i].query, SweepMax(qs[i])));
      Gathered(asWritten) == [] && NotifyPass(stored, chatId, Ids(Gathered(asWritten)), []).1 == []
  {
    var s := SearchesInOrder(stored, qs, SweepMax, api, defaultMax, hasLlm, enrich, enrichFails);
    SweepDelivers(stored, qs, api, defaultMax, hasLlm, enrich, enrichFails, chatId, ok, chatId);
    if !s.2 {
      DeliverTries(NotifiedIds(s.1, chatId), Ids(s.0), Fit(ok, |s.0|), false, id);
    }
    SweepAsWrittenSendsNothing(stored, chatId, qs);
  }

  /**
   * A sweep pass over the users `visited`, in order, each with its row in `users` and the send
   * outcomes `oks` gives it, each user's turn over the store the previous one left: the store
   * afterwards and, per user, the ids whose send was tried.
   */
  function SweepSpec(stored: map<string, PaperRow>, users: map<int, UserRow>, visited: seq<int>, oks: seq<seq<bool>>,
                     api: (string, int) -> ApiResult, defaultMax: int, hasLlm: bool,
                     enrich: PaperEntry -> Enrichment, enrichFails: bool): (map<string, PaperRow>, seq<seq<string>>)
    requires |oks| == |visited| && forall i | 0 <= i < |visited| :: visited[i] in users
    decreases |visited|
  {
    if visited == [] then (stored, [])
    else
      var n := |visited| - 1;
      var r := SweepSpec(stored, users, visited[..n], oks[..n], api, defaultMax, hasLlm, enrich, enrichFails);
      var u := UserSweep(r.0, QueriesOf(users[visited[n]]), visited[n], oks[n], api, defaultMax, hasLlm, enrich, enrichFails);
      (u.0, r.1 + [u.1])
  }

  lemma SweepSpecSnoc(stored: map<string, PaperRow>, users: map<int, UserRow>, visited: seq<int>, oks: seq<seq<bool>>,
                      id: int, ok: seq<bool>, api: (string, int) -> ApiResult, defaultMax: int, hasLlm: bool,
                      enrich: PaperEntry -> Enrichment, enrichFails: bool)
    requires |oks| == |visited| && (forall i | 0 <= i < |visited| :: visited[i] in users) && id in users
    ensures var r := SweepSpec(stored, users, visited, oks, api, defaultMax, hasLlm, enrich, enrichFails);
      var u := UserSweep(r.0, QueriesOf(users[id]), id, ok, api, defaultMax, hasLlm, enrich, enrichFails);
      SweepSpec(stored, users, visited + [id], oks + [ok], api, defaultMax, hasLlm, enrich, enrichFails) == (u.0, r.1 + [u.1])
  {
    assert (visited + [id])[..|visited|] == visited;
    assert (oks + [ok])[..|oks|] == oks;
  }

  /** The ids of each list. */
  function IdsEach(lists: seq<seq<PaperEntry>>): seq<seq<string>> {
    seq(|lists|, i requires 0 <= i < |lists| => Ids(lists[i]))
  }

  lemma IdsEachSnoc(lists: seq<seq<PaperEntry>>, l: seq<PaperEntry>)
    ensures IdsEach(lists + [l]) == IdsEach(lists) + [Ids(l)]
  {
  }

  /** One more user's turn extends the pass: the store it leaves and the ids it sends join the fold. */
  lemma SweepStep(stored: map<string, PaperRow>, users: map<int, UserRow>, visited: seq<int>, oks: seq<seq<bool>>,
                  sentTo: seq<seq<PaperEntry>>, before: map<string, PaperRow>, after: map<string, PaperRow>,
                  id: int, ok: seq<bool>, sent: seq<PaperEntry>, api: (string, int) -> ApiResult, defaultMax: int,
                  hasLlm: bool, enrich: PaperEntry -> Enrichment, enrichFails: bool)
    requires |oks| == |visited| && (forall i | 0 <= i < |visited| :: visited[i] in users) && id in users
    requires (before, IdsEach(sentTo)) == SweepSpec(stored, users, visited, oks, api, defaultMax, hasLlm, enrich, enrichFails)
    requires (after, Ids(sent)) == UserSweep(before, QueriesOf(users[id]), id, ok, api, defaultMax, hasLlm, enrich, enrichFails)
    ensures (after, IdsEach(sentTo + [sent])) ==
      SweepSpec(stored, users, visited + [id], oks + [ok], api, defaultMax, hasLlm, enrich, enrichFails)
  {
    SweepSpecSnoc(stored, users, visited, oks, id, ok, api, defaultMax, hasLlm, enrich, enrichFails);
    IdsEachSnoc(sentTo, sent);
  }

  /** The bot: the store, the search client, and the conversation's per-user state and `user_data`. */
  class ArxivBot {
    const db: Database
    const client: ArxivClient
    /** The configured `arxiv.max_results`, the largest cap a query may have. */
    const maxAllowed: int
    /** The `ConversationHandler`'s state per user; a user not listed is outside the conversation. */
    var conv: map<int, ConvState>
    /** `context.user_data` per user. */
    var userData: map<int, UserData>

    constructor (db: Database, client: ArxivClient, maxAllowed: int)
      ensures this.db == db && this.client == client && this.maxAllowed == maxAllowed
      ensures conv == map[] && userData == map[]
    {
      this.db := db;
      this.client := client;
      this.maxAllowed := maxAllowed;
      conv, userData := map[], map[];
    }

    function StateOf(uid: int): ConvState
      reads this
    {
      if uid in conv then conv[uid] else Idle
    }

    function DataOf(uid: int): UserData
      reads this
    {
      if uid in userData then userData[uid] else UserData(None, false)
    }

    /** Held keywords are stripped for every user. */
    predicate Consistent()
      reads this
    {
      forall uid | uid in userData :: DataWellFormed(userData[uid])
    }

    /**
     * One update from user `uid` through the conversation: the handler's turn is applied to the
     * user's state and `user_data`, and a list it stores is written with `insert_or_update_user`.
     */
    method Handle(uid: int, ev: Event)
      modifies this, db
      ensures var t := Dispatch(old(StateOf(uid)), ev, old(DataOf(uid)), old(db.StoredQueries(uid)), maxAllowed);
        && conv == old(conv)[uid := t.next] && userData == old(userData)[uid := t.data]
        && db.users == (if t.write.Some? then Upsert(old(db.users), uid, ConversationConfig(t.write.value), UserColumns).value
                        else old(db.users))
        && db.StoredQueries(uid) == (if t.write.Some? then t.write.value else old(db.StoredQueries(uid)))
      ensures old(Consistent()) ==> Consistent()
      ensures old(Consistent()) && old(WellKept(db.StoredQueries(uid), maxAllowed)) ==>
        WellKept(db.StoredQueries(uid), maxAllowed)
      ensures db.papers == old(db.papers) && db.sent == old(db.sent)
    {
      var stored := db.StoredQueries(uid);
      var t := Dispatch(StateOf(uid), ev, DataOf(uid), stored, maxAllowed);
      if Consistent() {
        assert DataWellFormed(DataOf(uid));
        DispatchKeepsWellFormed(StateOf(uid), ev, DataOf(uid), stored, maxAllowed);
        if WellKept(stored, maxAllowed) {
          DispatchWriteKeepsList(StateOf(uid), ev, DataOf(uid), stored, maxAllowed);
        }
      }
      if t.write.Some? {
        ConversationWriteStores(db.users, uid, t.write.value);
        var ok := db.InsertOrUpdateUser(uid, ConversationConfig(t.write.value));
      }
      conv := conv[uid := t.next];
      userData := userData[uid := t.data];
    }

    /**
     * The sweep for one user, with the search awaited: the user's queries searched in order (a user
     * without queries gets `fetch_today_new()`, which has no category and finds nothing), then the
     * dedup over the papers gathered; a search that raises ends the user's turn with nothing sent.
     * `outcomes` are the send outcomes, one per paper tried (`Fit` lines them up with the papers).
     */
    method SweepUser(user: UserView, today: Date, api: (string, int) -> ApiResult, enrich: PaperEntry -> Enrichment,
                     enrichFails: bool)
      returns (sent: seq<PaperEntry>, outcomes: seq<bool>)
      requires client.db == db
      modifies db
      ensures (db.papers, Ids(sent)) ==
        UserSweep(old(db.papers), QueriesOf(user.fields), user.userId, outcomes, api, client.maxResults, client.hasLlm,
                  enrich, enrichFails)
      ensures db.users == old(db.users) && db.sent == old(db.sent)
    {
      var qs := QueriesOf(user.fields);
      var gathered, raised;
      if qs != [] {
        gathered, raised := SearchQueries(qs, api, enrich, enrichFails);
        if raised {
          assert Ids([]) == [];
          return [], [];
        }
      } else {
        var todays, fetched := client.FetchTodayNew(None, today, api, enrich, enrichFails);
        gathered, raised := todays, false;
      }
      sent, outcomes := NotifyUnnotified(user.userId, gathered);
      FitExact(outcomes);
    }

    /** The query loop of the sweep: each search in order, up to one that raises. */
    method SearchQueries(qs: seq<SearchQuery>, api: (string, int) -> ApiResult, enrich: PaperEntry -> Enrichment,
                         enrichFails: bool) returns (gathered: seq<PaperEntry>, raised: bool)
      requires client.db == db
      modifies db
      ensures (gathered, db.papers, raised) ==
        SearchesInOrder(old(db.papers), qs, SweepMax, api, client.maxResults, client.hasLlm, enrich, enrichFails)
      ensures db.users == old(db.users) && db.sent == old(db.sent)
    {
      ghost var stored := db.papers;
      gathered := [];
      for j := 0 to |qs|
        invariant (gathered, db.papers, false) ==
          SearchesInOrder(stored, qs[..j], SweepMax, api, client.maxResults, client.hasLlm, enrich, enrichFails)
        invariant db.users == old(db.users) && db.sent == old(db.sent)
      {
        SearchesSnoc(stored, qs, j, SweepMax, api, client.maxResults, client.hasLlm, enrich, enrichFails);
        var ps, failed := client.Search(qs[j].query, Some(SweepMax(qs[j])), api, enrich, enrichFails);
        if failed {
          assert gathered + ps == gathered;
          SearchesStopAtRaise(stored, qs, j + 1, SweepMax, api, client.maxResults, client.hasLlm, enrich, enrichFails);
          return gathered, true;
        }
        gathered := gathered + ps;
      }
      assert qs[..|qs|] == qs;
      raised := false;
    }

    /** The send loop of the sweep: one try per paper, a failure not stopping the rest. */
    method NotifyUnnotified(chatId: int, papers: seq<PaperEntry>) returns (sent: seq<PaperEntry>, outcomes: seq<bool>)
      modifies db
      ensures |outcomes| == |papers|
      ensures (db.papers, Ids(sent)) == NotifyPass(old(db.papers), chatId, Ids(papers), outcomes)
      ensures db.users == old(db.users) && db.sent == old(db.sent)
    {
      sent, outcomes := [], [];
      ghost var ids := Ids(papers);
      assert Ids(sent) == [] && ids[..0] == [];
      for k := 0 to |papers|
        invariant |outcomes| == k
        invariant (db.papers, Ids(sent)) == NotifyPass(old(db.papers), chatId, ids[..k], outcomes)
        invariant db.users == old(db.users) && db.sent == old(db.sent)
      {
        var p := papers[k];
        var sendOk: bool := *;
        assert ids[..k + 1][..k] == ids[..k] && ids[k] == p.arxivId;
        assert (outcomes + [sendOk])[..k] == outcomes;
        var notified := db.GetUserNotify(p.arxivId);
        if chatId !in notified {
          assert Ids(sent + [p]) == Ids(sent) + [p.arxivId];
          sent := sent + [p];
          if sendOk {
            var added := db.UpdateUserNotify(p.arxivId, chatId);
          }
        }
        outcomes := outcomes + [sendOk];
      }
      assert ids[..|papers|] == ids;
    }

    /**
     * One pass of `_background_fetch_loop` with the searches awaited: every stored user once, in
     * the order `get_all_users` lists them, each user's turn as `UserSweep` over the store the
     * previous one left. `outcomes` are the send outcomes of each user's turn.
     */
    method SweepPass(today: Date, api: (string, int) -> ApiResult, enrich: PaperEntry -> Enrichment, enrichFails: bool)
      returns (visited: seq<int>, sentTo: seq<seq<PaperEntry>>, ghost outcomes: seq<seq<bool>>)
      requires client.db == db
      modifies db
      ensures |sentTo| == |visited| && |outcomes| == |visited|
      ensures forall id | id in old(db.users) :: id in visited
      ensures forall i | 0 <= i < |visited| :: visited[i] in old(db.users)
      ensures forall i, j | 0 <= i < j < |visited| :: visited[i] != visited[j]
      ensures (db.papers, IdsEach(sentTo)) ==
        SweepSpec(old(db.papers), old(db.users), visited, outcomes, api, client.maxResults, client.hasLlm, enrich, enrichFails)
      ensures db.users == old(db.users) && db.sent == old(db.sent)
    {
      var users := db.GetAllUsers();
      ghost var known := db.users;
      visited, sentTo, outcomes := SweepUsers(users, today, api, enrich, enrichFails);
      EveryIdOnce(known, users, visited);
    }

    /** The turns of the users listed, in order. */
    method SweepUsers(users: seq<UserView>, today: Date, api: (string, int) -> ApiResult, enrich: PaperEntry -> Enrichment,
                      enrichFails: bool)
      returns (visited: seq<int>, sentTo: seq<seq<PaperEntry>>, ghost outcomes: seq<seq<bool>>)
      requires client.db == db
      requires forall i | 0 <= i < |users| :: users[i].userId in db.users && users[i].fields == db.users[users[i].userId]
      modifies db
      ensures |sentTo| == |visited| == |outcomes| == |users|
      ensures forall k | 0 <= k < |users| :: visited[k] == users[k].userId
      ensures (db.papers, IdsEach(sentTo)) ==
        SweepSpec(old(db.papers), old(db.users), visited, outcomes, api, client.maxResults, client.hasLlm, enrich, enrichFails)
      ensures db.users == old(db.users) && db.sent == old(db.sent)
    {
      ghost var known, stored := db.users, db.papers;
      visited, sentTo, outcomes := [], [], [];
      assert IdsEach(sentTo) == [];
      for i := 0 to |users|
        invariant |sentTo| == |visited| == |outcomes| == i
        invariant forall k | 0 <= k < i :: visited[k] == users[k].userId
        invariant (db.papers, IdsEach(sentTo)) ==
          SweepSpec(stored, known, visited, outcomes, api, client.maxResults, client.hasLlm, enrich, enrichFails)
        invariant db.users == known && db.sent == old(db.sent)
      {
        var u := users[i];
        ghost var before := db.papers;
        var sent, oks := SweepUser(u, today, api, enrich, enrichFails);
        SweepStep(stored, known, visited, outcomes, sentTo, before, db.papers, u.userId, oks, sent, api, client.maxResults,
                  client.hasLlm, enrich, enrichFails);
        visited, sentTo, outcomes := visited + [u.userId], sentTo + [sent], outcomes + [oks];
      }
    }
  }
}
