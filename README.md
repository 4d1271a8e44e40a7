# ArxivPusherBot, modelled in Dafny

ArxivPusherBot watches arXiv for new papers and pushes them to people. It does so through a
Telegram bot or a Matrix room. Each Telegram user keeps a list of saved searches, and a short
dialogue adds or removes them. A background sweep runs each saved search and sends every paper
found that the user has not been sent already. This project models the parts of that program
that follow exact rules, and proves what those rules promise.

The model follows the program's files, one Dafny module for each:

- `Store` (store.dfy) models the PostgreSQL store (arxiv_database.py).
  - The `papers` and `user_config` tables become maps inside a `Database` class.
  - The delivery records that the Telegram bot reads with `is_sended` and writes with `sended` become a set of (paper, user) pairs.
- `Client` (client.dfy) models the arXiv search adapter (arxiv_client.py).
  - Entry conversion: the id is the text after the last `/`, and a timestamp round-trips through `strftime`/`strptime`.
  - `search` splits its results into known papers, which take their stored enrichment, and new papers, which are enriched and saved.
  - `fetch_recent` and the "published today" filter of `fetch_today_new`.
  - `SearchesInOrder`: the searches of one saved-query list, run in order.
- `Llm` (llm.dfy) models the LLM helpers (arxiv_llm.py).
  - The tag parser.
  - The two chat requests.
  - `generate_tags` and `summarize_cn`, with the model's `generate` call passed in as a parameter.
- `Delivery` (delivery.dfy) holds `Deliver`, the "send only once" rule all three senders share.
  - Keys already recorded are skipped.
  - A send may fail.
  - A key is recorded after a send that succeeded, or after any send when the sender swallows its own errors.
- `Dialogue` (dialogue.dfy) holds what both keyword dialogues do to a saved list: append an unlisted query, or remove entry `k - 1`.
  - `WellKept` is the invariant both keep: distinct texts, each stripped and non-empty, each cap within `1..max`.
- `Telegram` (tgbot.dfy) models the session-based bot (arxiv_tgbot.py).
  - `UserSession`, `SessionManager` with its expiry watchdog, `SetKeywordsFlow` and `TgBot`.
  - Each is a class whose methods update fields in place.
  - The flow's decisions are the pure step functions `StartStep`, `CallbackStep` and `MessageStep`.
- `ArxivBot` (arxiv_bot.dfy) models the `ConversationHandler` bot (arxiv_bot.py).
  - The Telegram MarkdownV2 escaper.
  - The conversation handlers, as functions that return the next state and the new `user_data`.
  - The handler's routing of updates (`Dispatch`).
  - The background sweep, whose dedup uses each paper's `user_notify` list.
- `Matrix` (matrix.dfy) models the Matrix bot (arxiv_matrix_bot.py).
  - `fetch_and_send`, which dedups over the in-memory `sent_ids`.
  - The plain-text lines of `build_message`.
- `Strings` (strings.dfy) and `Wrappers` (wrappers.dfy) hold the Python `str` operations the code relies on, and `Option`.
  - `strip`, `split`, `join`, `replace`, `int()` and `str()`.

These are parameters, not modelled code:

- the arXiv API, as a function from (query, page size) to an `ApiResult`. `Results` is the list of entries. `SearchFailed` is a failure while the search is built, which `search` catches and answers `[]` (arxiv_client.py:50-58). `FetchRaised` is a failure while the lazy results are read (arxiv_client.py:62), outside both `try` blocks, so `search` passes it on to its caller;
- the LLM enrichment step, as a function giving each new paper its tags, description and translation, plus a flag for whether the step raises;
- the LLM `generate` call;
- the current time;
- the outcome of each send.

The outcome of each Telegram or Matrix send is chosen freely (`*`), so every proof holds whichever sends fail.

Some of the code's `await`s do not wait for the call they wrap (see Findings). There the model runs the corrected code, and a separate lemma shows what the code as written does.

The store is corrected in the same way. The model's `Database` accepts the columns the code writes but the tables do not declare: `pdf_link`, `comment` and `translation` on `papers`, and `platform` on `user_config` (Findings rows 1 and 2). Its `update_user_notify` persists every append, where the code as written persists only the first user of each paper (Findings row 5).

## Model

| member | source | states |
|---|---|---|
| Strings.Strip | arxiv_tgbot.py:448 | `str.strip()` leaves no white space at either end of the text |
| Strings.StripEmpty | arxiv_bot.py:144-148 | the stripped text is empty exactly when every character of the input is white space |
| Strings.TrimmedStripped | arxiv_bot.py:144 | a text is its own strip exactly when neither end is white space |
| Strings.StripIdempotent | arxiv_tgbot.py:448 | stripping an already stripped text changes nothing |
| Strings.ReplaceChar | arxiv_llm.py:74 | `replace` of one character keeps the length and swaps exactly the occurrences of that character |
| Strings.Split | arxiv_client.py:130 | `split(sep)` gives at least one part |
| Strings.SplitPartsFree | arxiv_client.py:130 | no part of `split(sep)` holds the separator |
| Strings.JoinSplit | arxiv_client.py:130 | joining the parts of a split with the separator gives the text back |
| Strings.SplitJoin | arxiv_database.py:159-162 | splitting a join of separator-free parts gives the parts back |
| Strings.SplitLast | arxiv_client.py:130 | `split(sep)[-1]` is the text after the last separator, built from the end of the string independently of the split |
| Strings.LastPartAfterSeparator | arxiv_client.py:130 | `split(sep)[-1]` is the whole text when there is no separator, and otherwise the text right after a separator |
| Strings.NatToString | arxiv_bot.py:102-103 | `str(n)` is decimal digits with no leading zero |
| Strings.ParseIntToString | arxiv_bot.py:216 | `int(str(n)) == n` for every integer, so the number shown in front of an entry parses back to itself |
| Strings.ParseInt | arxiv_bot.py:162 | definition: `int(text)` in base 10, with surrounding white space ignored, an optional sign, then ASCII digits; `None` stands for the `ValueError` (its round trip is `ParseIntToString`) |
| Store.PaperInsert | arxiv_database.py:75-85 | an insert succeeds exactly for a new `arxiv_id`, when every key is a column and `arxiv_id` and `title` are given; the table gains that one row on success and is unchanged on failure |
| Store.Database.InsertPaper | arxiv_database.py:75-85 | `insert_paper` answers and updates the table as `PaperInsert` does; users and delivery records are unchanged |
| Store.Database.DeletePaper | arxiv_database.py:87-95 | answers whether the id was present, removes exactly that row and nothing else |
| Store.Database.PaperExists | arxiv_database.py:107-109 | definition: true exactly when a row with that id is stored |
| Store.Database.GetUserNotify | arxiv_database.py:117-123 | the notified list of a stored paper, and `[]` for an absent paper (a NULL list is read as empty) |
| Store.AddNotifyFacts | arxiv_database.py:125-138 | appending a user changes only that paper's list, only by appending the user, lists the user afterwards, and never makes a list hold a user twice |
| Store.Database.UpdateUserNotify | arxiv_database.py:125-138 | answers true exactly when the paper exists and did not list the user; the table afterwards is the append, and the user is listed for a present paper |
| Store.Merge | arxiv_database.py:146-148 | updating an existing row overwrites exactly the given keys that are columns and keeps every other field |
| Store.Upsert | arxiv_database.py:143-152 | an existing user's row is merged; a new user's row is created from the given fields (plus the `since_days` default), or the call is refused when a key is not a column |
| Store.Database.InsertOrUpdateUser | arxiv_database.py:143-152 | the `setattr` loop over the given keys gives the merged row; the result is exactly `Upsert`. `ok == false` stands for the `TypeError` that `UserConfig(**config)` raises for a key that is not a column; the source does not catch it and it propagates to the caller, and nothing is written |
| Store.QueryTextsFacts | arxiv_database.py:159-161 | the keyword texts are non-empty, and they are all the query texts, in order, when no text is empty |
| Store.KeywordsSplit | arxiv_database.py:159-162 | when no query text is empty or holds a space, splitting `keywords` on spaces gives the query texts back in order |
| Store.Database.GetUserConfig | arxiv_database.py:154-163 | a user exactly when the id is stored, with `keywords` derived from that row and set only when the user has queries |
| Store.Database.GetAllUsers | arxiv_database.py:165-178 | every stored user exactly once, each with `keywords` derived from its row |
| Store.Database.DeleteUser | arxiv_database.py:180-187 | answers whether the id was present, removes exactly that row and nothing else |
| Store.Database.Sended | arxiv_tgbot.py:159 | `sended(p, u)` records the pair (p, u) and changes nothing else |
| Store.Database.IsSended | arxiv_tgbot.py:150 | definition: `is_sended(p, u)` holds exactly when the pair (p, u) was recorded by `sended` |
| Store.Database.GetPaperData | arxiv_client.py:69-73 | definition: `get_paper_data` is the stored row of that id, and nothing for an absent id |
| Store.AddNotifyAsWritten | arxiv_database.py:125-138 | definition of `update_user_notify` as written: true for a present paper that does not list the user, but the append is persisted only when the list was NULL or empty (Findings) |
| Client.FormatThenParse | arxiv_client.py:142 | a valid timestamp formatted with `%Y-%m-%dT%H:%M:%SZ` parses back to itself |
| Client.ParseThenFormat | arxiv_client.py:118 | a text that parses is exactly the formatting of what it parses to |
| Client.ParseIsoFormat | arxiv_client.py:118 | the parser standing for `strptime(p.published, "%Y-%m-%dT%H:%M:%SZ")` accepts exactly the formatted valid timestamps, the zero-padded form only (see Left out) |
| Client.FormattedParses | arxiv_client.py:142 | a converted entry's `published` field parses back to the entry's publication date |
| Client.ArxivIdOf | arxiv_client.py:130 | the id is the suffix after the last `/` of `entry_id`, holds no `/`, and is the whole id when there is none |
| Client.EntryToPaperFacts | arxiv_client.py:129-150 | conversion fails exactly without a title or summary; otherwise title and summary are stripped, missing times, links and comments are `""`, and the enrichment defaults are `[]`, `""`, `""` |
| Client.EntryToPaper | arxiv_client.py:129-150 | definition: `_entry_to_paper`, `None` for the exception a missing title or summary raises (its properties are `EntryToPaperFacts`) |
| Client.ConvertedFacts | arxiv_client.py:62-77 | every returned paper converts some entry, and when every entry converts the result is their conversions in API order |
| Client.SaveNewKeeps | arxiv_client.py:86-88 | saving the new papers never changes or removes a stored row |
| Client.SaveNewAddsOnlyNew | arxiv_client.py:86-88 | saving adds rows only for papers that were not stored before the search |
| Client.SaveNewStoresAll | arxiv_client.py:86-88 | after saving, every paper that was not stored is stored |
| Client.SearchStoreFacts | arxiv_client.py:60-90 | a search keeps every stored row, adds rows only for ids absent before, and stores every converted id |
| Client.SearchResultFacts | arxiv_client.py:60-90 | the result is every converted entry in API order; a stored paper carries its stored enrichment; a new paper carries the enrichment when it ran and did not raise, and the conversion defaults otherwise |
| Client.SearchFailedFacts | arxiv_client.py:50-58 | a search that cannot be built returns `[]` and leaves the store alone |
| Client.SearchSpec | arxiv_client.py:45-90 | definition: the papers `search` returns and the store afterwards for each of the API's three answers (its properties are `SearchStoreFacts`, `SearchResultFacts` and `SearchFailedFacts`) |
| Client.EffectiveMax | arxiv_client.py:47 | definition: `max_results or self.max_results`, where `None` and `0` take the default |
| Client.SearchTwiceSavesNothing | arxiv_client.py:67-88 | repeating a search over the store it produced finds no new paper, so nothing is enriched or saved again |
| Client.SaveRefusedAsDeclared | arxiv_client.py:163-178 | as the table is declared, the insert `_save_to_db` issues is refused for every paper (Findings) |
| Client.SaveStoresNewPaper | arxiv_client.py:155-181 | with the three missing columns declared, a new paper is inserted, with `[]` and `""` where its enrichment is `None` |
| Client.SearchesStore | arxiv_bot.py:355-366 | after a user's searches, up to one that raises, every stored row is kept and every paper found is stored |
| Client.SearchesInOrder | arxiv_bot.py:355-366 | definition: a saved-query list searched in order, each search over the store the one before left, stopping at the first that raises, which is reported |
| Client.SearchesStopAtRaise | arxiv_matrix_bot.py:139-145 | once a search of the list raises, the later queries are not searched: the whole run is the run up to that query |
| Client.SearchesEachStore | arxiv_client.py:106-112 | with each raise caught, one list per request: the searches keep every stored row, and every paper of every list is stored afterwards |
| Client.SearchesAgree | arxiv_tgbot.py:213-221 | when no search raises, searching a list up to the first raise and searching each query with its raise caught give the same papers in the same order and the same store |
| Client.TodayOfMembers | arxiv_client.py:114-122 | a paper is kept exactly when it is in the list and its `published` value parses to today's date |
| Client.TodayAcrossMembers | arxiv_client.py:106-124 | a paper is in the day's list exactly when some category's results hold it and it was published today |
| Client.ArxivClient.constructor | arxiv_client.py:33-37 | the default page size is the configured `max_results`, else 20 |
| Client.ArxivClient.SaveToDb | arxiv_client.py:155-181 | `_save_to_db` leaves a stored id alone and otherwise inserts the paper's row |
| Client.ArxivClient.ClassifyEntries | arxiv_client.py:60-77 | the conversion loop returns every converted entry in order, known ones with their stored enrichment, and flags exactly the ones not stored |
| Client.ArxivClient.SaveNewPapers | arxiv_client.py:86-88 | the save loop saves, in order, exactly the papers flagged new |
| Client.ArxivClient.Search | arxiv_client.py:45-90 | the papers returned and the store afterwards are those of `SearchSpec` for the API's answer, with a falsy page size replaced by the default; `raised` is set exactly when reading the results raises, and then nothing is returned or stored |
| Client.ArxivClient.FetchRecent | arxiv_client.py:92-96 | `fetch_recent` is the search for `"cat:" + category`, with the same answer, store and raise |
| Client.ArxivClient.FetchTodayNew | arxiv_client.py:98-124 | the lists fetched and the store afterwards are `SearchesEach` over one `fetch_recent` request per category, in order, a raise counting as `[]`; the result is the papers of those lists published today, in order; with no categories given nothing is searched or stored |
| Client.KeepToday | arxiv_client.py:114-122 | the date-filter loop keeps exactly the papers published today, in order |
| Llm.PySlicePrefix | arxiv_llm.py:75 | Python's `xs[:n]` is a prefix of length `min(n, len)`, counted from the end for a negative `n` |
| Llm.ParseTagsFacts | arxiv_llm.py:73-75 | every tag is non-empty, stripped and holds no comma or newline; there are at most `max_tags`; the tags are the first fragments in order |
| Llm.ParseTags | arxiv_llm.py:73-75 | definition: `_parse_tags`, newlines read as commas, each fragment stripped, empty ones dropped, then `[:max_tags]` (its properties are `ParseTagsFacts`) |
| Llm.CleanFragmentSource | arxiv_llm.py:74 | each tag is the stripped form of some non-blank fragment of the answer |
| Llm.KeptFragments | arxiv_llm.py:74 | every fragment kept from a line without newlines is a clean tag |
| Llm.ParseJoinedTags | arxiv_llm.py:73-75 | clean tags joined by commas parse back to the same tags, truncated to `max_tags` |
| Llm.ParseEmptyLine | arxiv_llm.py:74 | an empty answer gives no tags |
| Llm.TagMessagesShape | arxiv_llm.py:60-71 | the tag request is a system message then a user message that holds the tag count, the title and the abstract, with the abstract last |
| Llm.SummaryMessagesShape | arxiv_llm.py:85-93 | the summary request is a system message then a user message that holds the title and the abstract, with the abstract last |
| Llm.GenerateTags | arxiv_llm.py:53-58 | the tags are a prefix of the fragments of the model's answer to the tag request, at most `max_tags_prompt` of them, each clean |
| Llm.SummarizeCn | arxiv_llm.py:80-83 | the summary has no white space at its ends and is empty exactly when the model's answer is all white space |
| Delivery.DeliverFacts | arxiv_tgbot.py:146-161 | the records grow by exactly the keys delivered (attempted, when failures are recorded); no recorded key is sent; no key is delivered twice; only given keys are sent |
| Delivery.Deliver | arxiv_tgbot.py:146-161 | definition: one pass over the keys, skipping a recorded key, trying every other one, and recording it after success, or after any send when failures are recorded (its properties are `DeliverFacts`) |
| Delivery.DeliverReaches | arxiv_tgbot.py:146-161 | a failure does not stop the pass: every key whose own send succeeds ends up recorded |
| Delivery.DeliverTries | arxiv_matrix_bot.py:147-152 | every given key not recorded before the pass gets a send |
| Delivery.DeliverConcat | arxiv_tgbot.py:213-220 | a pass over two stretches of keys is the second stretch's pass from the first one's records |
| Delivery.RedeliverNothing | arxiv_tgbot.py:148-150 | a second pass over keys whose every send succeeded sends nothing |
| Delivery.AllRecordedSkipped | arxiv_matrix_bot.py:147-149 | a pass over keys that are all recorded sends nothing and changes nothing |
| Dialogue.RemoveAtFacts | arxiv_tgbot.py:499 | `queries.pop(k)` keeps every other entry in order and removes exactly entry `k` |
| Dialogue.AppendKeeps | arxiv_tgbot.py:476-481 | appending a valid query whose text is not listed keeps the list well kept |
| Dialogue.RemoveKeeps | arxiv_tgbot.py:498-499 | removing an entry keeps the list well kept |
| Telegram.ExpiryStrict | arxiv_tgbot.py:361-363 | a session expires exactly when it has been idle strictly longer than its timeout |
| Telegram.CallbackFacts | arxiv_tgbot.py:414-444 | a button never raises and never writes; the session ends exactly on `cancel`, or on `delete_keyword` with nothing saved; `add_keyword` asks for a query and `delete_keyword` asks for a number |
| Telegram.StartStep | arxiv_tgbot.py:388-412 | definition: `start` asks for a first query when none is saved and offers the choices otherwise, keeping `tmp_data` |
| Telegram.CallbackStep | arxiv_tgbot.py:414-444 | definition: the step `on_callback` takes for each button (its properties are `CallbackFacts`) |
| Telegram.MessageStep | arxiv_tgbot.py:446-509 | definition: the step `on_message` takes in each state, `Raises` for the `KeyError` of a cap with no keyword held (its properties are the `...Facts` lemmas below and `WriteEnds`) |
| Telegram.AddingKeywordFacts | arxiv_tgbot.py:451-462 | entering a query: blank text changes nothing; other text is held, stripped, as `new_keyword`, and the cap is asked for |
| Telegram.AddingMaxResultsFacts | arxiv_tgbot.py:465-490 | entering the cap: nothing changes unless the text is a number in `1..max`; then a listed keyword goes back to entering a query, and an unlisted one is appended with that cap and the session ends |
| Telegram.DeletingFacts | arxiv_tgbot.py:493-509 | deleting: a number `k` in `1..len` removes entry `k - 1` and ends the session; any other text changes nothing |
| Telegram.DeleteShownNumber | arxiv_tgbot.py:493-505 | typing the number the list shows in front of an entry deletes exactly that entry |
| Telegram.WriteEnds | arxiv_tgbot.py:446-509 | in every state, the store is written exactly when the session ends, and an ended session is reset |
| Telegram.MessageKeepsWellFormed | arxiv_tgbot.py:446-509 | from a consistent session no message raises, and the session stays consistent |
| Telegram.MessageWriteKeepsList | arxiv_tgbot.py:465-509 | a list the dialogue writes is well kept whenever the list it started from was |
| Telegram.TelegramWriteStores | arxiv_tgbot.py:482-485 | with a `platform` column, the dialogue's write is accepted and sets just this user's saved list |
| Telegram.TelegramWriteRefusedAsDeclared | arxiv_tgbot.py:482-485 | as the table is declared, the same write for a user with no row is refused (Findings) |
| Telegram.UserSession.constructor | arxiv_tgbot.py:251-258 | a new session has no state, no `tmp_data`, nothing to revoke, and is active now |
| Telegram.UserSession.Touch | arxiv_tgbot.py:260-262 | `touch` sets `last_active` to now and changes nothing else |
| Telegram.UserSession.AddRevokeMessage | arxiv_tgbot.py:264-275 | the message's chat and id are appended, and nothing is appended for a falsy reply |
| Telegram.UserSession.RevokeMessages | arxiv_tgbot.py:277-284 | a delete is tried for every tracked message in order, whatever the outcomes, and the list is emptied |
| Telegram.UserSession.Reset | arxiv_tgbot.py:286-289 | `reset` clears the state and `tmp_data` and nothing else |
| Telegram.UserSession.End | arxiv_tgbot.py:291-296 | `end` revokes the tracked messages, resets the session, and removes exactly this user from the manager |
| Telegram.UserSession.OnExpire | arxiv_tgbot.py:298-305 | whether or not the timeout notice is sent, the tracked messages are revoked and the session is reset |
| Telegram.SessionManager.constructor | arxiv_tgbot.py:316-322 | the manager starts with no sessions and no bot |
| Telegram.SessionManager.AttachBot | arxiv_tgbot.py:324-326 | attaches the bot and keeps the sessions |
| Telegram.SessionManager.GetOrCreate | arxiv_tgbot.py:339-347 | a known id gets its own session with its contents kept; an unknown id gets one fresh empty session added under that id alone; either way it is touched |
| Telegram.SessionManager.Remove | arxiv_tgbot.py:349-353 | removes that id's entry only; an absent id changes nothing |
| Telegram.SessionManager.ScanExpired | arxiv_tgbot.py:358-363 | the scan returns exactly the sessions idle longer than their timeout, each once |
| Telegram.SessionManager.HandleExpire | arxiv_tgbot.py:375-379 | the expired session is reset and, however `on_expire` ends, removed |
| Telegram.SessionManager.WatchdogPass | arxiv_tgbot.py:355-373 | with a bot attached, exactly the expired sessions are removed, each reset; every session kept is the same object with all its fields unchanged; without a bot nothing is removed |
| Telegram.SessionManager.HandleAll | arxiv_tgbot.py:368-371 | each expired session in turn is reset and removed; exactly their ids leave the manager and every other session keeps all its fields |
| Telegram.SetKeywordsFlow.constructor | arxiv_tgbot.py:384-386 | the flow keeps the store and the configured maximum cap |
| Telegram.SetKeywordsFlow.Start | arxiv_tgbot.py:388-412 | `start` asks for a query when the user has none saved, and otherwise offers the choices |
| Telegram.SetKeywordsFlow.OnCallback | arxiv_tgbot.py:414-444 | the session takes `CallbackStep`'s state, `tmp_data` and revoke list, and leaves the manager when the step ends; the store is unchanged |
| Telegram.SetKeywordsFlow.OnMessage | arxiv_tgbot.py:446-509 | the session and the store take `MessageStep`'s result; the `KeyError` of a cap with no keyword held changes nothing, and never happens from a consistent session; a well-kept list stays well kept |
| Telegram.TgBot.constructor | arxiv_tgbot.py:31-45 | the bot owns a fresh session manager with the 180-second timeout and no sessions |
| Telegram.TgBot.HandleSetKeywords | arxiv_tgbot.py:56-60 | the user's session gets the flow and starts it: adding a keyword when no query is saved and choosing a setting otherwise, `tmp_data` kept for a known session and empty for a new one, the start message tracked for revoking, and active now |
| Telegram.TgBot.HandleCallback | arxiv_tgbot.py:62-65 | a session without a flow raises `AttributeError` after being created or touched, with its other fields kept; otherwise the session takes the state, `tmp_data` and revoke list of `CallbackStep`, and when the step ends its messages are revoked and it leaves the manager |
| Telegram.TgBot.HandleMessage | arxiv_tgbot.py:67-76 | a session without a flow is only created or touched, and the store is unchanged; otherwise `raised` is the step's `KeyError`, which changes nothing but the time, and any other step sets the state, `tmp_data`, revoke list, manager and saved list as `MessageStep` says |
| Telegram.TgBot.FetchPapersForQuery | arxiv_tgbot.py:132-161 | the papers found and the store afterwards are the search's (`SearchSpec`), and `searchRaised` is set exactly when the search raises, when nothing is found; the sends tried and the new records are a `Deliver` pass over (paper, user) pairs |
| Telegram.TgBot.SendUnsent | arxiv_tgbot.py:146-161 | the send loop is a `Deliver` pass that records only successful sends |
| Telegram.TgBot.BackgroundPass | arxiv_tgbot.py:200-228 | the pairs offered and the store afterwards are `PassSearches`: every user's queries in order, each search over the store the one before left, a raise caught per query; one `Deliver` pass over all pairs, so a pair recorded earlier is not sent again; every key belongs to a listed user |
| Telegram.TgBot.FetchForUser | arxiv_tgbot.py:213-221 | the pairs offered and the store afterwards are those of `SearchesEach` over the user's queries, in order, each with its cap (10 when none is saved) and a raise counting as `[]`; one `Deliver` pass over those pairs, all for that user |
| Telegram.PassSearchesStore | arxiv_tgbot.py:200-228 | a background pass keeps every stored row, and every pair it offers is of a paper stored afterwards and of one of the users visited |
| ArxivBot.EscapeLength | arxiv_bot.py:18-28 | the escaped text is the input's length plus one for each special character, and `""` for `""` |
| ArxivBot.EscapeMarkdownV2 | arxiv_bot.py:18-28 | definition: `""` for `""`, otherwise a backslash before every reserved character (its properties are the three lemmas below) |
| ArxivBot.UnescapeEscape | arxiv_bot.py:26-28 | escaping loses nothing: removing the inserted backslashes gives the input back |
| ArxivBot.EscapedGuarded | arxiv_bot.py:26-28 | every special character in the output is preceded by a backslash |
| ArxivBot.ChoiceFacts | arxiv_bot.py:84-140 | `set_keywords` asks for a query when none is saved and offers the choices otherwise; `delete_keyword` with nothing saved ends the conversation; no choice writes |
| ArxivBot.SetKeywords | arxiv_bot.py:84-113 | definition: `set_keywords` enters the query prompt when none is saved and the choices otherwise (its properties are `ChoiceFacts`) |
| ArxivBot.HandleSettingChoice | arxiv_bot.py:115-140 | definition: `handle_setting_choice` for each button, `None` keeping the state (its properties are `ChoiceFacts`) |
| ArxivBot.AddKeywordFacts | arxiv_bot.py:142-155 | blank text keeps asking; other text is held, stripped, and the cap is asked for |
| ArxivBot.AddKeyword | arxiv_bot.py:142-155 | definition: `add_keyword` (its properties are `AddKeywordFacts`) |
| ArxivBot.AddMaxResultsFacts | arxiv_bot.py:157-209 | a bad or out-of-range number keeps asking; otherwise a missing keyword ends the conversation, a listed one is dropped and another query asked for, and an unlisted one is appended, dropped, and the conversation ends |
| ArxivBot.AddMaxResults | arxiv_bot.py:157-209 | definition: `add_max_results` (its properties are `AddMaxResultsFacts`) |
| ArxivBot.DeleteKeywordFacts | arxiv_bot.py:211-245 | non-numeric text keeps asking; with nothing saved the conversation ends; `k` in `1..len` removes entry `k - 1` and ends it; any other number keeps asking |
| ArxivBot.DeleteKeyword | arxiv_bot.py:211-245 | definition: `delete_keyword` (its properties are `DeleteKeywordFacts`) |
| ArxivBot.DeleteShownNumber | arxiv_bot.py:228-233 | typing the number shown in front of an entry deletes exactly that entry |
| ArxivBot.CancelFacts | arxiv_bot.py:247-254 | `/cancel` in any state inside the conversation drops both keys of `user_data` and ends the conversation |
| ArxivBot.Cancel | arxiv_bot.py:247-254 | definition: `cancel` drops both keys of `user_data` and ends the conversation |
| ArxivBot.Dispatch | arxiv_bot.py:256-269 | definition: the `ConversationHandler`'s routing: outside the conversation only `/set_keywords` enters it; inside, `/cancel` first, then the state's handler for its kind of update; every other update is ignored |
| ArxivBot.DispatchKeepsWellFormed | arxiv_bot.py:256-269 | every update keeps a held keyword stripped |
| ArxivBot.DispatchWriteKeepsList | arxiv_bot.py:157-245 | a list the conversation stores is well kept whenever the list it started from was |
| ArxivBot.ConversationWriteStores | arxiv_bot.py:194-195 | the conversation's write is accepted even as the table is declared, and sets just this user's saved list |
| ArxivBot.NotifiedAfterAdd | arxiv_bot.py:393 | recording a user on a stored paper adds that paper to the user's notified papers and to nobody else's |
| ArxivBot.NotifyPassIsDeliver | arxiv_bot.py:378-395 | the `user_notify` dedup is the `Deliver` rule with the chat's notified papers as the records: the same sends, the same records afterwards, no other user touched, and no duplicate in any list |
| ArxivBot.NotifyPass | arxiv_bot.py:378-395 | definition: the sweep's send loop for one chat over the `user_notify` lists (its properties are `NotifyPassIsDeliver`) |
| ArxivBot.SweepTwiceSendsNothing | arxiv_bot.py:381-384 | a second sweep over papers whose every send succeeded sends nothing |
| ArxivBot.SecondUserResentAsWritten | arxiv_database.py:131-136 | as written, recording a second user on a paper already notified to a first answers true but changes no list, so the second user is sent the paper again; with the append persisted nothing is resent (Findings) |
| ArxivBot.SweepDelivers | arxiv_bot.py:349-395 | one user's sweep keeps every stored row and stores every paper found; when a search raises, nothing is sent and no list changes; otherwise only papers not yet notified to the chat are tried, the chat's notified papers are the `Deliver` records, and no other user's change |
| ArxivBot.UserSweep | arxiv_bot.py:349-395 | definition: one user's turn, the searches in order and then either nothing (a search raised) or the `NotifyPass` over the papers gathered (its properties are `SweepDelivers` and `SweepCorrectedSends`) |
| ArxivBot.SweepSpec | arxiv_bot.py:349-395 | definition: the users' turns in the order visited, each over the store the previous one left |
| ArxivBot.SweepAsWrittenSendsNothing | arxiv_bot.py:355-366 | as written, every search result is a coroutine, nothing is gathered and the user is sent nothing (Findings) |
| ArxivBot.SweepCorrectedSends | arxiv_bot.py:355-395 | with the searches awaited, a found paper not yet notified to the chat gets a send exactly when none of the user's searches raised, which as written it never does |
| ArxivBot.ArxivBot.Handle | arxiv_bot.py:256-269 | an update moves the user's state and `user_data` as `Dispatch` says and stores the list it writes; held keywords stay stripped, and a well-kept list stays well kept |
| ArxivBot.ArxivBot.SweepUser | arxiv_bot.py:349-395 | the store afterwards and the ids sent are `UserSweep`: the user's queries searched in order with a cap of 10 when none is saved (a user with no queries gets `fetch_today_new`), nothing sent when a search raises, and otherwise the `NotifyPass` over what was gathered |
| ArxivBot.ArxivBot.SearchQueries | arxiv_bot.py:355-366 | the query loop is `SearchesInOrder`: each search in order, with a cap of 10 when none is saved, up to one that raises |
| ArxivBot.ArxivBot.SweepUsers | arxiv_bot.py:349-395 | the turns of the users listed, in order, give the store and the ids sent that `SweepSpec` gives |
| ArxivBot.ArxivBot.NotifyUnnotified | arxiv_bot.py:378-395 | the send loop is exactly `NotifyPass`: skip a notified chat, try a send, and record after success |
| ArxivBot.ArxivBot.SweepPass | arxiv_bot.py:341-399 | one pass visits every stored user exactly once; the store afterwards and the ids sent to each user are `SweepSpec`, each user's turn over the store the previous turn left; the users table and delivery records are unchanged |
| Matrix.MessageLinesLayout | arxiv_matrix_bot.py:96-108 | title, authors and publication come first and comment, categories and links last, with the optional lines between them |
| Matrix.TagsLine | arxiv_matrix_bot.py:101-102 | a line starts with `Tags: ` exactly when the paper has tags, and it is then the fourth line |
| Matrix.SummaryLine | arxiv_matrix_bot.py:103-104 | a line starts with `Summary: ` exactly when the paper has a description, and it then comes right after the publication and tags lines |
| Matrix.PlainMessage | arxiv_matrix_bot.py:93-111 | definition: the plain-text body of `build_message`, its lines joined by newlines (its layout is `MessageLinesLayout`) |
| Matrix.QueryMax | arxiv_matrix_bot.py:142 | definition: a configured query's cap, 5 when the key is missing |
| Matrix.FetchAndSendAsWrittenRaises | arxiv_matrix_bot.py:145-149 | as written, the first configured query raises `TypeError`, and nothing is posted or recorded (Findings) |
| Matrix.FetchAndSendCorrectedPosts | arxiv_matrix_bot.py:140-152 | with the search awaited, every found paper whose id was not yet sent is posted |
| Matrix.MatrixBot.constructor | arxiv_matrix_bot.py:30-33 | the queries are the configured `arxiv_queries`, else none, and `sent_ids` starts empty |
| Matrix.MatrixBot.PostUnsent | arxiv_matrix_bot.py:147-152 | the inner loop is a `Deliver` pass that records an id even when its send failed, and each message is the paper's plain text |
| Matrix.MatrixBot.FetchAndSend | arxiv_matrix_bot.py:138-154 | the papers found, the store and `raised` are `SearchesInOrder` over the configured queries with a cap of 5 when none is given, so a raise ends the pass; the posts and the new `sent_ids` are one `Deliver` pass that records failed sends; `sent_ids` only grows |

## Left out

- Transport and scheduling are not modelled. This covers the Telegram and Matrix calls (replies, edits, keyboards, deletes, HTTP), handler registration, polling, `asyncio` scheduling, sleeps, the endless loops and the start and stop of the watchdog. Each send or delete is an outcome passed in, and each loop is modelled as one pass.
- `time.time()` and `datetime.utcnow()` are not called; the time and the day are parameters. Times are `real` values.
- The arXiv library, the LLM HTTP client and `markdown.markdown` are foreign code, modelled as parameters or left out.
- `enrich_papers_batch` is not defined in the repository. It is a function, given as a parameter, applied to every new paper, together with a flag for whether it raises. A batch that enriches only some papers before raising is not modelled.
- `is_sended`, `sended`, `get_paper_data` and `get_telegram_users` are called but never defined. The first two are a set of sent pairs, `get_paper_data` reads the stored row, and `BackgroundPass` takes the Telegram users as a parameter.
- SQLAlchemy sessions, commits, rollbacks and the `added_time`/`created_at` defaults are left out; the tables are maps. A `since_days` default of 7 is filled in on creation.
- `get_all_users` and the watchdog scan go through a map in whatever order it yields, not in the database's or the dictionary's order.
- `Strings.ParseInt` accepts ASCII digits only, not the other Unicode digits Python's `int()` also accepts.
- `Client.ParseIso` accepts only the fixed-width, zero-padded form that `strftime` writes, not the single-digit fields `strptime` also accepts. Years are written with four digits.
- Client.ParseIsoFormat: states weaker than `strptime` at arxiv_client.py:118. It characterises only the zero-padded, four-digit-year form, so a `published` text with single-digit fields, which `strptime` accepts, is rejected by the model. Every `published` text reaching that line is written by `strftime` with the same format at arxiv_client.py:142, which is zero-padded, so on those texts the two agree (`Client.FormattedParses`) for every year from 1000 on.
- A saved query whose `max_results` is JSON `null` is treated as having none.
- `Telegram.SessionManager.WatchdogPass` handles the expired sessions one after another, where the source schedules `_handle_expire` with `create_task` for each one. The source never attaches a bot or starts the watchdog; `botAttached` is kept as a flag.
- `remove` works by user id. A session that expires and is then replaced by a new session for the same user can remove the new one; that interleaving is not modelled.
- `TgBot` creates a new `SetKeywordsFlow` for every `/set_keywords`; the model keeps one flow object, which holds no per-user state.
- `TgBot.start`, `show`, `fetch_now` and `build_message`, the MarkdownV2 helper `m2`, `DefaultFlow` and `UserSession._initialize_flow` are left out. They are replies, formatting or dead code.
- The message texts, prompts and listings the bots print are left out; only which messages are tracked for revoking is modelled.
- `ArxivBot.fetch_now` (arxiv_bot.py:289-339) is a command outside the modelled dialogue and sweep, and is left out. It calls the search the same way as the sweep does.
- A raise while reading the lazy results (`FetchRaised`) reaches a different handler in each caller, and the model follows each one. The arxiv_bot sweep drops that user's gathered papers and goes on to the next user (arxiv_bot.py:374-376). The Matrix `fetch_and_send` stops the pass after posting the papers of the earlier queries, and `start_loop` logs the error (arxiv_matrix_bot.py:145, 165). The Telegram `fetch_papers_for_query` catches it per query (arxiv_tgbot.py:136-145). `fetch_today_new` catches it per category (arxiv_client.py:108-112). Only the log lines are left out.
- The model's store has the extra columns and the persisted `update_user_notify` append of Findings rows 1, 2 and 5, so the members that store papers or save a user's queries run on the corrected tables. These are `Client.ArxivClient.SaveToDb`, `Client.ArxivClient.SaveNewPapers`, `Client.ArxivClient.Search`, `Client.SaveNewStoresAll`, `Client.SearchStoreFacts`, `Client.SearchesStore`, both sweeps (`ArxivBot.ArxivBot.SweepPass` and `Telegram.TgBot.BackgroundPass`), `Telegram.SetKeywordsFlow.OnMessage` and `Telegram.TgBot.HandleMessage`. The behaviour as written is shown by `Client.SaveRefusedAsDeclared`, `Telegram.TelegramWriteRefusedAsDeclared` and `ArxivBot.SecondUserResentAsWritten`.
- The arxiv_bot sweep's `if not users: sleep` branch is left out; with no users the pass does nothing.
- The `ConversationHandler` is keyed per user and per chat; the model keys it per user.
- The Matrix bot's call to `update_user_notify` with the room id, which is a string used as a user id, is left out. `sent_ids` already decides what is posted.
- `Matrix.MatrixBot.FetchAndSend` models only the plain-text body of each message; the HTML body is foreign code.
- The `_old` variants in arxiv_matrix_bot.py are left out, since nothing calls them.
- Retries, back-off, concurrency bounds and the splitting of queries on semicolons are absent from the code and are not modelled.
- arxiv_main.py (configuration and process start-up) and test.py are not part of this model.

## Findings

| source | as written | input that shows it | evidently intended | confidence | as-written member | corrected member |
|---|---|---|---|---|---|---|
| arxiv_client.py:163-178 | `_save_to_db` passes `pdf_link`, `comment` and `translation` to `Paper(**data)`, but the `papers` table (arxiv_database.py:13-30) has no such columns. The constructor raises `TypeError`, which is caught, so `insert_paper` answers false and no paper is ever stored | saving any new paper, e.g. a search that returns one paper not yet stored | new papers are stored with those fields | not executed | Client.SaveRefusedAsDeclared | Client.SaveStoresNewPaper |
| arxiv_tgbot.py:482-485 | the dialogue writes `{"search_queries": ..., "platform": "telegram"}`, but `user_config` (arxiv_database.py:35-45) has no `platform` column. For a user without a row, `UserConfig(**config)` raises `TypeError`, which `except ValueError` does not catch, so a new user can never save a query | a user with no stored row adds a first query with a valid cap | the user's row is created with the saved list | not executed | Telegram.TelegramWriteRefusedAsDeclared | Telegram.TelegramWriteStores |
| arxiv_bot.py:359-366 | the sweep runs `async def search` (and, at line 368, `fetch_today_new`) through `asyncio.to_thread`, which returns an un-awaited coroutine. `isinstance(res, list)` fails, so nothing is gathered and nothing is ever sent | a user with one saved query whose search would find a paper not yet notified to that user | the search is awaited and its papers are sent | not executed | ArxivBot.SweepAsWrittenSendsNothing | ArxivBot.SweepCorrectedSends |
| arxiv_matrix_bot.py:145-149 | `fetch_and_send` runs `async def search` through `asyncio.to_thread` and iterates the coroutine it gets back, which raises `TypeError` at the first query, so nothing is ever posted | a room with one configured query whose search would find a paper | the search is awaited and its papers are posted | not executed | Matrix.FetchAndSendAsWrittenRaises | Matrix.FetchAndSendCorrectedPosts |
| arxiv_database.py:132-136 | with a non-empty list, `update_user_notify` appends to the list object in place and assigns the same object back to a plain `JSON` column, so SQLAlchemy sees no change and the commit writes nothing, yet the call answers true. Only a paper's first user is ever persisted | a paper already notified to user A; user B's send succeeds and is recorded, and the next sweep sends B the paper again | every append is persisted, so each user is sent a paper once | not executed (rests on SQLAlchemy's change tracking for a plain `JSON` column) | ArxivBot.SecondUserResentAsWritten | ArxivBot.SweepTwiceSendsNothing |
