/**
 * The persistent store of the bots (arxiv_database.py), with its two tables held as maps:
 * `papers` keyed by arXiv id and `user_config` keyed by user id. The per-(paper, user) delivery
 * records that the Telegram bot reads and writes through `is_sended`/`sended` are a set of pairs.
 */
module Store {
  import opened Wrappers
  import opened Strings

  /** One saved search, the JSON object {"query": ..., "max_results": ...}. */
  datatype SearchQuery = SearchQuery(query: string, maxResults: Option<int>)

  /** A value held by one column of a `user_config` row. */
  datatype FieldValue = Queries(qs: seq<SearchQuery>) | Text(s: string) | Number(n: int) | Null

  /** A `user_config` row: column name to value, the primary key `user_id` kept apart. */
  type UserRow = map<string, FieldValue>

  /** A `papers` row; `userNotify` is the `user_notify` JSON list, NULL read as empty. */
  datatype PaperRow = PaperRow(
    arxivId: string, title: string, authors: seq<string>, summary: string,
    published: string, updated: string, categories: seq<string>, link: string,
    pdfLink: string, comment: string,
    tags: seq<string>, description: string, translation: string,
    userNotify: seq<int>)

  /** The columns of `papers` as the table class declares them. */
  const PaperColumnsAsDeclared: set<string> :=
    {"arxiv_id", "title", "authors", "summary", "published", "updated", "link", "category",
     "added_time", "user_notify", "tags", "description"}

  /** The columns of `papers` the rest of the model uses: the declared ones and the three the saver writes. */
  const PaperColumns: set<string> := PaperColumnsAsDeclared + {"pdf_link", "comment", "translation"}

  /** The columns of `user_config` as the table class declares them. */
  const UserColumnsAsDeclared: set<string> :=
    {"user_id", "description", "search_queries", "since_days", "schedule_time", "last_check", "created_at"}

  /** The columns of `user_config` the rest of the model uses: the declared ones and `platform`. */
  const UserColumns: set<string> := UserColumnsAsDeclared + {"platform"}

  /**
   * Whether a table's constructor `Table(**data)` accepts the keys of `data`: the declarative
   * constructor raises `TypeError` on a key that is not a column.
   */
  predicate Accepts(columns: set<string>, keys: set<string>) {
    keys <= columns
  }

  /** The `search_queries` of a row; NULL, a missing column or anything but a list reads as none. */
  function QueriesOf(row: UserRow): seq<SearchQuery> {
    if "search_queries" in row && row["search_queries"].Queries? then row["search_queries"].qs else []
  }

  /** `[sq.get('query', '') for sq in search_queries if sq.get('query')]` */
  function QueryTexts(qs: seq<SearchQuery>): seq<string> {
    if qs == [] then []
    else (if qs[0].query != "" then [qs[0].query] else []) + QueryTexts(qs[1..])
  }

  /** The texts kept are non-empty; when no text is empty, all of them are kept in order. */
  lemma {:induction false} QueryTextsFacts(qs: seq<SearchQuery>)
    ensures |QueryTexts(qs)| <= |qs|
    ensures forall i | 0 <= i < |QueryTexts(qs)| :: QueryTexts(qs)[i] != ""
    ensures (forall i | 0 <= i < |qs| :: qs[i].query != "") ==>
      |QueryTexts(qs)| == |qs| && forall i | 0 <= i < |qs| :: QueryTexts(qs)[i] == qs[i].query
  {
    if qs != [] {
      QueryTextsFacts(qs[1..]);
    }
  }

  /** The backward-compatible `keywords` string: the non-empty query texts joined by one space. */
  function Keywords(qs: seq<SearchQuery>): string {
    Join(QueryTexts(qs), " ")
  }

  /** When no query text is empty or holds a space, splitting `keywords` on spaces gives the queries back. */
  lemma KeywordsSplit(qs: seq<SearchQuery>)
    requires qs != []
    requires forall i | 0 <= i < |qs| :: qs[i].query != "" && ' ' !in qs[i].query
    ensures Split(Keywords(qs), ' ') == seq(|qs|, i requires 0 <= i < |qs| => qs[i].query)
  {
    QueryTextsFacts(qs);
    var ts := QueryTexts(qs);
    SplitJoin(ts, ' ');
  }

  /** A user as `get_user_config`/`get_all_users` return it: the row and the derived `keywords`. */
  datatype UserView = UserView(userId: int, fields: UserRow, keywords: Option<string>)

  /** `keywords` is set exactly for a user with at least one saved query. */
  function ViewOf(userId: int, row: UserRow): UserView {
    UserView(userId, row, if QueriesOf(row) != [] then Some(Keywords(QueriesOf(row))) else None)
  }

  /** `Paper(**data)` then commit: refused for a taken `arxiv_id`, a key that is not a column, or no title. */
  function PaperInsert(papers: map<string, PaperRow>, row: PaperRow, keys: set<string>, columns: set<string>):
    (r: (bool, map<string, PaperRow>))
    ensures r.0 <==> row.arxivId !in papers && Accepts(columns, keys) && "arxiv_id" in keys && "title" in keys
    ensures r.1 == if r.0 then papers[row.arxivId := row] else papers
  {
    if row.arxivId !in papers && Accepts(columns, keys) && "arxiv_id" in keys && "title" in keys
    then (true, papers[row.arxivId := row])
    else (false, papers)
  }

  /** The notified-users list of a paper; an absent paper has none. */
  function NotifyList(papers: map<string, PaperRow>, arxivId: string): seq<int> {
    if arxivId in papers then papers[arxivId].userNotify else []
  }

  /** `update_user_notify` on the table: append `user` to the paper's list unless absent paper or already listed. */
  function AddNotify(papers: map<string, PaperRow>, arxivId: string, user: int): map<string, PaperRow> {
    if arxivId in papers && user !in papers[arxivId].userNotify then
      papers[arxivId := papers[arxivId].(userNotify := papers[arxivId].userNotify + [user])]
    else papers
  }

  /**
   * `update_user_notify` as written, over a plain `JSON` column: the list read from the row is
   * appended to in place and assigned back, so the session sees the attribute set to the object
   * it already holds and records no change. Only a list that was NULL or empty, for which `or []`
   * builds a new list, is written; the answer is true whenever the user was not listed.
   */
  function AddNotifyAsWritten(papers: map<string, PaperRow>, arxivId: string, user: int): (bool, map<string, PaperRow>) {
    if arxivId !in papers || user in papers[arxivId].userNotify then (false, papers)
    else if papers[arxivId].userNotify == [] then (true, AddNotify(papers, arxivId, user))
    else (true, papers)
  }

  predicate NoDuplicates<T(==)>(s: seq<T>) {
    forall i, j | 0 <= i < j < |s| :: s[i] != s[j]
  }

  /** No paper lists a user twice. */
  predicate NotifyListsDistinct(papers: map<string, PaperRow>) {
    forall id | id in papers :: NoDuplicates(papers[id].userNotify)
  }

  /**
   * `AddNotify` keeps every row but the paper's, lists `user` for a present paper afterwards,
   * changes the list only by appending `user`, and never makes a list hold a user twice.
   */
  lemma AddNotifyFacts(papers: map<string, PaperRow>, arxivId: string, user: int)
    ensures var p := AddNotify(papers, arxivId, user);
      && p.Keys == papers.Keys
      && (forall id | id in papers && id != arxivId :: p[id] == papers[id])
      && (arxivId in papers ==>
            (&& user in p[arxivId].userNotify
             && p[arxivId] == papers[arxivId].(userNotify := p[arxivId].userNotify)
             && p[arxivId].userNotify == (if user in papers[arxivId].userNotify then papers[arxivId].userNotify
                                          else papers[arxivId].userNotify + [user])))
      && (NotifyListsDistinct(papers) ==> NotifyListsDistinct(p))
  {
    var p := AddNotify(papers, arxivId, user);
    if NotifyListsDistinct(papers) && arxivId in papers && user !in papers[arxivId].userNotify {
      var l := papers[arxivId].userNotify + [user];
      forall i, j | 0 <= i < j < |l| ensures l[i] != l[j] {
        if j == |l| - 1 { assert l[i] in papers[arxivId].userNotify; }
      }
    }
  }

  /** `insert_or_update_user` on an existing row: the given columns overwritten, the others kept. */
  function Merge(row: UserRow, config: map<string, FieldValue>, columns: set<string>): (r: UserRow)
    ensures r.Keys == row.Keys + (config.Keys * (columns - {"user_id"}))
    ensures forall k | k in r :: r[k] == if k in config && k in columns - {"user_id"} then config[k] else row[k]
  {
    map k | k in row.Keys + (config.Keys * (columns - {"user_id"})) ::
      if k in config && k in columns - {"user_id"} then config[k] else row[k]
  }

  /** The row `UserConfig(user_id=..., **config)` creates: the given columns and the `since_days` default. */
  function NewUserRow(config: map<string, FieldValue>): UserRow {
    if "since_days" in config then config else config["since_days" := Number(7)]
  }

  /**
   * `insert_or_update_user`: `None` stands for the `TypeError` that creating a row raises when a key
   * is not a column of `columns` (or repeats `user_id`); an existing row is merged instead.
   */
  function Upsert(users: map<int, UserRow>, userId: int, config: map<string, FieldValue>, columns: set<string>):
    (r: Option<map<int, UserRow>>)
    ensures userId in users ==> r == Some(users[userId := Merge(users[userId], config, columns)])
    ensures userId !in users ==>
      r == if Accepts(columns, config.Keys) && "user_id" !in config then Some(users[userId := NewUserRow(config)]) else None
  {
    if userId in users then Some(users[userId := Merge(users[userId], config, columns)])
    else if Accepts(columns, config.Keys) && "user_id" !in config then Some(users[userId := NewUserRow(config)])
    else None
  }

  /** A non-empty set of ids has a member to pick. */
  lemma HasElement(s: set<int>)
    requires s != {}
    ensures exists x :: x in s
  {
    if forall x :: x !in s {
      NoMemberIsEmpty(s);
      assert false;
    }
  }

  lemma NoMemberIsEmpty(s: set<int>)
    requires forall x :: x !in s
    ensures s == {}
  {
    assert forall x :: x in s <==> x in {};
  }

  /** Walking a list that holds every user once visits every user id, and none twice. */
  lemma EveryIdOnce(users: map<int, UserRow>, all: seq<UserView>, visited: seq<int>)
    requires |visited| == |all| && forall k | 0 <= k < |all| :: visited[k] == all[k].userId
    requires forall id | id in users :: exists i | 0 <= i < |all| :: all[i].userId == id
    requires forall i, j | 0 <= i < j < |all| :: all[i].userId != all[j].userId
    ensures forall id | id in users :: id in visited
    ensures forall i, j | 0 <= i < j < |visited| :: visited[i] != visited[j]
  {
    forall id | id in users ensures id in visited {
      var i :| 0 <= i < |all| && all[i].userId == id;
      assert visited[i] == id;
    }
  }

  /**
   * The state of the `get_all_users` walk: the views listed are those of distinct users not in
   * `todo`, and every user not in `todo` is listed.
   */
  predicate ViewsSoFar(users: map<int, UserRow>, all: seq<UserView>, todo: set<int>) {
    && (forall i | 0 <= i < |all| :: all[i].userId in users && all[i].userId !in todo)
    && (forall i | 0 <= i < |all| :: all[i] == ViewOf(all[i].userId, users[all[i].userId]))
    && (forall id | id in users && id !in todo :: exists i | 0 <= i < |all| :: all[i].userId == id)
    && (forall i, j | 0 <= i < j < |all| :: all[i].userId != all[j].userId)
  }

  lemma ViewsStep(users: map<int, UserRow>, all: seq<UserView>, todo: set<int>, id: int)
    requires id in todo && todo <= users.Keys && ViewsSoFar(users, all, todo)
    ensures ViewsSoFar(users, all + [ViewOf(id, users[id])], todo - {id})
  {
    var next := all + [ViewOf(id, users[id])];
    var rest := todo - {id};
    forall i | 0 <= i < |next|
      ensures next[i].userId in users && next[i].userId !in rest
      ensures next[i] == ViewOf(next[i].userId, users[next[i].userId])
    {
      if i < |all| {
        assert next[i] == all[i];
      }
    }
    forall i, j | 0 <= i < j < |next| ensures next[i].userId != next[j].userId {
      assert next[i] == all[i];
      if j < |all| {
        assert next[j] == all[j];
      }
    }
    forall x | x in users && x !in rest ensures exists i | 0 <= i < |next| :: next[i].userId == x {
      if x == id {
        assert next[|all|].userId == x;
      } else {
        var i :| 0 <= i < |all| && all[i].userId == x;
        assert next[i].userId == x;
      }
    }
  }

  /** The tables as maps, and the delivery pairs behind `is_sended`/`sended`. */
  class Database {
    var papers: map<string, PaperRow>
    var users: map<int, UserRow>
    var sent: set<(string, int)>

    constructor ()
      ensures papers == map[] && users == map[] && sent == {}
    {
      papers, users, sent := map[], map[], {};
    }

    /** `insert_paper`: true after adding a new row; false, with nothing changed, when the insert raises. */
    method InsertPaper(row: PaperRow, keys: set<string>) returns (ok: bool)
      modifies this
      ensures (ok, papers) == PaperInsert(old(papers), row, keys, PaperColumns)
      ensures users == old(users) && sent == old(sent)
    {
      ok := row.arxivId !in papers && Accepts(PaperColumns, keys) && "arxiv_id" in keys && "title" in keys;
      if ok {
        papers := papers[row.arxivId := row];
      }
    }

    /** `delete_paper`: false for an absent id, otherwise that one row removed. */
    method DeletePaper(arxivId: string) returns (ok: bool)
      modifies this
      ensures ok == (arxivId in old(papers))
      ensures papers == old(papers) - {arxivId}
      ensures users == old(users) && sent == old(sent)
    {
      ok := arxivId in papers;
      if ok {
        papers := papers - {arxivId};
      }
    }

    /** `paper_exists` */
    predicate PaperExists(arxivId: string)
      reads this
    {
      arxivId in papers
    }

    /** `get_user_notify` (the second definition, the one in effect). */
    function GetUserNotify(arxivId: string): (notified: seq<int>)
      reads this
      ensures arxivId !in papers ==> notified == []
      ensures arxivId in papers ==> notified == papers[arxivId].userNotify
    {
      NotifyList(papers, arxivId)
    }

    /** `get_paper_data`, which the source calls but does not define: the stored row, if any. */
    function GetPaperData(arxivId: string): Option<PaperRow>
      reads this
    {
      if arxivId in papers then Some(papers[arxivId]) else None
    }

    /** `update_user_notify`: appends `user` and answers true only if the paper exists and did not list it. */
    method UpdateUserNotify(arxivId: string, user: int) returns (added: bool)
      modifies this
      ensures added <==> arxivId in old(papers) && user !in old(papers)[arxivId].userNotify
      ensures papers == AddNotify(old(papers), arxivId, user)
      ensures arxivId in papers ==> user in GetUserNotify(arxivId)
      ensures users == old(users) && sent == old(sent)
    {
      AddNotifyFacts(papers, arxivId, user);
      if arxivId !in papers {
        return false;
      }
      var notified := papers[arxivId].userNotify;
      if user !in notified {
        notified := notified + [user];
        papers := papers[arxivId := papers[arxivId].(userNotify := notified)];
        return true;
      }
      return false;
    }

    /**
     * `insert_or_update_user`: for an existing user a `setattr` per key (only columns persist);
     * for a new user a row built from `config`. `ok` is false when that construction raises
     * `TypeError` for a key that is not a column; the source does not catch it, so the caller sees
     * the raise, and nothing is written.
     */
    method InsertOrUpdateUser(userId: int, config: map<string, FieldValue>) returns (ok: bool)
      modifies this
      ensures ok <==> Upsert(old(users), userId, config, UserColumns).Some?
      ensures users == if ok then Upsert(old(users), userId, config, UserColumns).value else old(users)
      ensures papers == old(papers) && sent == old(sent)
    {
      if userId in users {
        var row := users[userId];
        var todo := config.Keys;
        while todo != {}
          invariant todo <= config.Keys
          invariant row.Keys == users[userId].Keys + ((config.Keys - todo) * (UserColumns - {"user_id"}))
          invariant forall k | k in row ::
            row[k] == if k in config && k !in todo && k in UserColumns - {"user_id"} then config[k] else users[userId][k]
          decreases todo
        {
          var k :| k in todo;
          if k in UserColumns - {"user_id"} {
            row := row[k := config[k]];
          }
          todo := todo - {k};
        }
        assert row == Merge(users[userId], config, UserColumns);
        users := users[userId := row];
        ok := true;
      } else if Accepts(UserColumns, config.Keys) && "user_id" !in config {
        users := users[userId := NewUserRow(config)];
        ok := true;
      } else {
        ok := false;
      }
    }

    /** `get_user_config`: the user with `keywords` derived, or `None` for an unknown id. */
    function GetUserConfig(userId: int): (r: Option<UserView>)
      reads this
      ensures r.Some? <==> userId in users
      ensures r.Some? ==> r.value == ViewOf(userId, users[userId])
    {
      if userId in users then Some(ViewOf(userId, users[userId])) else None
    }

    /** The saved queries of a user, `[]` for an unknown user or a NULL/empty list. */
    function StoredQueries(userId: int): seq<SearchQuery>
      reads this
    {
      if userId in users then QueriesOf(users[userId]) else []
    }

    /** `get_all_users`: every user once, in the order the table yields them, `keywords` derived. */
    method GetAllUsers() returns (all: seq<UserView>)
      ensures forall i | 0 <= i < |all| :: all[i].userId in users && all[i] == ViewOf(all[i].userId, users[all[i].userId])
      ensures forall id | id in users :: exists i | 0 <= i < |all| :: all[i].userId == id
      ensures forall i, j | 0 <= i < j < |all| :: all[i].userId != all[j].userId
    {
      all := [];
      var todo := users.Keys;
      while todo != {}
        invariant todo <= users.Keys && ViewsSoFar(users, all, todo)
        decreases todo
      {
        HasElement(todo);
        var id: int :| id in todo;
        ViewsStep(users, all, todo, id);
        all := all + [ViewOf(id, users[id])];
        todo := todo - {id};
      }
    }

    /** `delete_user`: false for an absent id, otherwise that one row removed. */
    method DeleteUser(userId: int) returns (ok: bool)
      modifies this
      ensures ok == (userId in old(users))
      ensures users == old(users) - {userId}
      ensures papers == old(papers) && sent == old(sent)
    {
      ok := userId in users;
      if ok {
        users := users - {userId};
      }
    }

    /** `is_sended(paper, user)`, which the source calls but does not define: the pair was recorded. */
    predicate IsSended(arxivId: string, user: int)
      reads this
    {
      (arxivId, user) in sent
    }

    /** `sended(paper, user)`, which the source calls but does not define: record the pair. */
    method Sended(arxivId: string, user: int)
      modifies this
      ensures sent == old(sent) + {(arxivId, user)}
      ensures papers == old(papers) && users == old(users)
    {
      sent := sent + {(arxivId, user)};
    }
  }
}
