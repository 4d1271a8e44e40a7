/**
 * The arXiv search adapter (arxiv_client.py): conversion of API entries into `PaperEntry`
 * values, the split of a result list into papers already stored (which take their stored
 * enrichment) and new papers (which are enriched and then saved), and the "published today"
 * filter. The arXiv API and the enrichment step are parameters.
 */
module Client {
  import opened Wrappers
  import opened Strings
  import opened Store

  datatype Date = Date(year: int, month: int, day: int)
  datatype DateTime = DateTime(date: Date, hour: int, minute: int, second: int)

  predicate IsLeap(y: int) {
    (y % 4 == 0 && y % 100 != 0) || y % 400 == 0
  }

  function DaysInMonth(y: int, m: int): int {
    if m == 2 then (if IsLeap(y) then 29 else 28)
    else if m == 4 || m == 6 || m == 9 || m == 11 then 30
    else 31
  }

  /** The values Python's `datetime` admits. */
  predicate ValidDate(d: Date) {
    1 <= d.year <= 9999 && 1 <= d.month <= 12 && 1 <= d.day <= DaysInMonth(d.year, d.month)
  }

  predicate ValidDateTime(t: DateTime) {
    ValidDate(t.date) && 0 <= t.hour <= 23 && 0 <= t.minute <= 59 && 0 <= t.second <= 59
  }

  /** Two zero-padded decimal digits of `n % 100`. */
  function Digits2(n: int): (s: string)
    ensures |s| == 2 && IsDigit(s[0]) && IsDigit(s[1])
  {
    var v := n % 100;
    [DigitChar(v / 10), DigitChar(v % 10)]
  }

  /** Four zero-padded decimal digits of `n % 10000`. */
  function Digits4(n: int): (s: string)
    ensures |s| == 4 && forall i | 0 <= i < 4 :: IsDigit(s[i])
  {
    var v := n % 10000;
    Digits2(v / 100) + Digits2(v % 100)
  }

  /** `strftime("%Y-%m-%dT%H:%M:%SZ")` */
  function FormatIso(t: DateTime): (s: string)
    ensures |s| == 20
  {
    Digits4(t.date.year) + "-" + Digits2(t.date.month) + "-" + Digits2(t.date.day) + "T"
      + Digits2(t.hour) + ":" + Digits2(t.minute) + ":" + Digits2(t.second) + "Z"
  }

  function Value2(s: string, i: nat): nat
    requires i + 2 <= |s| && IsDigit(s[i]) && IsDigit(s[i + 1])
  {
    DigitValue(s[i]) * 10 + DigitValue(s[i + 1])
  }

  /** The positions of the 20-character timestamp that hold digits. */
  predicate DigitAt(s: string, i: nat) {
    i < |s| && IsDigit(s[i])
  }

  predicate IsoShape(s: string) {
    && |s| == 20
    && DigitAt(s, 0) && DigitAt(s, 1) && DigitAt(s, 2) && DigitAt(s, 3) && s[4] == '-'
    && DigitAt(s, 5) && DigitAt(s, 6) && s[7] == '-' && DigitAt(s, 8) && DigitAt(s, 9) && s[10] == 'T'
    && DigitAt(s, 11) && DigitAt(s, 12) && s[13] == ':' && DigitAt(s, 14) && DigitAt(s, 15) && s[16] == ':'
    && DigitAt(s, 17) && DigitAt(s, 18) && s[19] == 'Z'
  }

  /**
   * `datetime.strptime(s, "%Y-%m-%dT%H:%M:%SZ")` on the fixed-width form: `None` stands for the
   * `ValueError` raised for a string of another shape or an impossible date or time.
   */
  function ParseIso(s: string): Option<DateTime> {
    if IsoShape(s) then
      var t := DateTime(Date(Value2(s, 0) * 100 + Value2(s, 2), Value2(s, 5), Value2(s, 8)),
                        Value2(s, 11), Value2(s, 14), Value2(s, 17));
      if ValidDateTime(t) then Some(t) else None
    else None
  }

  /** `.date()` of the parsed timestamp. */
  function ParseIsoDate(s: string): Option<Date> {
    match ParseIso(s)
    case Some(t) => Some(t.date)
    case None => None
  }

  lemma DigitCharValue(c: char)
    requires IsDigit(c)
    ensures DigitChar(DigitValue(c)) == c
  {
  }

  lemma Digits2Value(n: int)
    requires 0 <= n < 100
    ensures Value2(Digits2(n), 0) == n
  {
  }

  /** A two-digit number splits into its tens and units. */
  lemma TensSplit(a: int, b: int)
    requires 0 <= a < 10 && 0 <= b < 10
    ensures (a * 10 + b) % 100 == a * 10 + b && (a * 10 + b) / 10 == a && (a * 10 + b) % 10 == b
  {
  }

  /** A four-digit number splits into its hundreds and the rest. */
  lemma HundredsSplit(a: int, b: int)
    requires 0 <= a < 100 && 0 <= b < 100
    ensures (a * 100 + b) % 10000 == a * 100 + b && (a * 100 + b) / 100 == a && (a * 100 + b) % 100 == b
  {
  }

  lemma Digits4Value(n: int)
    requires 0 <= n < 10000
    ensures Value2(Digits4(n), 0) * 100 + Value2(Digits4(n), 2) == n
  {
    var hi, lo := n / 100, n % 100;
    HundredsSplit(hi, lo);
    var d := Digits4(n);
    assert d == Digits2(hi) + Digits2(lo);
    Digits2Value(hi);
    Digits2Value(lo);
    assert Value2(d, 0) == Value2(Digits2(hi), 0);
    assert Value2(d, 2) == Value2(Digits2(lo), 0);
  }

  /** Two digits at `i` are the digits of their value. */
  lemma Digits2OfValue(s: string, i: nat)
    requires i + 2 <= |s| && IsDigit(s[i]) && IsDigit(s[i + 1])
    ensures Digits2(Value2(s, i)) == s[i..i + 2]
  {
    var a, b := DigitValue(s[i]), DigitValue(s[i + 1]);
    TensSplit(a, b);
    assert Digits2(Value2(s, i)) == [DigitChar(a), DigitChar(b)];
    DigitCharValue(s[i]);
    DigitCharValue(s[i + 1]);
    assert s[i..i + 2] == [s[i], s[i + 1]];
  }

  /** Four digits at `i` are the digits of their value. */
  lemma Digits4OfValue(s: string, i: nat)
    requires i + 4 <= |s| && IsDigit(s[i]) && IsDigit(s[i + 1]) && IsDigit(s[i + 2]) && IsDigit(s[i + 3])
    ensures Digits4(Value2(s, i) * 100 + Value2(s, i + 2)) == s[i..i + 4]
  {
    var a, b := Value2(s, i), Value2(s, i + 2);
    HundredsSplit(a, b);
    assert Digits4(a * 100 + b) == Digits2(a) + Digits2(b);
    Digits2OfValue(s, i);
    Digits2OfValue(s, i + 2);
    assert s[i..i + 4] == s[i..i + 2] + s[i + 2..i + 4];
  }

  /** Where each field sits in the formatted timestamp. */
  lemma FormatLayout(t: DateTime)
    ensures var s := FormatIso(t);
      var y, mo, d := Digits4(t.date.year), Digits2(t.date.month), Digits2(t.date.day);
      var h, mi, se := Digits2(t.hour), Digits2(t.minute), Digits2(t.second);
      && s[0] == y[0] && s[1] == y[1] && s[2] == y[2] && s[3] == y[3] && s[4] == '-'
      && s[5] == mo[0] && s[6] == mo[1] && s[7] == '-' && s[8] == d[0] && s[9] == d[1] && s[10] == 'T'
      && s[11] == h[0] && s[12] == h[1] && s[13] == ':' && s[14] == mi[0] && s[15] == mi[1] && s[16] == ':'
      && s[17] == se[0] && s[18] == se[1] && s[19] == 'Z'
  {
  }

  /** Two characters at `i` that are the digits of `n` read back as `n`. */
  lemma FieldValue(s: string, i: nat, n: int)
    requires 0 <= n < 100 && i + 2 <= |s| && s[i] == Digits2(n)[0] && s[i + 1] == Digits2(n)[1]
    ensures IsDigit(s[i]) && IsDigit(s[i + 1]) && Value2(s, i) == n
  {
    Digits2Value(n);
  }

  /** Four characters at the start that are the digits of `n` read back as `n`. */
  lemma YearValue(s: string, n: int)
    requires 0 <= n < 10000 && 4 <= |s| && forall k | 0 <= k < 4 :: s[k] == Digits4(n)[k]
    ensures forall k | 0 <= k < 4 :: IsDigit(s[k])
    ensures Value2(s, 0) * 100 + Value2(s, 2) == n
  {
    Digits4Value(n);
    var d := Digits4(n);
    assert Value2(s, 0) == Value2(d, 0) && Value2(s, 2) == Value2(d, 2);
  }

  /** A valid timestamp formats to a string that parses back to it. */
  lemma FormatThenParse(t: DateTime)
    requires ValidDateTime(t)
    ensures ParseIso(FormatIso(t)) == Some(t)
  {
    var s := FormatIso(t);
    FormatLayout(t);
    YearValue(s, t.date.year);
    FieldValue(s, 5, t.date.month);
    FieldValue(s, 8, t.date.day);
    FieldValue(s, 11, t.hour);
    FieldValue(s, 14, t.minute);
    FieldValue(s, 17, t.second);
    assert IsoShape(s);
  }

  /** A string that parses is the formatting of what it parses to. */
  lemma ParseThenFormat(s: string)
    requires ParseIso(s).Some?
    ensures FormatIso(ParseIso(s).value) == s
  {
    var t := ParseIso(s).value;
    Digits4OfValue(s, 0);
    Digits2OfValue(s, 5);
    Digits2OfValue(s, 8);
    Digits2OfValue(s, 11);
    Digits2OfValue(s, 14);
    Digits2OfValue(s, 17);
    assert s == s[0..4] + "-" + s[5..7] + "-" + s[8..10] + "T" + s[11..13] + ":" + s[14..16] + ":" + s[17..19] + "Z";
  }

  /** Parsing accepts exactly the formatted valid timestamps, and gives back the timestamp. */
  lemma ParseIsoFormat(s: string, t: DateTime)
    ensures ParseIso(s) == Some(t) <==> ValidDateTime(t) && s == FormatIso(t)
  {
    if ValidDateTime(t) && s == FormatIso(t) {
      FormatThenParse(t);
    }
    if ParseIso(s) == Some(t) {
      ParseThenFormat(s);
    }
  }

  /** A formatted valid timestamp parses back to its date. */
  lemma FormattedParses(t: Option<DateTime>)
    ensures t.Some? && ValidDateTime(t.value) ==> ParseIsoDate(FormatOptional(t)) == Some(t.value.date)
  {
    if t.Some? && ValidDateTime(t.value) {
      ParseIsoFormat(FormatIso(t.value), t.value);
    }
  }

  /** One result of the arXiv API (`arxiv.Result`); a missing title or summary makes conversion fail. */
  datatype Entry = Entry(
    entryId: string, title: Option<string>, authors: seq<string>, summary: Option<string>,
    published: Option<DateTime>, updated: Option<DateTime>, categories: seq<string>,
    pdfUrl: Option<string>, comment: Option<string>)

  /** `PaperEntry`; the three enrichment fields are optional. */
  datatype PaperEntry = PaperEntry(
    arxivId: string, title: string, authors: seq<string>, summary: string,
    published: string, updated: string, categories: seq<string>, link: string,
    pdfLink: string, comment: string,
    tags: Option<seq<string>>, description: Option<string>, translation: Option<string>)

  /** `entry_id.split("/")[-1]`: the text after the last `/`, or the whole id when it has none. */
  function ArxivIdOf(entryId: string): (id: string)
    ensures '/' !in id
    ensures |id| <= |entryId| && entryId[|entryId| - |id|..] == id
    ensures '/' !in entryId ==> id == entryId
    ensures '/' in entryId ==> |id| < |entryId| && entryId[|entryId| - |id| - 1] == '/'
  {
    LastPartIsSuffix(entryId, '/');
    LastPartAfterSeparator(entryId, '/');
    var parts := Split(entryId, '/');
    SplitPartsFree(entryId, '/', |parts| - 1);
    parts[|parts| - 1]
  }

  function FormatOptional(t: Option<DateTime>): string {
    match t
    case Some(v) => FormatIso(v)
    case None => ""
  }

  function OrEmpty(s: Option<string>): string {
    match s
    case Some(v) => v
    case None => ""
  }

  /** `_entry_to_paper`; `None` stands for the exception a missing title or summary raises. */
  function EntryToPaper(e: Entry): Option<PaperEntry> {
    if e.title.Some? && e.summary.Some? then Some(Convert(e)) else None
  }

  /** The paper built from an entry with a title and a summary. */
  function Convert(e: Entry): PaperEntry
    requires e.title.Some? && e.summary.Some?
  {
    PaperEntry(ArxivIdOf(e.entryId), Strip(e.title.value), e.authors, Strip(e.summary.value),
      FormatOptional(e.published), FormatOptional(e.updated), e.categories, e.entryId,
      OrEmpty(e.pdfUrl), OrEmpty(e.comment), Some([]), Some(""), Some(""))
  }

  /**
   * Conversion fails exactly without a title or summary; otherwise the id is the text after the
   * last `/`, title and summary are stripped, a missing time, link or comment is `""`, a present
   * publication time reads back as its date, and the enrichment defaults are `[]`, `""`, `""`.
   */
  lemma EntryToPaperFacts(e: Entry)
    ensures EntryToPaper(e).Some? <==> e.title.Some? && e.summary.Some?
    ensures EntryToPaper(e).Some? ==> var p := EntryToPaper(e).value;
      && p.arxivId == ArxivIdOf(e.entryId) && p.link == e.entryId
      && p.title == Strip(e.title.value) && p.summary == Strip(e.summary.value)
      && (p.published == "" <==> e.published.None?)
      && (p.updated == "" <==> e.updated.None?)
      && (e.published.Some? && ValidDateTime(e.published.value) ==> ParseIsoDate(p.published) == Some(e.published.value.date))
      && p.authors == e.authors && p.categories == e.categories
      && p.pdfLink == OrEmpty(e.pdfUrl) && p.comment == OrEmpty(e.comment)
      && p.tags == Some([]) && p.description == Some("") && p.translation == Some("")
  {
    FormattedParses(e.published);
  }

  /** `[y for x in xs if (y := f(x)) is not None]`: the successful results of `f`, in order. */
  function FilterMap<A, B>(xs: seq<A>, f: A -> Option<B>): (ys: seq<B>)
    ensures |ys| <= |xs|
  {
    if xs == [] then []
    else
      var prev := FilterMap(xs[..|xs| - 1], f);
      match f(xs[|xs| - 1])
      case Some(y) => prev + [y]
      case None => prev
  }

  /** One more input of a prefix adds its result, if any, at the end. */
  lemma FilterMapPrefix<A, B>(xs: seq<A>, i: nat, f: A -> Option<B>)
    requires i < |xs|
    ensures FilterMap(xs[..i + 1], f) == FilterMap(xs[..i], f) + (if f(xs[i]).Some? then [f(xs[i]).value] else [])
  {
    assert xs[..i + 1][..i] == xs[..i];
  }

  /** The input that the `i`-th result comes from. */
  lemma {:induction false} FilterMapSource<A, B>(xs: seq<A>, f: A -> Option<B>, i: nat) returns (j: nat)
    requires i < |FilterMap(xs, f)|
    ensures j < |xs| && f(xs[j]) == Some(FilterMap(xs, f)[i])
  {
    var init := xs[..|xs| - 1];
    var prev := FilterMap(init, f);
    if i < |prev| {
      j := FilterMapSource(init, f, i);
      assert init[j] == xs[j];
    } else {
      j := |xs| - 1;
    }
  }

  /** When `f` never fails, the results are `f` of each input in order. */
  lemma {:induction false} FilterMapAll<A, B>(xs: seq<A>, f: A -> Option<B>)
    requires forall j | 0 <= j < |xs| :: f(xs[j]).Some?
    ensures |FilterMap(xs, f)| == |xs|
    ensures forall j | 0 <= j < |xs| :: Some(FilterMap(xs, f)[j]) == f(xs[j])
  {
    if xs != [] {
      var init := xs[..|xs| - 1];
      assert forall j | 0 <= j < |init| :: init[j] == xs[j];
      FilterMapAll(init, f);
    }
  }

  /** The converted entries in API order, the ones that fail conversion skipped. */
  function Converted(es: seq<Entry>): seq<PaperEntry> {
    FilterMap(es, EntryToPaper)
  }

  /**
   * `search` keeps every entry that converts, in order: each returned paper converts some entry,
   * and when every entry converts the result is their conversions in API order.
   */
  lemma ConvertedFacts(es: seq<Entry>)
    ensures forall i | 0 <= i < |Converted(es)| :: exists j | 0 <= j < |es| :: EntryToPaper(es[j]) == Some(Converted(es)[i])
    ensures (forall j | 0 <= j < |es| :: EntryToPaper(es[j]).Some?) ==>
      |Converted(es)| == |es| && forall j | 0 <= j < |es| :: Some(Converted(es)[j]) == EntryToPaper(es[j])
  {
    var cs := Converted(es);
    forall i | 0 <= i < |cs| ensures exists j | 0 <= j < |es| :: EntryToPaper(es[j]) == Some(cs[i]) {
      var j := FilterMapSource(es, EntryToPaper, i);
      assert EntryToPaper(es[j]) == Some(cs[i]);
    }
    if forall j | 0 <= j < |es| :: EntryToPaper(es[j]).Some? {
      FilterMapAll(es, EntryToPaper);
    }
  }

  /** What the enrichment step writes into a new paper. */
  datatype Enrichment = Enrichment(tags: Option<seq<string>>, description: Option<string>, translation: Option<string>)

  /** The arXiv ids of a list of papers, in order. */
  function Ids(ps: seq<PaperEntry>): seq<string> {
    seq(|ps|, i requires 0 <= i < |ps| => ps[i].arxivId)
  }

  /**
   * What `asyncio.to_thread(f, ...)` hands back: the list `f` returns, or anything else. For an
   * `async def f` such as `search` or `fetch_today_new` it is the coroutine object `f` creates,
   * which nobody awaits, so the search never runs.
   */
  datatype ThreadResult = PaperList(papers: seq<PaperEntry>) | NotAList

  /** `asyncio.to_thread(self.arxiv_client.search, ...)`, the call as the bots write it. */
  function SearchInThreadAsWritten(query: string, maxResults: int): ThreadResult {
    NotAList
  }

  /**
   * The result of building and running the search. `SearchFailed`: building it raises, which
   * `search` catches and answers `[]`. `FetchRaised`: the lazy result iterator raises while
   * `search` walks it, before anything is enriched or saved, and the exception leaves `search`.
   * `Results`: the entries the iterator yields.
   */
  datatype ApiResult = SearchFailed | FetchRaised | Results(entries: seq<Entry>)

  /** All fields but the three enrichment ones agree. */
  predicate SameCore(a: PaperEntry, b: PaperEntry) {
    a.(tags := None, description := None, translation := None) == b.(tags := None, description := None, translation := None)
  }

  /** A paper already stored takes the stored `tags`, `description` and `translation`. */
  function Known(stored: map<string, PaperRow>, p: PaperEntry): PaperEntry {
    if p.arxivId in stored then
      p.(tags := Some(stored[p.arxivId].tags), description := Some(stored[p.arxivId].description),
         translation := Some(stored[p.arxivId].translation))
    else p
  }

  function Classified(stored: map<string, PaperRow>, ps: seq<PaperEntry>): seq<PaperEntry> {
    seq(|ps|, i requires 0 <= i < |ps| => Known(stored, ps[i]))
  }

  lemma ClassifiedSnoc(stored: map<string, PaperRow>, ps: seq<PaperEntry>, p: PaperEntry)
    ensures Classified(stored, ps + [p]) == Classified(stored, ps) + [Known(stored, p)]
  {
  }

  /** `isNew[j]` says whether `papers[j]` is not stored. */
  predicate NewFlags(stored: map<string, PaperRow>, papers: seq<PaperEntry>, isNew: seq<bool>) {
    |isNew| == |papers| && forall j | 0 <= j < |papers| :: isNew[j] == (papers[j].arxivId !in stored)
  }

  lemma NewFlagsSnoc(stored: map<string, PaperRow>, papers: seq<PaperEntry>, isNew: seq<bool>, p: PaperEntry, b: bool)
    requires NewFlags(stored, papers, isNew) && b == (p.arxivId !in stored)
    ensures NewFlags(stored, papers + [p], isNew + [b])
  {
  }

  /** One more entry: a converted one is appended after the earlier ones, any other is skipped. */
  lemma ClassifiedStep(stored: map<string, PaperRow>, es: seq<Entry>, i: nat)
    requires i < |es|
    ensures var c := EntryToPaper(es[i]);
      Classified(stored, Converted(es[..i + 1])) ==
        Classified(stored, Converted(es[..i])) + (if c.Some? then [Known(stored, c.value)] else [])
  {
    FilterMapPrefix(es, i, EntryToPaper);
    var c := EntryToPaper(es[i]);
    if c.Some? {
      ClassifiedSnoc(stored, Converted(es[..i]), c.value);
    }
  }

  function Apply(p: PaperEntry, e: Enrichment): PaperEntry {
    p.(tags := e.tags, description := e.description, translation := e.translation)
  }

  /** The new papers (ids not stored before the search) with the enrichment applied. */
  function Enriched(stored: map<string, PaperRow>, ps: seq<PaperEntry>, enrich: PaperEntry -> Enrichment): seq<PaperEntry> {
    seq(|ps|, i requires 0 <= i < |ps| => if ps[i].arxivId !in stored then Apply(ps[i], enrich(ps[i])) else ps[i])
  }

  predicate HasNew(stored: map<string, PaperRow>, ps: seq<PaperEntry>) {
    exists i | 0 <= i < |ps| :: ps[i].arxivId !in stored
  }

  /** The `dict` that `_save_to_db` passes to `insert_paper`: enrichment `None`s become `[]` and `""`. */
  function RowOf(p: PaperEntry): PaperRow {
    PaperRow(p.arxivId, p.title, p.authors, p.summary, p.published, p.updated, p.categories, p.link,
      p.pdfLink, p.comment,
      match p.tags case Some(t) => t case None => [],
      OrEmpty(p.description), OrEmpty(p.translation), [])
  }

  /** The keys of that `dict`. */
  const SavedPaperKeys: set<string> :=
    {"arxiv_id", "title", "authors", "summary", "published", "updated", "category", "link",
     "pdf_link", "comment", "tags", "description", "translation"}

  /** `_save_to_db` on the tables: nothing for a stored id, otherwise the row inserted. */
  function Save(papers: map<string, PaperRow>, p: PaperEntry): map<string, PaperRow> {
    if p.arxivId in papers then papers else papers[p.arxivId := RowOf(p)]
  }

  /** The columns the model declares accept the saved keys, which include the two required ones. */
  lemma SavedKeysAccepted()
    ensures Accepts(PaperColumns, SavedPaperKeys) && "arxiv_id" in SavedPaperKeys && "title" in SavedPaperKeys
  {
  }

  /** Saving, in order, the papers whose ids were not stored before the search. */
  function SaveNew(stored: map<string, PaperRow>, m: map<string, PaperRow>, ps: seq<PaperEntry>): map<string, PaperRow> {
    if ps == [] then m
    else
      var prev := SaveNew(stored, m, ps[..|ps| - 1]);
      var p := ps[|ps| - 1];
      if p.arxivId !in stored then Save(prev, p) else prev
  }

  /** `max_results or self.max_results`: `None` and `0` take the default. */
  function EffectiveMax(requested: Option<int>, default: int): int {
    if requested.None? || requested.value == 0 then default else requested.value
  }

  /** The whole of `search` over a store: the returned papers and the store afterwards. */
  function SearchSpec(stored: map<string, PaperRow>, res: ApiResult, hasLlm: bool,
                      enrich: PaperEntry -> Enrichment, enrichFails: bool): (seq<PaperEntry>, map<string, PaperRow>)
  {
    match res
    case SearchFailed => ([], stored)
    case FetchRaised => ([], stored)
    case Results(es) =>
      var ps := Classified(stored, Converted(es));
      var out := if hasLlm && HasNew(stored, ps) && !enrichFails then Enriched(stored, ps, enrich) else ps;
      (out, SaveNew(stored, stored, out))
  }

  /** Saving never changes or removes a row already present. */
  lemma {:induction false} SaveNewKeeps(stored: map<string, PaperRow>, m: map<string, PaperRow>, ps: seq<PaperEntry>)
    ensures forall id | id in m :: id in SaveNew(stored, m, ps) && SaveNew(stored, m, ps)[id] == m[id]
  {
    if ps != [] {
      SaveNewKeeps(stored, m, ps[..|ps| - 1]);
    }
  }

  /** Saving adds rows only for ids of papers that were not stored. */
  lemma {:induction false} SaveNewAddsOnlyNew(stored: map<string, PaperRow>, m: map<string, PaperRow>, ps: seq<PaperEntry>)
    ensures forall id | id in SaveNew(stored, m, ps) :: id in m || exists i | 0 <= i < |ps| :: ps[i].arxivId == id && id !in stored
  {
    if ps != [] {
      var init := ps[..|ps| - 1];
      SaveNewAddsOnlyNew(stored, m, init);
      forall id | id in SaveNew(stored, m, ps) && id !in m
        ensures exists i | 0 <= i < |ps| :: ps[i].arxivId == id && id !in stored
      {
        if id in SaveNew(stored, m, init) {
          var i :| 0 <= i < |init| && init[i].arxivId == id && id !in stored;
          assert ps[i] == init[i];
        } else {
          assert ps[|ps| - 1].arxivId == id;
        }
      }
    }
  }

  /** After saving, every paper that was not stored is. */
  lemma {:induction false} SaveNewStoresAll(stored: map<string, PaperRow>, m: map<string, PaperRow>, ps: seq<PaperEntry>)
    ensures forall i | 0 <= i < |ps| && ps[i].arxivId !in stored :: ps[i].arxivId in SaveNew(stored, m, ps)
  {
    if ps != [] {
      var init := ps[..|ps| - 1];
      SaveNewStoresAll(stored, m, init);
      assert forall i | 0 <= i < |init| :: init[i] == ps[i];
    }
  }

  /**
   * A search leaves every stored row as it was, adds rows only for ids absent before, and
   * afterwards every converted id is stored.
   */
  lemma SearchStoreFacts(stored: map<string, PaperRow>, es: seq<Entry>, hasLlm: bool,
                         enrich: PaperEntry -> Enrichment, enrichFails: bool)
    ensures var after := SearchSpec(stored, Results(es), hasLlm, enrich, enrichFails).1;
      && (forall id | id in stored :: id in after && after[id] == stored[id])
      && (forall id | id in after && id !in stored :: exists i | 0 <= i < |Converted(es)| :: Converted(es)[i].arxivId == id)
      && (forall i | 0 <= i < |Converted(es)| :: Converted(es)[i].arxivId in after)
  {
    var ps := Classified(stored, Converted(es));
    var out := if hasLlm && HasNew(stored, ps) && !enrichFails then Enriched(stored, ps, enrich) else ps;
    SaveNewKeeps(stored, stored, out);
    SaveNewAddsOnlyNew(stored, stored, out);
    SaveNewStoresAll(stored, stored, out);
    assert forall i | 0 <= i < |out| :: out[i].arxivId == Converted(es)[i].arxivId;
  }

  /**
   * The returned list is every converted entry in API order; a stored paper carries its stored
   * enrichment; a new paper carries the enrichment when it ran and succeeded, and the conversion
   * defaults otherwise.
   */
  lemma SearchResultFacts(stored: map<string, PaperRow>, es: seq<Entry>, hasLlm: bool,
                          enrich: PaperEntry -> Enrichment, enrichFails: bool)
    ensures var out := SearchSpec(stored, Results(es), hasLlm, enrich, enrichFails).0;
      var cs := Converted(es);
      && |out| == |cs|
      && (forall i | 0 <= i < |cs| :: SameCore(out[i], cs[i]))
      && (forall i | 0 <= i < |cs| && cs[i].arxivId in stored ::
            out[i].tags == Some(stored[cs[i].arxivId].tags)
            && out[i].description == Some(stored[cs[i].arxivId].description)
            && out[i].translation == Some(stored[cs[i].arxivId].translation))
      && (forall i | 0 <= i < |cs| && cs[i].arxivId !in stored ::
            out[i] == if hasLlm && !enrichFails then Apply(cs[i], enrich(cs[i])) else cs[i])
  {
    var cs := Converted(es);
    var ps := Classified(stored, cs);
    forall i | 0 <= i < |cs| && cs[i].arxivId !in stored ensures HasNew(stored, ps) {
      assert ps[i].arxivId !in stored;
    }
  }

  /** A failed or raising search returns nothing and leaves the store alone. */
  lemma SearchFailedFacts(stored: map<string, PaperRow>, hasLlm: bool, enrich: PaperEntry -> Enrichment, enrichFails: bool)
    ensures SearchSpec(stored, SearchFailed, hasLlm, enrich, enrichFails) == ([], stored)
    ensures SearchSpec(stored, FetchRaised, hasLlm, enrich, enrichFails) == ([], stored)
  {
  }

  /** Repeating a search over the store it produced finds no new paper: nothing is enriched or saved again. */
  lemma SearchTwiceSavesNothing(stored: map<string, PaperRow>, es: seq<Entry>, hasLlm: bool,
                                enrich: PaperEntry -> Enrichment, enrichFails: bool)
    ensures var after := SearchSpec(stored, Results(es), hasLlm, enrich, enrichFails).1;
      var again := SearchSpec(after, Results(es), hasLlm, enrich, enrichFails);
      && again.1 == after
      && again.0 == Classified(after, Converted(es))
  {
    var after := SearchSpec(stored, Results(es), hasLlm, enrich, enrichFails).1;
    SearchStoreFacts(stored, es, hasLlm, enrich, enrichFails);
    var ps := Classified(after, Converted(es));
    assert !HasNew(after, ps);
    SaveNewNoNew(after, ps);
  }

  lemma {:induction false} SaveNewNoNew(stored: map<string, PaperRow>, ps: seq<PaperEntry>)
    requires forall i | 0 <= i < |ps| :: ps[i].arxivId in stored
    ensures SaveNew(stored, stored, ps) == stored
  {
    if ps != [] {
      SaveNewNoNew(stored, ps[..|ps| - 1]);
    }
  }

  /**
   * As written, the table does not declare `pdf_link`, `comment` or `translation`, so the insert
   * that `_save_to_db` issues is refused for every paper and nothing is stored.
   */
  lemma SaveRefusedAsDeclared(papers: map<string, PaperRow>, p: PaperEntry)
    ensures PaperInsert(papers, RowOf(p), SavedPaperKeys, PaperColumnsAsDeclared) == (false, papers)
  {
    assert "pdf_link" in SavedPaperKeys && "pdf_link" !in PaperColumnsAsDeclared;
  }

  /**
   * With those three columns declared, the insert of a new paper succeeds, and the stored row
   * holds `[]` and `""` where the paper's enrichment is `None`.
   */
  lemma SaveStoresNewPaper(papers: map<string, PaperRow>, p: PaperEntry)
    requires p.arxivId !in papers
    ensures PaperInsert(papers, RowOf(p), SavedPaperKeys, PaperColumns) == (true, Save(papers, p))
    ensures var row := Save(papers, p)[p.arxivId];
      && row.tags == (if p.tags.Some? then p.tags.value else [])
      && row.description == (if p.description.Some? then p.description.value else "")
      && row.translation == (if p.translation.Some? then p.translation.value else "")
      && row.userNotify == []
  {
    SavedKeysAccepted();
  }

  /**
   * `search` for each query in order, each over the store the previous one left, with the cap
   * `capOf` gives the query, up to the first search that raises: the papers found, concatenated,
   * the store afterwards, and whether a search raised (the queries after it are not searched).
   */
  function SearchesInOrder(stored: map<string, PaperRow>, qs: seq<SearchQuery>, capOf: SearchQuery -> int,
                           api: (string, int) -> ApiResult, defaultMax: int, hasLlm: bool,
                           enrich: PaperEntry -> Enrichment, enrichFails: bool):
    (seq<PaperEntry>, map<string, PaperRow>, bool)
    decreases |qs|
  {
    if qs == [] then ([], stored, false)
    else
      var n := |qs| - 1;
      var r := SearchesInOrder(stored, qs[..n], capOf, api, defaultMax, hasLlm, enrich, enrichFails);
      if r.2 then r
      else
        var res := api(qs[n].query, EffectiveMax(Some(capOf(qs[n])), defaultMax));
        var s := SearchSpec(r.1, res, hasLlm, enrich, enrichFails);
        (r.0 + s.0, s.1, res.FetchRaised?)
  }

  /** The searches of the first `q + 1` queries are those of the first `q`, then query `q`'s unless one raised. */
  lemma SearchesSnoc(stored: map<string, PaperRow>, qs: seq<SearchQuery>, q: nat, capOf: SearchQuery -> int,
                     api: (string, int) -> ApiResult, defaultMax: int, hasLlm: bool,
                     enrich: PaperEntry -> Enrichment, enrichFails: bool)
    requires q < |qs|
    ensures var r := SearchesInOrder(stored, qs[..q], capOf, api, defaultMax, hasLlm, enrich, enrichFails);
      var res := api(qs[q].query, EffectiveMax(Some(capOf(qs[q])), defaultMax));
      var s := SearchSpec(r.1, res, hasLlm, enrich, enrichFails);
      SearchesInOrder(stored, qs[..q + 1], capOf, api, defaultMax, hasLlm, enrich, enrichFails) ==
        if r.2 then r else (r.0 + s.0, s.1, res.FetchRaised?)
  {
    assert qs[..q + 1][..q] == qs[..q];
  }

  /** Once a search has raised, the later queries change nothing. */
  lemma {:induction false} SearchesStopAtRaise(stored: map<string, PaperRow>, qs: seq<SearchQuery>, q: nat,
                                              capOf: SearchQuery -> int, api: (string, int) -> ApiResult,
                                              defaultMax: int, hasLlm: bool, enrich: PaperEntry -> Enrichment,
                                              enrichFails: bool)
    requires q <= |qs| && SearchesInOrder(stored, qs[..q], capOf, api, defaultMax, hasLlm, enrich, enrichFails).2
    ensures SearchesInOrder(stored, qs, capOf, api, defaultMax, hasLlm, enrich, enrichFails) ==
      SearchesInOrder(stored, qs[..q], capOf, api, defaultMax, hasLlm, enrich, enrichFails)
    decreases |qs| - q
  {
    if q < |qs| {
      SearchesSnoc(stored, qs, q, capOf, api, defaultMax, hasLlm, enrich, enrichFails);
      SearchesStopAtRaise(stored, qs, q + 1, capOf, api, defaultMax, hasLlm, enrich, enrichFails);
    } else {
      assert qs[..q] == qs;
    }
  }

  /** Every row of `a` is in `b`, unchanged. */
  predicate KeepsRows(a: map<string, PaperRow>, b: map<string, PaperRow>) {
    forall id | id in a :: id in b && b[id] == a[id]
  }

  /** Every paper of `ps` has a row in `m`. */
  predicate AllStored(ps: seq<PaperEntry>, m: map<string, PaperRow>) {
    forall i | 0 <= i < |ps| :: ps[i].arxivId in m
  }

  lemma KeepsStored(ps: seq<PaperEntry>, qs: seq<PaperEntry>, a: map<string, PaperRow>, b: map<string, PaperRow>)
    requires AllStored(ps, a) && KeepsRows(a, b) && AllStored(qs, b)
    ensures AllStored(ps + qs, b)
  {
    forall i | 0 <= i < |ps + qs| ensures (ps + qs)[i].arxivId in b {
      if i < |ps| {
        assert (ps + qs)[i] == ps[i] && ps[i].arxivId in a;
      } else {
        assert (ps + qs)[i] == qs[i - |ps|];
      }
    }
  }

  /** After the searches every paper found is stored, and every row stored before is kept. */
  lemma {:induction false} SearchesStore(stored: map<string, PaperRow>, qs: seq<SearchQuery>, capOf: SearchQuery -> int,
                                         api: (string, int) -> ApiResult, defaultMax: int, hasLlm: bool,
                                         enrich: PaperEntry -> Enrichment, enrichFails: bool)
    ensures var r := SearchesInOrder(stored, qs, capOf, api, defaultMax, hasLlm, enrich, enrichFails);
      KeepsRows(stored, r.1) && AllStored(r.0, r.1)
    decreases |qs|
  {
    if qs != [] {
      var n := |qs| - 1;
      SearchesStore(stored, qs[..n], capOf, api, defaultMax, hasLlm, enrich, enrichFails);
      var r := SearchesInOrder(stored, qs[..n], capOf, api, defaultMax, hasLlm, enrich, enrichFails);
      if !r.2 {
        var res := api(qs[n].query, EffectiveMax(Some(capOf(qs[n])), defaultMax));
        SearchStepStores(r.1, res, hasLlm, enrich, enrichFails);
        var s := SearchSpec(r.1, res, hasLlm, enrich, enrichFails);
        KeepsStored(r.0, s.0, r.1, s.1);
      }
    }
  }

  /** One search keeps every stored row and leaves every paper it returns stored. */
  lemma SearchStepStores(stored: map<string, PaperRow>, res: ApiResult, hasLlm: bool,
                         enrich: PaperEntry -> Enrichment, enrichFails: bool)
    ensures var s := SearchSpec(stored, res, hasLlm, enrich, enrichFails);
      KeepsRows(stored, s.1) && AllStored(s.0, s.1)
  {
    if res.Results? {
      SearchStoreFacts(stored, res.entries, hasLlm, enrich, enrichFails);
      SearchResultFacts(stored, res.entries, hasLlm, enrich, enrichFails);
      var s := SearchSpec(stored, res, hasLlm, enrich, enrichFails);
      forall i | 0 <= i < |s.0| ensures s.0[i].arxivId in s.1 {
        assert SameCore(s.0[i], Converted(res.entries)[i]);
      }
    }
  }

  /** The requests a saved-query list makes: each text, with `max_results or self.max_results` for its cap. */
  function QueryRequests(qs: seq<SearchQuery>, capOf: SearchQuery -> int, defaultMax: int): seq<(string, int)> {
    seq(|qs|, j requires 0 <= j < |qs| => (qs[j].query, EffectiveMax(Some(capOf(qs[j])), defaultMax)))
  }

  /** The requests `fetch_today_new` makes: `fetch_recent(cat)` for each category, with the default cap. */
  function CategoryRequests(cats: seq<string>, defaultMax: int): seq<(string, int)> {
    seq(|cats|, c requires 0 <= c < |cats| => ("cat:" + cats[c], EffectiveMax(None, defaultMax)))
  }

  /**
   * `search` for each request (query text, page size) in order, each over the store the previous
   * one left, where the caller catches a search that raises and takes `[]`: each request's papers,
   * and the store afterwards.
   */
  function SearchesEach(stored: map<string, PaperRow>, reqs: seq<(string, int)>, api: (string, int) -> ApiResult,
                        hasLlm: bool, enrich: PaperEntry -> Enrichment, enrichFails: bool):
    (seq<seq<PaperEntry>>, map<string, PaperRow>)
    decreases |reqs|
  {
    if reqs == [] then ([], stored)
    else
      var n := |reqs| - 1;
      var r := SearchesEach(stored, reqs[..n], api, hasLlm, enrich, enrichFails);
      var s := SearchSpec(r.1, api(reqs[n].0, reqs[n].1), hasLlm, enrich, enrichFails);
      (r.0 + [s.0], s.1)
  }

  lemma SearchesEachSnoc(stored: map<string, PaperRow>, reqs: seq<(string, int)>, q: nat, api: (string, int) -> ApiResult,
                         hasLlm: bool, enrich: PaperEntry -> Enrichment, enrichFails: bool)
    requires q < |reqs|
    ensures var r := SearchesEach(stored, reqs[..q], api, hasLlm, enrich, enrichFails);
      var s := SearchSpec(r.1, api(reqs[q].0, reqs[q].1), hasLlm, enrich, enrichFails);
      SearchesEach(stored, reqs[..q + 1], api, hasLlm, enrich, enrichFails) == (r.0 + [s.0], s.1)
  {
    assert reqs[..q + 1][..q] == reqs[..q];
  }

  /**
   * One list of papers per request; the searches keep every stored row, and every paper any of
   * them returns is stored afterwards.
   */
  lemma {:induction false} SearchesEachStore(stored: map<string, PaperRow>, reqs: seq<(string, int)>,
                                             api: (string, int) -> ApiResult, hasLlm: bool,
                                             enrich: PaperEntry -> Enrichment, enrichFails: bool)
    ensures var r := SearchesEach(stored, reqs, api, hasLlm, enrich, enrichFails);
      && |r.0| == |reqs| && KeepsRows(stored, r.1)
      && forall c | 0 <= c < |r.0| :: AllStored(r.0[c], r.1)
    decreases |reqs|
  {
    if reqs != [] {
      var n := |reqs| - 1;
      SearchesEachStore(stored, reqs[..n], api, hasLlm, enrich, enrichFails);
      var r := SearchesEach(stored, reqs[..n], api, hasLlm, enrich, enrichFails);
      var res := api(reqs[n].0, reqs[n].1);
      SearchStepStores(r.1, res, hasLlm, enrich, enrichFails);
      var s := SearchSpec(r.1, res, hasLlm, enrich, enrichFails);
      var all := r.0 + [s.0];
      forall c | 0 <= c < |all| ensures AllStored(all[c], s.1) {
        if c < n {
          assert all[c] == r.0[c] && AllStored(r.0[c], r.1);
        }
      }
    }
  }

  /** The lists concatenated in order. */
  function Flatten(fs: seq<seq<PaperEntry>>): seq<PaperEntry> {
    if fs == [] then [] else Flatten(fs[..|fs| - 1]) + fs[|fs| - 1]
  }

  lemma FlattenSnoc(fs: seq<seq<PaperEntry>>, f: seq<PaperEntry>)
    ensures Flatten(fs + [f]) == Flatten(fs) + f
  {
    assert (fs + [f])[..|fs|] == fs;
  }

  /**
   * When no search raises, searching a query list up to the first raise and searching each query
   * with the raise caught agree: the same papers in the same order and the same store.
   */
  lemma {:induction false} SearchesAgree(stored: map<string, PaperRow>, qs: seq<SearchQuery>, capOf: SearchQuery -> int,
                                         api: (string, int) -> ApiResult, defaultMax: int, hasLlm: bool,
                                         enrich: PaperEntry -> Enrichment, enrichFails: bool)
    ensures var a := SearchesInOrder(stored, qs, capOf, api, defaultMax, hasLlm, enrich, enrichFails);
      var e := SearchesEach(stored, QueryRequests(qs, capOf, defaultMax), api, hasLlm, enrich, enrichFails);
      !a.2 ==> a.0 == Flatten(e.0) && a.1 == e.1
    decreases |qs|
  {
    if qs != [] {
      var n := |qs| - 1;
      var reqs := QueryRequests(qs, capOf, defaultMax);
      SearchesAgree(stored, qs[..n], capOf, api, defaultMax, hasLlm, enrich, enrichFails);
      assert QueryRequests(qs[..n], capOf, defaultMax) == reqs[..n];
      assert qs[..n + 1] == qs && reqs[..n + 1] == reqs;
      SearchesSnoc(stored, qs, n, capOf, api, defaultMax, hasLlm, enrich, enrichFails);
      SearchesEachSnoc(stored, reqs, n, api, hasLlm, enrich, enrichFails);
      var r := SearchesInOrder(stored, qs[..n], capOf, api, defaultMax, hasLlm, enrich, enrichFails);
      var e := SearchesEach(stored, reqs[..n], api, hasLlm, enrich, enrichFails);
      var res := api(qs[n].query, EffectiveMax(Some(capOf(qs[n])), defaultMax));
      assert reqs[n] == (qs[n].query, EffectiveMax(Some(capOf(qs[n])), defaultMax));
      if !r.2 {
        var s := SearchSpec(r.1, res, hasLlm, enrich, enrichFails);
        FlattenSnoc(e.0, s.0);
      }
    }
  }

  /** The published date of a paper is the given day (an empty or unparseable value is not). */
  predicate PublishedOn(p: PaperEntry, today: Date) {
    p.published != "" && ParseIsoDate(p.published) == Some(today)
  }

  /** The papers of one category list published on `today`, in order. */
  function TodayOf(ps: seq<PaperEntry>, today: Date): (r: seq<PaperEntry>)
    ensures |r| <= |ps|
  {
    if ps == [] then []
    else (if PublishedOn(ps[0], today) then [ps[0]] else []) + TodayOf(ps[1..], today)
  }

  /** A paper is kept iff it is in the list and published on `today`. */
  lemma {:induction false} TodayOfMembers(ps: seq<PaperEntry>, today: Date, p: PaperEntry)
    ensures p in TodayOf(ps, today) <==> p in ps && PublishedOn(p, today)
  {
    if ps != [] {
      TodayOfMembers(ps[1..], today, p);
      assert ps == [ps[0]] + ps[1..];
    }
  }

  /** `today_papers` after the categories whose search results are `fetched`. */
  function TodayAcross(fetched: seq<seq<PaperEntry>>, today: Date): seq<PaperEntry> {
    if fetched == [] then []
    else TodayAcross(fetched[..|fetched| - 1], today) + TodayOf(fetched[|fetched| - 1], today)
  }

  /** A paper is in the day's list iff some category's results hold it and it was published that day. */
  lemma {:induction false} TodayAcrossMembers(fetched: seq<seq<PaperEntry>>, today: Date, p: PaperEntry)
    ensures p in TodayAcross(fetched, today) <==> PublishedOn(p, today) && exists c | 0 <= c < |fetched| :: p in fetched[c]
  {
    if fetched != [] {
      var init := fetched[..|fetched| - 1];
      TodayAcrossMembers(init, today, p);
      assert forall c | 0 <= c < |init| :: init[c] == fetched[c];
      var last := fetched[|fetched| - 1];
      TodayOfMembers(last, today, p);
    }
  }

  /** `ArxivClient`: the configured default page size, the store and whether an LLM is attached. */
  class ArxivClient {
    const db: Database
    const maxResults: int
    const hasLlm: bool

    /** `config.get("arxiv", {}).get("max_results", 20)` */
    constructor (db: Database, configured: Option<int>, hasLlm: bool)
      ensures this.db == db && this.hasLlm == hasLlm
      ensures maxResults == if configured.Some? then configured.value else 20
    {
      this.db := db;
      this.hasLlm := hasLlm;
      maxResults := if configured.Some? then configured.value else 20;
    }

    /** `_save_to_db` */
    method SaveToDb(p: PaperEntry)
      modifies db
      ensures db.papers == Save(old(db.papers), p)
      ensures db.users == old(db.users) && db.sent == old(db.sent)
    {
      if db.PaperExists(p.arxivId) {
        return;
      }
      SavedKeysAccepted();
      var _ := db.InsertPaper(RowOf(p), SavedPaperKeys);
    }

    /** The body of the conversion loop for a converted paper: a stored one takes its stored enrichment. */
    method WithStored(p: PaperEntry) returns (paper: PaperEntry)
      ensures paper == Known(db.papers, p)
    {
      paper := p;
      if db.PaperExists(p.arxivId) {
        var row := db.GetPaperData(p.arxivId).value;
        paper := p.(tags := Some(row.tags), description := Some(row.description), translation := Some(row.translation));
      }
    }

    /**
     * The conversion loop of `search`: every entry that converts, in order, stored papers taking
     * their stored enrichment, and for each whether it is new (goes to `new_papers`).
     */
    method ClassifyEntries(es: seq<Entry>) returns (papers: seq<PaperEntry>, isNew: seq<bool>)
      ensures papers == Classified(db.papers, Converted(es))
      ensures |isNew| == |papers| && forall j | 0 <= j < |papers| :: isNew[j] == (papers[j].arxivId !in db.papers)
    {
      papers, isNew := [], [];
      for i := 0 to |es|
        invariant papers == Classified(db.papers, Converted(es[..i]))
        invariant NewFlags(db.papers, papers, isNew)
      {
        ClassifiedStep(db.papers, es, i);
        var conv := EntryToPaper(es[i]);
        if conv.Some? {
          var paper := WithStored(conv.value);
          var unseen := !db.PaperExists(paper.arxivId);
          NewFlagsSnoc(db.papers, papers, isNew, paper, unseen);
          isNew := isNew + [unseen];
          papers := papers + [paper];
        }
      }
      assert es[..|es|] == es;
    }

    /** The saving loop of `search`: `_save_to_db` for each paper flagged new, in order. */
    method SaveNewPapers(papers: seq<PaperEntry>, isNew: seq<bool>, ghost stored: map<string, PaperRow>)
      requires |isNew| == |papers| && forall j | 0 <= j < |papers| :: isNew[j] == (papers[j].arxivId !in stored)
      modifies db
      ensures db.papers == SaveNew(stored, old(db.papers), papers)
      ensures db.users == old(db.users) && db.sent == old(db.sent)
    {
      for j := 0 to |papers|
        invariant db.papers == SaveNew(stored, old(db.papers), papers[..j])
        invariant db.users == old(db.users) && db.sent == old(db.sent)
      {
        assert papers[..j + 1][..j] == papers[..j];
        if isNew[j] {
          SaveToDb(papers[j]);
        }
      }
      assert papers[..|papers|] == papers;
    }

    /**
     * `search`: `api` is the arXiv query for the text and page size; `enrich` is what the LLM's
     * batch step writes into each new paper and `enrichFails` says whether that step raises.
     * `raised` says the call ends with the exception the result iterator raised.
     */
    method Search(query: string, requested: Option<int>, api: (string, int) -> ApiResult,
                  enrich: PaperEntry -> Enrichment, enrichFails: bool) returns (papers: seq<PaperEntry>, raised: bool)
      modifies db
      ensures (papers, db.papers) == SearchSpec(old(db.papers), api(query, EffectiveMax(requested, maxResults)), hasLlm, enrich, enrichFails)
      ensures raised == api(query, EffectiveMax(requested, maxResults)).FetchRaised?
      ensures db.users == old(db.users) && db.sent == old(db.sent)
    {
      var res := api(query, EffectiveMax(requested, maxResults));
      raised := res.FetchRaised?;
      if !res.Results? {
        return [], raised;
      }
      var isNew;
      papers, isNew := ClassifyEntries(res.entries);
      if true in isNew {
        var j :| 0 <= j < |isNew| && isNew[j];
        assert papers[j].arxivId !in db.papers;
      }
      assert HasNew(db.papers, papers) <==> true in isNew;
      if hasLlm && true in isNew && !enrichFails {
        papers := Enriched(db.papers, papers, enrich);
      }
      SaveNewPapers(papers, isNew, db.papers);
    }

    /** `fetch_recent`: the search `"cat:" + category`, raising when that search does. */
    method FetchRecent(category: string, requested: Option<int>, api: (string, int) -> ApiResult,
                       enrich: PaperEntry -> Enrichment, enrichFails: bool) returns (papers: seq<PaperEntry>, raised: bool)
      modifies db
      ensures (papers, db.papers) ==
        SearchSpec(old(db.papers), api("cat:" + category, EffectiveMax(requested, maxResults)), hasLlm, enrich, enrichFails)
      ensures raised == api("cat:" + category, EffectiveMax(requested, maxResults)).FetchRaised?
      ensures db.users == old(db.users) && db.sent == old(db.sent)
    {
      papers, raised := Search("cat:" + category, requested, api, enrich, enrichFails);
    }

    /**
     * `fetch_today_new`: `None` categories fall back to the attribute the client never sets, so no
     * category. `fetched` is each category's search result, a search that raises being caught and
     * taken as `[]`, and the papers of those published on `today` are kept.
     */
    method FetchTodayNew(categories: Option<seq<string>>, today: Date, api: (string, int) -> ApiResult,
                         enrich: PaperEntry -> Enrichment, enrichFails: bool)
      returns (todayPapers: seq<PaperEntry>, ghost fetched: seq<seq<PaperEntry>>)
      modifies db
      ensures var cats := if categories.Some? then categories.value else [];
        (fetched, db.papers) == SearchesEach(old(db.papers), CategoryRequests(cats, maxResults), api, hasLlm, enrich, enrichFails)
      ensures todayPapers == TodayAcross(fetched, today)
      ensures categories.None? ==> todayPapers == [] && db.papers == old(db.papers)
      ensures db.users == old(db.users) && db.sent == old(db.sent)
    {
      var cats := if categories.Some? then categories.value else [];
      ghost var reqs, stored := CategoryRequests(cats, maxResults), db.papers;
      todayPapers, fetched := [], [];
      for c := 0 to |cats|
        invariant (fetched, db.papers) == SearchesEach(stored, reqs[..c], api, hasLlm, enrich, enrichFails)
        invariant todayPapers == TodayAcross(fetched, today)
        invariant db.users == old(db.users) && db.sent == old(db.sent)
      {
        SearchesEachSnoc(stored, reqs, c, api, hasLlm, enrich, enrichFails);
        assert reqs[c] == ("cat:" + cats[c], EffectiveMax(None, maxResults));
        var ps, raised := FetchRecent(cats[c], None, api, enrich, enrichFails);
        var kept := KeepToday(ps, today);
        todayPapers := todayPapers + kept;
        assert (fetched + [ps])[..|fetched|] == fetched;
        fetched := fetched + [ps];
      }
      assert reqs[..|cats|] == reqs;
    }
  }

  /** The date filter of `fetch_today_new` over one category's papers. */
  method KeepToday(ps: seq<PaperEntry>, today: Date) returns (kept: seq<PaperEntry>)
    ensures kept == TodayOf(ps, today)
  {
    kept := [];
    for k := 0 to |ps|
      invariant kept == TodayOf(ps[..k], today)
    {
      TodayOfSnoc(ps[..k], ps[k], today);
      assert ps[..k + 1] == ps[..k] + [ps[k]];
      if ps[k].published != "" {
        var date := ParseIsoDate(ps[k].published);
        if date == Some(today) {
          kept := kept + [ps[k]];
        }
      }
    }
    assert ps[..|ps|] == ps;
  }

  lemma {:induction false} TodayOfSnoc(ps: seq<PaperEntry>, p: PaperEntry, today: Date)
    ensures TodayOf(ps + [p], today) == TodayOf(ps, today) + (if PublishedOn(p, today) then [p] else [])
  {
    if ps != [] {
      TodayOfSnoc(ps[1..], p, today);
      assert (ps + [p])[1..] == ps[1..] + [p];
    }
  }
}
