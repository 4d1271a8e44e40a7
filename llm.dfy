/**
 * The LLM helpers of the paper pipeline (arxiv_llm.py): the tag parser, the chat messages for
 * tagging and for the Chinese summary, and their composition with the model's `generate` call,
 * which is a parameter here.
 */
module Llm {
  import opened Strings

  /** One chat message, the `{"role": ..., "content": ...}` dictionary. */
  datatype Message = Message(role: string, content: string)

  /** `PaperAI`: the configured tag count (`max_tags_prompt`, default 5). */
  datatype PaperAI = PaperAI(maxTagsPrompt: int)

  const DefaultMaxTags: int := 5

  /** `sub` occurs in `s` at some position. */
  predicate Infix(sub: string, s: string) {
    exists i | 0 <= i <= |s| :: sub <= s[i..]
  }

  /** `[t.strip() for t in parts if t.strip()]` */
  function CleanFragments(parts: seq<string>): seq<string> {
    if parts == [] then [] else Kept(parts[0]) + CleanFragments(parts[1..])
  }

  /** The one fragment a part contributes: its stripped form, or nothing when that is empty. */
  function Kept(part: string): seq<string> {
    var t := Strip(part);
    if t != "" then [t] else []
  }

  /** Python's `xs[:n]`: a negative `n` counts from the end. */
  function PySlicePrefix<T>(xs: seq<T>, n: int): (r: seq<T>)
    ensures |r| <= |xs| && r == xs[..|r|]
    ensures n >= 0 ==> |r| == if n < |xs| then n else |xs|
    ensures n < 0 ==> |r| == if |xs| + n > 0 then |xs| + n else 0
  {
    if n >= 0 then (if n < |xs| then xs[..n] else xs)
    else if |xs| + n > 0 then xs[..|xs| + n] else []
  }

  /** The answer's fragments: newlines count as commas; each piece stripped, empty ones dropped. */
  function Fragments(output: string): seq<string> {
    CleanFragments(Split(ReplaceChar(output, '\n', ','), ','))
  }

  /** `_parse_tags`: the fragments, truncated to `maxTags`. */
  function ParseTags(output: string, maxTags: int): seq<string> {
    PySlicePrefix(Fragments(output), maxTags)
  }

  /** Each kept fragment is the stripped form of a non-blank part, found at index `j`. */
  lemma {:induction false} CleanFragmentSource(parts: seq<string>, i: nat) returns (j: nat)
    requires i < |CleanFragments(parts)|
    ensures j < |parts| && Strip(parts[j]) != "" && CleanFragments(parts)[i] == Strip(parts[j])
  {
    var head, rest := Kept(parts[0]), CleanFragments(parts[1..]);
    assert CleanFragments(parts) == head + rest;
    if i < |head| {
      j := 0;
    } else {
      var k := CleanFragmentSource(parts[1..], i - |head|);
      assert parts[1..][k] == parts[k + 1];
      assert (head + rest)[i] == rest[i - |head|];
      j := k + 1;
    }
  }

  /** A tag as the parser hands it out: non-empty, stripped, without comma or newline. */
  predicate CleanTag(t: string) {
    t != "" && Strip(t) == t && ',' !in t && '\n' !in t
  }

  /** Every kept fragment of a line without newlines is a clean tag. */
  lemma KeptFragments(s: string)
    requires '\n' !in s
    ensures forall t | t in CleanFragments(Split(s, ',')) :: CleanTag(t)
  {
    var parts := Split(s, ',');
    var all := CleanFragments(parts);
    forall i | 0 <= i < |all| ensures CleanTag(all[i]) {
      var j := CleanFragmentSource(parts, i);
      var t := Strip(parts[j]);
      StripUnchanged(t);
      SplitPartsAvoid(s, ',', '\n', j);
      SplitPartsFree(s, ',', j);
      if ',' in t { StripChars(parts[j], ','); }
      if '\n' in t { StripChars(parts[j], '\n'); }
    }
  }

  /** After newlines become commas, none is left. */
  lemma NoNewline(output: string)
    ensures '\n' !in ReplaceChar(output, '\n', ',')
  {
  }

  /**
   * The parser's promises: each tag is non-empty, stripped and holds no comma or newline; there are
   * at most `maxTags` of them for a non-negative `maxTags`; and they are the first fragments in order.
   */
  lemma ParseTagsFacts(output: string, maxTags: int)
    ensures var r := ParseTags(output, maxTags);
      && (forall t | t in r :: CleanTag(t))
      && (maxTags >= 0 ==> |r| <= maxTags)
      && r == Fragments(output)[..|r|]
  {
    var s := ReplaceChar(output, '\n', ',');
    NoNewline(output);
    KeptFragments(s);
  }

  /** A character missing from a string is missing from every part of its split. */
  lemma {:induction false} SplitPartsAvoid(s: string, sep: char, c: char, i: nat)
    requires c !in s && i < |Split(s, sep)|
    ensures c !in Split(s, sep)[i]
    decreases |s|
  {
    if sep in s {
      var k := IndexOf(s, sep);
      assert Split(s, sep) == [s[..k]] + Split(s[k + 1..], sep);
      if i == 0 {
        assert forall x | x in s[..k] :: x in s;
      } else {
        assert forall x | x in s[k + 1..] :: x in s;
        SplitPartsAvoid(s[k + 1..], sep, c, i - 1);
      }
    }
  }

  lemma {:induction false} JoinAvoids(parts: seq<string>, sep: char, c: char)
    requires c != sep && forall t | t in parts :: c !in t
    ensures c !in Join(parts, [sep])
  {
    if |parts| > 1 {
      JoinAvoids(parts[1..], sep, c);
    }
  }

  lemma ReplaceAbsent(s: string, from: char, to: char)
    requires from !in s
    ensures ReplaceChar(s, from, to) == s
  {
  }

  lemma {:induction false} CleanFragmentsUnchanged(tags: seq<string>)
    requires forall i | 0 <= i < |tags| :: tags[i] != "" && Trimmed(tags[i])
    ensures CleanFragments(tags) == tags
  {
    if tags != [] {
      var t, rest := tags[0], tags[1..];
      StripUnchanged(t);
      assert Kept(t) == [t];
      assert forall i | 0 <= i < |rest| :: rest[i] == tags[i + 1];
      CleanFragmentsUnchanged(rest);
      assert tags == [t] + rest;
    }
  }

  /**
   * Tags that are non-empty, stripped and free of commas and newlines survive being written as
   * one comma-separated line and parsed again, truncated to `maxTags`.
   */
  lemma ParseJoinedTags(tags: seq<string>, maxTags: int)
    requires forall t | t in tags :: CleanTag(t)
    ensures ParseTags(Join(tags, ","), maxTags) == PySlicePrefix(tags, maxTags)
  {
    var line := Join(tags, ",");
    if tags == [] {
      ParseEmptyLine(maxTags);
    } else {
      JoinAvoids(tags, ',', '\n');
      ReplaceAbsent(line, '\n', ',');
      assert forall i | 0 <= i < |tags| :: tags[i] in tags;
      SplitJoin(tags, ',');
      forall i | 0 <= i < |tags| ensures tags[i] != "" && Trimmed(tags[i]) {
        TrimmedStripped(tags[i]);
      }
      CleanFragmentsUnchanged(tags);
    }
  }

  /** An empty answer gives no tags. */
  lemma ParseEmptyLine(maxTags: int)
    ensures ParseTags("", maxTags) == []
  {
    assert ReplaceChar("", '\n', ',') == "";
    assert Split("", ',') == [""];
    assert Strip("") == "";
    assert [""][1..] == [];
    assert CleanFragments([""]) == [];
  }

  const AssistantPrompt: string := "你是一个学术论文分析助手。"

  /** `_build_tag_messages` */
  function BuildTagMessages(title: string, paperAbstract: string, maxTags: int): seq<Message> {
    [Message("system", AssistantPrompt),
     Message("user", "请根据以下论文标题和摘要生成不超过" + IntToString(maxTags) + "个标签，简短且用中文，"
                     + "以逗号分隔输出。标题：" + title + "\n摘要：" + paperAbstract)]
  }

  /** `_build_summary_messages` */
  function BuildSummaryMessages(title: string, paperAbstract: string): seq<Message> {
    [Message("system", AssistantPrompt),
     Message("user", "请将以下论文标题和摘要总结为中文，3-5句话，保持学术风格, 纯文本，仅输出总结内容。\n标题：" + title
                     + "\n摘要：" + paperAbstract)]
  }

  lemma InfixMiddle(pre: string, sub: string, post: string)
    ensures Infix(sub, pre + sub + post)
  {
    var s := pre + sub + post;
    assert s[|pre|..][..|sub|] == sub;
  }

  /**
   * The tag request is a system message then a user message whose text holds the tag count,
   * the title and the abstract, the abstract last.
   */
  lemma TagMessagesShape(title: string, paperAbstract: string, maxTags: int)
    ensures var ms := BuildTagMessages(title, paperAbstract, maxTags);
      && |ms| == 2 && ms[0] == Message("system", AssistantPrompt) && ms[1].role == "user"
      && Infix(IntToString(maxTags), ms[1].content) && Infix(title, ms[1].content)
      && Infix(paperAbstract, ms[1].content)
      && |paperAbstract| <= |ms[1].content| && ms[1].content[|ms[1].content| - |paperAbstract|..] == paperAbstract
  {
    var c := BuildTagMessages(title, paperAbstract, maxTags)[1].content;
    SplicedParts(c, "请根据以下论文标题和摘要生成不超过", IntToString(maxTags), "个标签，简短且用中文，",
                 "以逗号分隔输出。标题：", title, "\n摘要：", paperAbstract);
  }

  /** A text put together from seven parts holds the second, the fifth and the seventh, the seventh last. */
  lemma SplicedParts(s: string, a: string, x: string, b1: string, b2: string, y: string, t: string, z: string)
    requires s == a + x + b1 + b2 + y + t + z
    ensures Infix(x, s) && Infix(y, s) && Infix(z, s)
    ensures |z| <= |s| && s[|s| - |z|..] == z
  {
    assert s[|a|..][..|x|] == x;
    assert s[|a + x + b1 + b2|..][..|y|] == y;
    assert s[|s| - |z|..] == z;
  }

  /** The summary request is a system message then a user message whose text holds the title and the abstract, the abstract last. */
  lemma SummaryMessagesShape(title: string, paperAbstract: string)
    ensures var ms := BuildSummaryMessages(title, paperAbstract);
      && |ms| == 2 && ms[0] == Message("system", AssistantPrompt) && ms[1].role == "user"
      && Infix(title, ms[1].content) && Infix(paperAbstract, ms[1].content)
      && |paperAbstract| <= |ms[1].content| && ms[1].content[|ms[1].content| - |paperAbstract|..] == paperAbstract
  {
    var head := "请将以下论文标题和摘要总结为中文，3-5句话，保持学术风格, 纯文本，仅输出总结内容。\n标题：";
    var tail := "\n摘要：";
    var c := BuildSummaryMessages(title, paperAbstract)[1].content;
    assert c == head + title + (tail + paperAbstract);
    InfixMiddle(head, title, tail + paperAbstract);
    assert c == (head + title + tail) + paperAbstract + "";
    InfixMiddle(head + title + tail, paperAbstract, "");
  }

  /**
   * `generate_tags`: the first clean fragments of the model's answer to the tag request for the
   * configured count; at most that many, each non-empty, stripped, without comma or newline.
   */
  function GenerateTags(ai: PaperAI, title: string, paperAbstract: string, generate: seq<Message> -> string): (tags: seq<string>)
    ensures tags <= Fragments(generate(BuildTagMessages(title, paperAbstract, ai.maxTagsPrompt)))
    ensures ai.maxTagsPrompt >= 0 ==> |tags| <= ai.maxTagsPrompt
    ensures forall t | t in tags :: CleanTag(t)
  {
    var out := generate(BuildTagMessages(title, paperAbstract, ai.maxTagsPrompt));
    ParseTagsFacts(out, ai.maxTagsPrompt);
    ParseTags(out, ai.maxTagsPrompt)
  }

  /** `summarize_cn`: the model's answer to the summary request, stripped. */
  function SummarizeCn(title: string, paperAbstract: string, generate: seq<Message> -> string): (summary: string)
    ensures summary != "" ==> !IsSpace(summary[0]) && !IsSpace(summary[|summary| - 1])
    ensures summary == "" <==> forall i | 0 <= i < |generate(BuildSummaryMessages(title, paperAbstract))| ::
      IsSpace(generate(BuildSummaryMessages(title, paperAbstract))[i])
  {
    StripEmpty(generate(BuildSummaryMessages(title, paperAbstract)));
    Strip(generate(BuildSummaryMessages(title, paperAbstract)))
  }
}
