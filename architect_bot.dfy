/**
 * The architecture bot's payload handling: the outline used when no
 * assistant answers, the trimmed issue body put into prompts, the text
 * taken out of a chat completion message, and the section lines rendered
 * from the assistant's JSON answer (pillars, plain lists and risks).
 */
module ArchitectBot {
  import opened Wrappers
  import opened Str
  import opened Values
  import Seqs
  import Paths
  import IssueBot

  // ---------------------------------------------------------- fallback outline

  const SolutionSteps: seq<string> := [
    "1. Confirm the current baseline architecture that the change will impact.",
    "2. Design the target state, highlighting integration points and data flows.",
    "3. Document non-functional requirements and architecture guardrails that must be preserved."
  ]

  const OutlineTasks: seq<string> := [
    "- [ ] Validate the proposal with stakeholders and capture sign-offs.",
    "- [ ] Update architecture diagrams and supporting documentation.",
    "- [ ] Identify required code or infrastructure changes and owners.",
    "- [ ] Coordinate testing and rollout strategy with the broader team."
  ]

  const RiskHint := "- _Add risks discovered during analysis along with mitigation owners._"

  const QuestionHint := "- _List any clarifications needed before implementation proceeds._"

  /** The four hand-written sections that follow the issue overview. */
  const OutlineSections: seq<(string, seq<string>)> := [
    ("Proposed Architecture Solution", SolutionSteps),
    ("Implementation Outline", OutlineTasks),
    ("Risks & Mitigations", [RiskHint]),
    ("Follow-up Questions", [QuestionHint])
  ]

  const OverviewTitle := "Issue Overview"

  /** `_fallback_sections`: the hand-written outline, opened by the quoted issue body. */
  function FallbackSections(issueBody: string): (r: seq<(string, seq<string>)>)
    ensures |r| == 5
    ensures r[0] == (OverviewTitle, [IssueBot.Blockquote(issueBody)])
    ensures forall k :: 0 <= k < |r| ==> r[k].1 != []
  {
    [(OverviewTitle, [IssueBot.Blockquote(issueBody)])] + OutlineSections
  }

  /**
   * A document built from the fallback outline shows the quoted issue body
   * right after its preamble, under the "Issue Overview" heading, and no
   * section of it falls back to the placeholder.
   */
  lemma FallbackDocumentQuotesBody(c: IssueBot.IssueContext, documentType: string, issueBody: string,
                                   generatedAt: string)
    ensures var lines := IssueBot.DocumentLines(c, documentType, FallbackSections(issueBody), generatedAt);
      var o := |IssueBot.Preamble(c, documentType, generatedAt)|;
      o + 3 <= |lines| && lines[o..o + 3] == ["", "## " + OverviewTitle, IssueBot.Blockquote(issueBody)]
  {
    var sections := FallbackSections(issueBody);
    IssueBot.SectionBlock(c, documentType, sections, generatedAt, 0);
    assert sections[..0] == [];
    assert Seqs.FlatMap(sections[..0], IssueBot.SectionLines) == [];
  }

  /** No fallback section is rendered with the placeholder: each keeps its own lines. */
  lemma FallbackNoPlaceholder(issueBody: string, k: nat)
    requires k < 5
    ensures IssueBot.SectionLines(FallbackSections(issueBody)[k])
      == ["", "## " + FallbackSections(issueBody)[k].0] + FallbackSections(issueBody)[k].1
  {
    assert FallbackSections(issueBody)[k].1 != [];
  }

  // ---------------------------------------------------------- issue body

  const DefaultBodyLength: nat := 6000

  const TruncationMarker := "\n\n[Issue body truncated for brevity]"

  /** `s.rsplit(" ", 1)[0]`: everything before the last space, or all of `s` when it has none. */
  function BeforeLastSpace(s: string): (t: string)
    ensures StartsWith(s, t)
    ensures ' ' !in s ==> t == s
    ensures ' ' in s ==> |t| < |s| && s[|t|] == ' ' && ' ' !in s[|t| + 1..]
  {
    var i := Paths.LastIndexOf(s, ' ');
    if i < 0 then s else s[..i]
  }

  /**
   * `_trimmed_issue_body`: the stripped body when it fits, otherwise its
   * first `maxLength` characters cut back to the last space, followed by the marker.
   */
  function TrimmedIssueBody(rawBody: string, maxLength: nat): (r: string)
    ensures |Strip(rawBody)| <= maxLength ==> r == Strip(rawBody)
    ensures |Strip(rawBody)| > maxLength ==>
      EndsWith(r, TruncationMarker)
      && var kept := r[..|r| - |TruncationMarker|];
         StartsWith(Strip(rawBody), kept) && |kept| <= maxLength
         && (' ' in Strip(rawBody)[..maxLength] ==> Strip(rawBody)[|kept|] == ' ')
    ensures |Strip(rawBody)| > maxLength ==>
      var cut := Strip(rawBody)[..maxLength];
      var kept := r[..|r| - |TruncationMarker|];
      (' ' !in cut ==> kept == cut)
      && (' ' in cut ==> |kept| < |cut| && ' ' !in cut[|kept| + 1..])
    ensures |r| <= maxLength + |TruncationMarker|
  {
    var normalized := Strip(rawBody);
    if |normalized| <= maxLength then normalized
    else
      var truncated := BeforeLastSpace(normalized[..maxLength]);
      var r := truncated + TruncationMarker;
      assert r[..|truncated|] == truncated;
      assert r[|truncated|..] == TruncationMarker;
      r
  }

  // ---------------------------------------------------------- JSON values

  /** `_json_list`: a list is itself, `None` is empty, anything else is a one-element list. */
  function JsonList(v: Value): (r: seq<Value>)
    ensures v.VList? ==> r == v.items
    ensures v.VNone? ==> r == []
    ensures !v.VList? && !v.VNone? ==> r == [v]
    ensures forall x :: x in r <==> if v.VList? then x in v.items else !v.VNone? && x == v
    ensures r == [] <==> v.VNone? || v == VList([])
  {
    match v
    case VList(items) => items
    case VNone => []
    case _ => [v]
  }

  /** Listing the list of a value again changes nothing. */
  lemma JsonListIdempotent(v: Value)
    ensures JsonList(VList(JsonList(v))) == JsonList(v)
    ensures Truthy(VList(JsonList(v))) ==> v.VList? || !v.VNone?
  {
  }

  /** `a or b` where `a` is the result of a `get`: `a` when it is present and truthy, else `b`. */
  function Or(a: Option<Value>, b: Value): (r: Value)
    ensures a.Some? && Truthy(a.value) ==> r == a.value
    ensures !(a.Some? && Truthy(a.value)) ==> r == b
    ensures Truthy(r) <==> (a.Some? && Truthy(a.value)) || Truthy(b)
    ensures !Truthy(r) ==> r == b
  {
    if a.Some? && Truthy(a.value) then a.value else b
  }

  /** `str(d.get(k1) or d.get(k2) or default).strip()`. */
  function Field(d: Value, k1: string, k2: string, default: string): string
  {
    Strip(PyStr(Or(Get(d, k1), Or(Get(d, k2), VStr(default)))))
  }

  /** The field falls back from the first key to the second key to the default, and is trimmed. */
  lemma FieldFallback(d: Value, k1: string, k2: string, default: string)
    ensures Get(d, k1).Some? && Truthy(Get(d, k1).value) ==> Field(d, k1, k2, default) == Strip(PyStr(Get(d, k1).value))
    ensures !(Get(d, k1).Some? && Truthy(Get(d, k1).value)) && Get(d, k2).Some? && Truthy(Get(d, k2).value)
      ==> Field(d, k1, k2, default) == Strip(PyStr(Get(d, k2).value))
    ensures !(Get(d, k1).Some? && Truthy(Get(d, k1).value)) && !(Get(d, k2).Some? && Truthy(Get(d, k2).value))
      ==> Field(d, k1, k2, default) == Strip(default)
    ensures Strip(Field(d, k1, k2, default)) == Field(d, k1, k2, default)
  {
    StripOfStripped(PyStr(Or(Get(d, k1), Or(Get(d, k2), VStr(default)))));
  }

  // ---------------------------------------------------------- message content

  /** The content of a message payload: the `content` entry of a dictionary, or the payload itself. */
  function Content(message: Value): Value
  {
    if message.VDict? then (match Get(message, "content") case Some(v) => v case None => VNone) else message
  }

  /** The text a list item contributes: its `text` entry, else its `content` entry, or itself when a string. */
  function ItemPart(item: Value): Option<string>
  {
    if item.VDict? then
      match Get(item, "text")
      case Some(t) => Some(PyStr(t))
      case None => (match Get(item, "content") case Some(t) => Some(PyStr(t)) case None => None)
    else if item.VStr? then Some(item.s)
    else None
  }

  predicate Visible(part: string) { !IsBlank(part) }

  /** The trimmed non-blank parts, one per output line. */
  function PartLines(parts: seq<string>): (r: seq<string>)
    ensures forall k :: 0 <= k < |r| ==> r[k] != [] && !IsSpace(r[k][0]) && !IsSpace(r[k][|r[k]| - 1])
  {
    var visible := Seqs.Filter(parts, Visible);
    var r := Seqs.Map(visible, Strip);
    forall k | 0 <= k < |r| ensures r[k] == Strip(visible[k]) && visible[k] in visible {
      Seqs.MapAt(visible, Strip, k);
    }
    r
  }

  /** `_extract_message_content` as a function of the payload. */
  function MessageContent(message: Value): (r: string)
    ensures Content(message).VStr? ==> r == Strip(Content(message).s)
    ensures Content(message).VNone? ==> r == ""
    ensures Content(message).VList? ==> r == Join(PartLines(Seqs.FilterMap(Content(message).items, ItemPart)), "\n")
    ensures !Content(message).VStr? && !Content(message).VNone? && !Content(message).VList?
      ==> r == Strip(PyStr(Content(message)))
  {
    match Content(message)
    case VStr(s) => Strip(s)
    case VList(items) => Join(PartLines(Seqs.FilterMap(items, ItemPart)), "\n")
    case VNone => ""
    case other => Strip(PyStr(other))
  }

  /** Whatever the payload, the extracted text neither starts nor ends with whitespace. */
  lemma MessageContentStripped(message: Value)
    ensures Strip(MessageContent(message)) == MessageContent(message)
  {
    match Content(message)
    case VStr(s) => StripOfStripped(s);
    case VList(items) => JoinVisible(PartLines(Seqs.FilterMap(items, ItemPart)), "\n");
    case VNone =>
    case other => StripOfStripped(PyStr(other));
  }

  /** When no part spans lines, the extracted lines are exactly the trimmed non-blank parts. */
  lemma MessageContentLines(message: Value)
    requires Content(message).VList?
    requires var lines := PartLines(Seqs.FilterMap(Content(message).items, ItemPart));
      lines != [] && forall k :: 0 <= k < |lines| ==> '\n' !in lines[k]
    ensures Split(MessageContent(message), '\n') == PartLines(Seqs.FilterMap(Content(message).items, ItemPart))
  {
    SplitOfJoin(PartLines(Seqs.FilterMap(Content(message).items, ItemPart)), '\n');
  }

  /** The loop over the items of a list content, collecting the part of each. */
  method CollectParts(items: seq<Value>) returns (parts: seq<string>)
    ensures parts == Seqs.FilterMap(items, ItemPart)
  {
    parts := [];
    for i := 0 to |items|
      invariant parts == Seqs.FilterMap(items[..i], ItemPart)
    {
      Seqs.PrefixSnoc(items, i);
      match ItemPart(items[i])
      case Some(p) => parts := parts + [p];
      case None =>
    }
    Seqs.PrefixAll(items);
  }

  method ExtractMessageContent(message: Value) returns (r: string)
    ensures r == MessageContent(message)
  {
    var content := Content(message);
    if content.VStr? {
      return Strip(content.s);
    }
    if content.VList? {
      var parts := CollectParts(content.items);
      return Join(PartLines(parts), "\n");
    }
    if content.VNone? {
      return "";
    }
    return Strip(PyStr(content));
  }

  // ---------------------------------------------------------- pillars

  /** One pillar line: a dictionary gives its title in bold, then its details when it has any. */
  function PillarLine(pillar: Value): string
  {
    if pillar.VDict? then
      var title := Field(pillar, "title", "name", "Key focus");
      var details := Field(pillar, "details", "summary", "");
      var head := "- **" + title + "**";
      if details != "" then head + ": " + details else head
    else "- " + PyStr(pillar)
  }

  /**
   * A dictionary pillar's line is its bold title, followed by `: ` and the
   * details exactly when there are details; any other pillar is bulleted as its `str()`.
   */
  lemma PillarLineShape(pillar: Value)
    ensures !pillar.VDict? ==> PillarLine(pillar) == "- " + PyStr(pillar)
    ensures pillar.VDict? ==>
      var title := Field(pillar, "title", "name", "Key focus");
      var details := Field(pillar, "details", "summary", "");
      var head := "- **" + title + "**";
      StartsWith(PillarLine(pillar), head)
      && (details == "" ==> PillarLine(pillar) == head)
      && (details != "" ==> PillarLine(pillar)[|head|..] == ": " + details)
  {
    if pillar.VDict? {
      var title := Field(pillar, "title", "name", "Key focus");
      var details := Field(pillar, "details", "summary", "");
      var head := "- **" + title + "**";
      if details != "" {
        Seqs.ThreeSlices(head, ": ", details);
        Seqs.AppendAssoc(head, ": ", details);
      }
    }
  }

  /** `_format_pillars`: one line per pillar, in order. */
  method FormatPillars(pillars: seq<Value>) returns (lines: seq<string>)
    ensures lines == Seqs.Map(pillars, PillarLine)
  {
    lines := [];
    for i := 0 to |pillars|
      invariant lines == Seqs.Map(pillars[..i], PillarLine)
    {
      Seqs.PrefixSnoc(pillars, i);
      Seqs.MapSnoc(pillars[..i], pillars[i], PillarLine);
      lines := lines + [PillarLine(pillars[i])];
    }
    Seqs.PrefixAll(pillars);
  }

  /** A pillar with neither a truthy title nor a truthy name is titled "Key focus". */
  lemma PillarKeyFocus(pillar: Value)
    requires pillar.VDict?
    requires !(Get(pillar, "title").Some? && Truthy(Get(pillar, "title").value))
    requires !(Get(pillar, "name").Some? && Truthy(Get(pillar, "name").value))
    ensures Field(pillar, "title", "name", "Key focus") == "Key focus"
  {
    FieldFallback(pillar, "title", "name", "Key focus");
    StripUnspaced("Key focus");
  }

  // ---------------------------------------------------------- simple lists

  predicate Listed(item: Value) { !IsBlank(PyStr(item)) }

  predicate IsMarker(c: char) { c == '-' || c == '*' }

  /** The line of the item enumerated as `index`: none when blank, numbered or bulleted otherwise. */
  function SimpleLine(index: nat, item: Value, numbered: bool): (r: seq<string>)
    ensures |r| <= 1 && (r == [] <==> !Listed(item))
    ensures r != [] && numbered ==> r[0] == NatToString(index) + ". " + Strip(PyStr(item))
    ensures r != [] && !numbered ==> r[0] != [] && IsMarker(r[0][0]) && EndsWith(r[0], Strip(PyStr(item)))
  {
    var text := Strip(PyStr(item));
    if text == "" then []
    else if numbered then [NatToString(index) + ". " + text]
    else
      var line := (if IsMarker(text[0]) then "" else "- ") + text;
      assert line[|line| - |text|..] == text;
      [line]
  }

  /** The lines of the items enumerated from 1. */
  function SimpleList(items: seq<Value>, numbered: bool): seq<string>
  {
    Seqs.FlatMapIndexed(items, (index: nat, item: Value) => SimpleLine(index, item, numbered))
  }

  /** `_format_simple_list`. */
  method FormatSimpleList(items: seq<Value>, numbered: bool) returns (lines: seq<string>)
    ensures lines == SimpleList(items, numbered)
  {
    lines := [];
    for i := 0 to |items|
      invariant lines == SimpleList(items[..i], numbered)
    {
      Seqs.PrefixSnoc(items, i);
      Seqs.FlatMapIndexedSnoc(items[..i], items[i], (index: nat, item: Value) => SimpleLine(index, item, numbered));
      var line := ListLine(i + 1, items[i], numbered);
      lines := lines + line;
    }
    Seqs.PrefixAll(items);
  }

  /** One step of the loop: nothing for a blank item, else its numbered or bulleted line. */
  method ListLine(index: nat, item: Value, numbered: bool) returns (line: seq<string>)
    ensures line == SimpleLine(index, item, numbered)
  {
    var text := Strip(PyStr(item));
    if text == "" {
      return [];
    }
    if numbered {
      return [NatToString(index) + ". " + text];
    }
    var prefix := if !IsMarker(text[0]) then "- " else "";
    return [prefix + text];
  }

  /** One line per non-blank item: blank items are skipped. */
  lemma {:induction false} SimpleListCount(items: seq<Value>, numbered: bool)
    ensures |SimpleList(items, numbered)| == |Seqs.Filter(items, Listed)|
    decreases |items|
  {
    if items != [] {
      var init := items[..|items| - 1];
      SimpleListCount(init, numbered);
      Seqs.InitLast(items);
      Seqs.FlatMapIndexedSnoc(init, items[|items| - 1], (index: nat, item: Value) => SimpleLine(index, item, numbered));
      Seqs.FilterSnoc(init, items[|items| - 1], Listed);
      Seqs.InitLast(items);
    }
  }

  /** `line` is the numbered line of the item at position `k` (counting from 0). */
  predicate NumberedAt(k: nat, item: Value, line: string)
  {
    SimpleLine(k + 1, item, true) == [line]
  }

  /** The numbered line at position `k` is the item's trimmed text after the number `k + 1`. */
  lemma NumberedAtIff(k: nat, item: Value, line: string)
    ensures NumberedAt(k, item, line) <==> Listed(item) && line == NatToString(k + 1) + ". " + Strip(PyStr(item))
  {
  }

  /**
   * A numbered line carries the item's own position in the input, so the
   * numbers of skipped items are missing rather than reused.
   */
  lemma NumberedLines(items: seq<Value>, line: string)
    ensures line in SimpleList(items, true) <==> exists k :: 0 <= k < |items| && NumberedAt(k, items[k], line)
  {
    var f := (index: nat, item: Value) => SimpleLine(index, item, true);
    if line in SimpleList(items, true) {
      var k := Seqs.FlatMapIndexedSource(items, f, line);
      assert NumberedAt(k, items[k], line);
    }
    if exists k :: 0 <= k < |items| && NumberedAt(k, items[k], line) {
      var k :| 0 <= k < |items| && NumberedAt(k, items[k], line);
      Seqs.FlatMapIndexedMember(items, f, k, line);
    }
  }

  /** Every bulleted line starts with a list marker: the item's own, or the added `- `. */
  lemma BulletMarked(items: seq<Value>, line: string)
    requires line in SimpleList(items, false)
    ensures line != [] && IsMarker(line[0])
  {
    var k := Seqs.FlatMapIndexedSource(items, (index: nat, item: Value) => SimpleLine(index, item, false), line);
    assert line in SimpleLine(k + 1, items[k], false);
  }

  // ---------------------------------------------------------- risks

  /** The non-empty parts of a risk, labelled, in the order description, mitigation, owner. */
  function RiskParts(description: string, mitigation: string, owner: string): (parts: seq<string>)
    ensures parts == [] <==> description == "" && mitigation == "" && owner == ""
    ensures |parts| <= 3
    ensures forall k :: 0 <= k < |parts| ==> parts[k] != ""
    ensures description != "" ==> parts[0] == description
    ensures owner != "" ==> parts[|parts| - 1] == "Owner: " + owner
  {
    var parts := if description != "" then [description] else [];
    var parts := if mitigation != "" then parts + ["Mitigation: " + mitigation] else parts;
    if owner != "" then parts + ["Owner: " + owner] else parts
  }

  /** The line of one risk; a dictionary contributes one only when one of its parts is present. */
  function RiskLines(risk: Value): (r: seq<string>)
    ensures |r| <= 1
    ensures r != [] ==> StartsWith(r[0], "- ")
    ensures risk.VDict? ==> (r == [] <==>
      Field(risk, "risk", "description", "") == "" && Field(risk, "mitigation", "response", "") == ""
      && Field(risk, "owner", "owner", "") == "")
    ensures !risk.VDict? ==> (r == [] <==> IsBlank(PyStr(risk)))
  {
    if risk.VDict? then
      var parts := RiskParts(Field(risk, "risk", "description", ""), Field(risk, "mitigation", "response", ""),
                             Field(risk, "owner", "owner", ""));
      if parts == [] then [] else ["- " + Join(parts, " | ")]
    else
      var text := Strip(PyStr(risk));
      if text == "" then [] else ["- " + text]
  }

  /** `_format_risks`: the lines of the risks, in order. */
  method FormatRisks(risks: seq<Value>) returns (lines: seq<string>)
    ensures lines == Seqs.FlatMap(risks, RiskLines)
  {
    lines := [];
    for i := 0 to |risks|
      invariant lines == Seqs.FlatMap(risks[..i], RiskLines)
    {
      Seqs.PrefixSnoc(risks, i);
      Seqs.FlatMapSnoc(risks[..i], risks[i], RiskLines);
      var risk := risks[i];
      if risk.VDict? {
        var description := Field(risk, "risk", "description", "");
        var mitigation := Field(risk, "mitigation", "response", "");
        var owner := Field(risk, "owner", "owner", "");
        var parts := if description != "" then [description] else [];
        if mitigation != "" {
          parts := parts + ["Mitigation: " + mitigation];
        }
        if owner != "" {
          parts := parts + ["Owner: " + owner];
        }
        if parts != [] {
          lines := lines + ["- " + Join(parts, " | ")];
        }
      } else {
        var text := Strip(PyStr(risk));
        if text != "" {
          lines := lines + ["- " + text];
        }
      }
    }
    Seqs.PrefixAll(risks);
  }

  /** At most one line per risk, each a `- ` bullet. */
  lemma {:induction false} RisksBulleted(risks: seq<Value>)
    ensures |Seqs.FlatMap(risks, RiskLines)| <= |risks|
    ensures forall k :: 0 <= k < |Seqs.FlatMap(risks, RiskLines)| ==> StartsWith(Seqs.FlatMap(risks, RiskLines)[k], "- ")
    decreases |risks|
  {
    if risks != [] {
      RisksBulleted(risks[..|risks| - 1]);
    }
  }
}
