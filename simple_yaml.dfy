/**
 * The fallback YAML loader of the test suite: a line tokeniser that drops
 * comments outside quotes, a scalar reader, and an indentation-driven parser
 * that keeps a stack of open containers.
 *
 * Python containers are shared between their parent and the parser's stack,
 * so the parse works on an arena: a sequence of container cells addressed by
 * index.  A cell refers to a child container by index, and a child is always
 * allocated after its parent, so every reference points to a higher index.
 */
module SimpleYaml {
  import opened Wrappers
  import opened Str
  import opened Values

  /** One non-blank line: its count of leading spaces and its stripped text. */
  datatype Token = Token(indent: nat, content: string)

  /** `ast.literal_eval`, supplied by the caller: `None` when it raises. */
  type LiteralEval = string -> Option<Value>

  // ------------------------------------------------------------- comments

  predicate IsQuote(c: char) { c == '"' || c == '\'' }

  /** The quote left open after reading `s`; a run closes only on its own quote character. */
  function QuoteState(s: string): Option<char>
  {
    if s == [] then None
    else
      var open := QuoteState(s[..|s| - 1]);
      var c := s[|s| - 1];
      if !IsQuote(c) then open
      else if open == Some(c) then None
      else if open == None then Some(c)
      else open
  }

  /** A `#` at index `i` that no open quote protects starts a comment. */
  predicate IsCommentAt(line: string, i: nat)
    requires i < |line|
  {
    line[i] == '#' && QuoteState(line[..i]) == None
  }

  /** The first comment start at or after `i`, or `|line|` when there is none. */
  function CommentStartFrom(line: string, i: nat): (c: nat)
    requires i <= |line|
    ensures i <= c <= |line|
    decreases |line| - i
  {
    if i == |line| then i
    else if IsCommentAt(line, i) then i
    else CommentStartFrom(line, i + 1)
  }

  /** The comment starts at the first unquoted `#` from `i` on. */
  lemma {:induction false} CommentStartIsFirst(line: string, i: nat)
    requires i <= |line|
    ensures var c := CommentStartFrom(line, i);
      (c < |line| ==> IsCommentAt(line, c)) && forall j :: i <= j < c ==> !IsCommentAt(line, j)
    decreases |line| - i
  {
    if i < |line| && !IsCommentAt(line, i) {
      CommentStartIsFirst(line, i + 1);
    }
  }

  /** The line cut at its first unquoted `#`, with trailing whitespace removed. */
  function CommentFree(line: string): string
  {
    RStrip(line[..CommentStartFrom(line, 0)])
  }

  /** `_strip_comments`: one pass tracking whether a quote is open. */
  method StripComments(line: string) returns (r: string)
    ensures r == CommentFree(line)
    ensures r == line[..|r|]
  {
    var result: string := [];
    var inQuote := false;
    var quoteChar: string := "";
    var i := 0;
    while i < |line|
      invariant 0 <= i <= |line|
      invariant result == line[..i]
      invariant inQuote <==> quoteChar != ""
      invariant inQuote ==> |quoteChar| == 1 && QuoteState(line[..i]) == Some(quoteChar[0])
      invariant !inQuote ==> QuoteState(line[..i]) == None
      invariant CommentStartFrom(line, 0) == CommentStartFrom(line, i)
    {
      var c := line[i];
      assert line[..i + 1][..i] == line[..i];
      if IsQuote(c) {
        if inQuote && [c] == quoteChar {
          inQuote := false;
          quoteChar := "";
        } else if !inQuote {
          inQuote := true;
          quoteChar := [c];
        }
      }
      if c == '#' && !inQuote {
        assert IsCommentAt(line, i);
        break;
      }
      result := result + [c];
      i := i + 1;
    }
    r := RStrip(result);
  }

  // ------------------------------------------------------------ tokenising

  /** `len(line) - len(line.lstrip(" "))`: spaces only, tabs count as content. */
  function LeadingSpaces(line: string): (n: nat)
    ensures n <= |line|
    ensures forall i :: 0 <= i < n ==> line[i] == ' '
    ensures n == |line| || line[n] != ' '
  {
    if line != [] && line[0] == ' ' then 1 + LeadingSpaces(line[1..]) else 0
  }

  /** The token of one raw line, or `None` for a blank line or a `---` separator. */
  function TokenOf(raw: string): (t: Option<Token>)
    ensures t.Some? ==> t.value.content != "" && t.value.content != "---"
  {
    var line := CommentFree(raw);
    var content := Strip(line);
    if content == "" || content == "---" then None
    else Some(Token(LeadingSpaces(line), content))
  }

  /** The tokens one raw line contributes: none or one. */
  function LineTokens(raw: string): seq<Token>
  {
    var t := TokenOf(raw);
    if t.Some? then [t.value] else []
  }

  function TokensOf(lines: seq<string>): seq<Token>
  {
    if lines == [] then []
    else TokensOf(lines[..|lines| - 1]) + LineTokens(lines[|lines| - 1])
  }

  /** What `_tokenise` keeps of a line: stripped, not blank and not a document marker. */
  predicate CleanContent(content: string)
  {
    content != "" && content != "---" && Strip(content) == content
  }

  predicate AllClean(tokens: seq<Token>)
  {
    forall t :: t in tokens ==> CleanContent(t.content)
  }

  lemma LineTokensAreClean(raw: string)
    ensures AllClean(LineTokens(raw))
  {
    StripOfStripped(CommentFree(raw));
  }

  lemma AllCleanAppend(a: seq<Token>, b: seq<Token>)
    requires AllClean(a) && AllClean(b)
    ensures AllClean(a + b)
  {
    forall t | t in a + b
      ensures CleanContent(t.content)
    {
      if t !in a {
        assert t in b;
      }
    }
  }

  /** Every token is non-empty stripped text other than `---`. */
  lemma {:induction false} TokensAreStripped(lines: seq<string>)
    ensures AllClean(TokensOf(lines))
  {
    if lines != [] {
      TokensAreStripped(lines[..|lines| - 1]);
      LineTokensAreClean(lines[|lines| - 1]);
      AllCleanAppend(TokensOf(lines[..|lines| - 1]), LineTokens(lines[|lines| - 1]));
    }
  }

  lemma TokensOfSnoc(lines: seq<string>, i: nat)
    requires i < |lines|
    ensures TokensOf(lines[..i + 1]) == TokensOf(lines[..i]) + LineTokens(lines[i])
  {
    assert lines[..i + 1][..i] == lines[..i];
  }

  /** `_tokenise`. */
  method Tokenise(text: string) returns (tokens: seq<Token>)
    ensures tokens == TokensOf(SplitLines(text))
  {
    var lines := SplitLines(text);
    tokens := [];
    for i := 0 to |lines|
      invariant tokens == TokensOf(lines[..i])
    {
      TokensOfSnoc(lines, i);
      var line := StripComments(lines[i]);
      var content := Strip(line);
      if content != "" && content != "---" {
        tokens := tokens + [Token(LeadingSpaces(line), content)];
      }
    }
    assert lines[..|lines|] == lines;
  }

  // ---------------------------------------------------------- key / value

  datatype KeyValue = KeyValue(key: string, value: string, hasKey: bool)

  /** `_maybe_split_key_value`. */
  function SplitKeyValue(content: string): KeyValue
  {
    if ':' !in content then KeyValue("", content, false)
    else if EndsWith(content, ":") then KeyValue(Strip(content[..|content| - 1]), "", true)
    else
      var i := FirstIndexOf(content, ':');
      KeyValue(Strip(content[..i]), Strip(content[i + 1..]), true)
  }

  /**
   * No colon means no key; a final colon gives a key and an empty value;
   * otherwise the text splits at its first colon and both sides are stripped.
   */
  lemma SplitKeyValueCases(content: string)
    ensures var r := SplitKeyValue(content);
      && (r.hasKey <==> ':' in content)
      && (!r.hasKey ==> r.key == "" && r.value == content)
      && (r.hasKey && EndsWith(content, ":") ==> r.key == Strip(content[..|content| - 1]) && r.value == "")
      && (r.hasKey && !EndsWith(content, ":") ==>
          exists i :: 0 <= i < |content| && content[i] == ':' && ':' !in content[..i]
            && r.key == Strip(content[..i]) && r.value == Strip(content[i + 1..]))
  {
    if ':' in content && !EndsWith(content, ":") {
      var i := FirstIndexOf(content, ':');
      assert content[i] == ':' && ':' !in content[..i];
    }
  }

  // --------------------------------------------------------------- scalars

  /** The end of the longest `digit ('_'? digit)*` run that continues after a digit at `j - 1`. */
  function DigitRunFrom(s: string, j: nat): (e: nat)
    requires j <= |s|
    ensures j <= e <= |s|
    ensures forall k :: j <= k < e ==> IsDigit(s[k]) || s[k] == '_'
    ensures e > j ==> IsDigit(s[e - 1])
    decreases |s| - j
  {
    if j < |s| && IsDigit(s[j]) then DigitRunFrom(s, j + 1)
    else if j + 1 < |s| && s[j] == '_' && IsDigit(s[j + 1]) then DigitRunFrom(s, j + 2)
    else j
  }

  /** The end of a digit part starting at `i`, or `i` when none starts there. */
  function DigitPartEnd(s: string, i: nat): (e: nat)
    requires i <= |s|
    ensures i <= e <= |s|
    ensures forall k :: i <= k < e ==> IsDigit(s[k]) || s[k] == '_'
  {
    if i < |s| && IsDigit(s[i]) then DigitRunFrom(s, i + 1) else i
  }

  function SignEnd(s: string, i: nat): (e: nat)
    requires i <= |s|
    ensures i <= e <= |s|
  {
    if i < |s| && (s[i] == '+' || s[i] == '-') then i + 1 else i
  }

  /** Text `int()` accepts: an optional sign and one digit part. */
  predicate IsIntText(s: string)
  {
    var p := SignEnd(s, 0);
    var e := DigitPartEnd(s, p);
    e > p && e == |s|
  }

  function WithoutUnderscores(s: string): (r: string)
    ensures '_' !in r
    ensures (forall i :: 0 <= i < |s| ==> IsDigit(s[i]) || s[i] == '_') ==> AllDigits(r)
  {
    if s == [] then []
    else (if s[0] == '_' then [] else [s[0]]) + WithoutUnderscores(s[1..])
  }

  /** `int(s)` for text `int()` accepts. */
  function IntValue(s: string): int
    requires IsIntText(s)
  {
    var p := SignEnd(s, 0);
    var n: int := DigitsValue(WithoutUnderscores(s[p..]));
    if p == 1 && s[0] == '-' then -n else n
  }

  /** An exponent `[eE] sign? digitpart` from `i` to the end of `s`. */
  predicate ExponentFrom(s: string, i: nat)
    requires i <= |s|
  {
    i < |s| && (s[i] == 'e' || s[i] == 'E') &&
    var q := SignEnd(s, i + 1);
    var e := DigitPartEnd(s, q);
    e > q && e == |s|
  }

  /** Text with a `.` that `float()` accepts: `sign? digits? . digits? exponent?` with a digit beside the point. */
  predicate IsFloatText(s: string)
  {
    var p := SignEnd(s, 0);
    var a := DigitPartEnd(s, p);
    a < |s| && s[a] == '.' &&
    var b := DigitPartEnd(s, a + 1);
    (a > p || b > a + 1) && (b == |s| || ExponentFrom(s, b))
  }

  predicate IsContainer(v: Value) { v.VList? || v.VDict? }

  predicate IsKeyword(lowered: string) { lowered in {"true", "false", "null", "none", "~"} }

  predicate Bracketed(v: string, open: string, close: string) { StartsWith(v, open) && EndsWith(v, close) }

  /** `value[1:-1]`. */
  function Inner(v: string): string
  {
    if |v| < 2 then "" else v[1..|v| - 1]
  }

  /** The value of a keyword, compared after lower-casing. */
  function Keyword(lowered: string): Option<Value>
  {
    if lowered == "true" then Some(VBool(true))
    else if lowered == "false" then Some(VBool(false))
    else if lowered in {"null", "none", "~"} then Some(VNone)
    else None
  }

  /** `int(value)` or `float(value)` when the text has that syntax, else the text itself. */
  function ParseNumber(value: string): Value
  {
    if '.' in value then
      if IsFloatText(value) then VFloat(value) else VStr(value)
    else if IsIntText(value) then VInt(IntValue(value))
    else VStr(value)
  }

  /** `_parse_value`: keywords, inline collections, quoted text, numbers, else the text itself. */
  function ParseValue(value: string, eval: LiteralEval): Value
  {
    if value == "" then VStr("")
    else if Keyword(Lower(value)).Some? then Keyword(Lower(value)).value
    else if Bracketed(value, "[", "]") || Bracketed(value, "{", "}") then
      eval(value).GetOr(VStr(value))
    else if Bracketed(value, "\"", "\"") || Bracketed(value, "'", "'") then VStr(Inner(value))
    else ParseNumber(value)
  }

  /**
   * What each kind of result says about the text: the empty text and the
   * keywords, text kept when nothing else applies, numbers only from number
   * syntax or from an inline collection.
   */
  lemma ParseValueCases(value: string, eval: LiteralEval)
    ensures var r := ParseValue(value, eval);
      && (value == "" ==> r == VStr(""))
      && (Lower(value) == "true" ==> r == VBool(true))
      && (Lower(value) == "false" ==> r == VBool(false))
      && (Lower(value) in {"null", "none", "~"} ==> r == VNone)
      && (r.VStr? ==> eval(value) == Some(r) || r.s == value || r.s == Inner(value))
      && (r.VInt? ==> eval(value) == Some(r) || (IsIntText(value) && r.i == IntValue(value)))
      && (r.VFloat? ==> eval(value) == Some(r) || (IsFloatText(value) && r.text == value))
  {
  }

  lemma {:induction false} DigitRunOfDigits(s: string, j: nat)
    requires j <= |s| && forall k :: j <= k < |s| ==> IsDigit(s[k])
    ensures DigitRunFrom(s, j) == |s|
    decreases |s| - j
  {
    if j < |s| {
      DigitRunOfDigits(s, j + 1);
    }
  }

  lemma {:induction false} WithoutUnderscoresOfDigits(s: string)
    requires AllDigits(s)
    ensures WithoutUnderscores(s) == s
  {
    if s != [] {
      WithoutUnderscoresOfDigits(s[1..]);
    }
  }

  /** Writing a natural number in decimal and reading it back gives the same integer. */
  lemma ParseValueOfNat(n: nat, eval: LiteralEval)
    ensures ParseValue(NatToString(n), eval) == VInt(n)
  {
    var s := NatToString(n);
    assert IsDigit(s[0]);
    assert Lower(s)[0] == s[0];
    assert Keyword(Lower(s)) == None;
    assert !Bracketed(s, "[", "]") && !Bracketed(s, "{", "}");
    assert !Bracketed(s, "\"", "\"") && !Bracketed(s, "'", "'");
    assert '.' !in s;
    assert SignEnd(s, 0) == 0;
    DigitRunOfDigits(s, 1);
    assert IsIntText(s);
    assert s[0..] == s;
    WithoutUnderscoresOfDigits(s);
    DigitsValueOfNatToString(n);
    assert ParseNumber(s) == VInt(n);
  }

  /** Any text between double quotes reads back as that text. */
  lemma ParseValueOfQuoted(s: string, eval: LiteralEval)
    ensures ParseValue("\"" + s + "\"", eval) == VStr(s)
  {
    var v := "\"" + s + "\"";
    assert Lower(v)[0] == '"';
    assert Keyword(Lower(v)) == None;
    assert !Bracketed(v, "[", "]") && !Bracketed(v, "{", "}");
    assert Bracketed(v, "\"", "\"");
    assert Inner(v) == s;
  }

  /** The keywords are recognised whatever their letter case. */
  lemma ParseValueOfKeyword(value: string, eval: LiteralEval)
    requires IsKeyword(Lower(value))
    ensures ParseValue(value, eval) ==
      if Lower(value) == "true" then VBool(true)
      else if Lower(value) == "false" then VBool(false)
      else VNone
  {
  }

  /** `_initialise_container`: only the token right after decides. */
  function InitialiseContainer(tokens: seq<Token>, index: nat, indent: int): (r: Value)
    ensures r == VList([]) <==>
      index + 1 < |tokens| && tokens[index + 1].indent > indent && StartsWith(tokens[index + 1].content, "- ")
    ensures r != VList([]) ==> r == VDict([])
  {
    if index + 1 < |tokens| && tokens[index + 1].indent > indent && StartsWith(tokens[index + 1].content, "- ")
    then VList([])
    else VDict([])
  }

  // ----------------------------------------------------------------- arena

  datatype Slot = Imm(v: Value) | Ref(id: nat)
  datatype Cell = ListCell(items: seq<Slot>) | DictCell(entries: seq<(string, Slot)>)
  /** A stack entry: the indent that opened the container and the container's cell. */
  datatype Frame = Frame(indent: int, id: nat)
  datatype State = State(arena: seq<Cell>, stack: seq<Frame>)

  datatype ParseError = ListItemOutsideList | KeyValueOutsideMapping | BareValueInMapping(content: string)

  /** `str(exc)` of the `ValueError` the parser raises. */
  function Message(e: ParseError): string
  {
    match e
    case ListItemOutsideList => "List item found but parent is not a list"
    case KeyValueOutsideMapping => "Key/value pair found but parent is not a mapping"
    case BareValueInMapping(content) => "Unexpected bare value '" + content + "' inside mapping"
  }

  /** A reference held by cell `owner` points to a later cell. */
  predicate SlotOk(n: nat, owner: nat, s: Slot) { s.Ref? ==> owner < s.id < n }

  predicate CellOk(n: nat, owner: nat, c: Cell)
  {
    match c
    case ListCell(items) => forall i :: 0 <= i < |items| ==> SlotOk(n, owner, items[i])
    case DictCell(entries) => forall i :: 0 <= i < |entries| ==> SlotOk(n, owner, entries[i].1)
  }

  predicate ArenaOk(arena: seq<Cell>)
  {
    forall j :: 0 <= j < |arena| ==> CellOk(|arena|, j, arena[j])
  }

  /** The root frame at the bottom, then frames of real indents that never decrease. */
  predicate StackOk(stack: seq<Frame>, n: nat)
  {
    && |stack| >= 1
    && stack[0] == Frame(-1, 0)
    && (forall k :: 0 < k < |stack| ==> 0 <= stack[k].indent && stack[k].id < n)
    && (forall k :: 0 < k < |stack| ==> stack[k - 1].indent <= stack[k].indent)
  }

  predicate Valid(st: State)
  {
    && |st.arena| >= 1
    && st.arena[0].DictCell?
    && ArenaOk(st.arena)
    && StackOk(st.stack, |st.arena|)
  }

  function Initial(): (st: State)
    ensures Valid(st)
  {
    State([DictCell([])], [Frame(-1, 0)])
  }

  /** The Python value a cell stands for once parsing is over. */
  function CellValue(arena: seq<Cell>, id: nat): Value
    requires ArenaOk(arena) && id < |arena|
    decreases |arena| - id, 2
  {
    assert CellOk(|arena|, id, arena[id]);
    match arena[id]
    case ListCell(items) => VList(ItemValues(arena, id, items))
    case DictCell(entries) => VDict(EntryValues(arena, id, entries))
  }

  function ItemValues(arena: seq<Cell>, owner: nat, items: seq<Slot>): (r: seq<Value>)
    requires ArenaOk(arena) && owner < |arena|
    requires forall i :: 0 <= i < |items| ==> SlotOk(|arena|, owner, items[i])
    ensures |r| == |items|
    decreases |arena| - owner, 1, |items|
  {
    if items == [] then [] else [SlotValue(arena, owner, items[0])] + ItemValues(arena, owner, items[1..])
  }

  function EntryValues(arena: seq<Cell>, owner: nat, entries: seq<(string, Slot)>): (r: seq<(string, Value)>)
    requires ArenaOk(arena) && owner < |arena|
    requires forall i :: 0 <= i < |entries| ==> SlotOk(|arena|, owner, entries[i].1)
    ensures Keys(r) == Keys(entries)
    decreases |arena| - owner, 1, |entries|
  {
    if entries == [] then []
    else [(entries[0].0, SlotValue(arena, owner, entries[0].1))] + EntryValues(arena, owner, entries[1..])
  }

  function SlotValue(arena: seq<Cell>, owner: nat, s: Slot): Value
    requires ArenaOk(arena) && owner < |arena| && SlotOk(|arena|, owner, s)
    decreases |arena| - owner, 0
  {
    match s
    case Imm(v) => v
    case Ref(c) => CellValue(arena, c)
  }

  function ImmItems(items: seq<Value>): (r: seq<Slot>)
    ensures |r| == |items| && forall i :: 0 <= i < |items| ==> r[i].Imm?
  {
    if items == [] then [] else [Imm(items[0])] + ImmItems(items[1..])
  }

  function ImmEntries(entries: seq<(string, Value)>): (r: seq<(string, Slot)>)
    ensures |r| == |entries| && forall i :: 0 <= i < |entries| ==> r[i].1.Imm?
  {
    if entries == [] then [] else [(entries[0].0, Imm(entries[0].1))] + ImmEntries(entries[1..])
  }

  /** A container value gets a cell of its own, since the stack may later extend it; anything else stays inline. */
  function Alloc(arena: seq<Cell>, v: Value): (r: (seq<Cell>, Slot))
    ensures r.1.Imm? <==> !IsContainer(v)
    ensures r.1.Imm? ==> r.0 == arena && r.1.v == v
    ensures r.1.Ref? ==> r.1.id == |arena| && |r.0| == |arena| + 1 && r.0[..|arena|] == arena
    ensures |arena| <= |r.0|
  {
    match v
    case VList(items) => (arena + [ListCell(ImmItems(items))], Ref(|arena|))
    case VDict(entries) => (arena + [DictCell(ImmEntries(entries))], Ref(|arena|))
    case _ => (arena, Imm(v))
  }

  lemma AllocOk(arena: seq<Cell>, v: Value)
    requires ArenaOk(arena)
    ensures ArenaOk(Alloc(arena, v).0)
  {
    match v
    case VList(items) => ArenaOkExtend(arena, ListCell(ImmItems(items)));
    case VDict(entries) => ArenaOkExtend(arena, DictCell(ImmEntries(entries)));
    case _ =>
  }

  /** `parent.append(s)`. */
  function Append(arena: seq<Cell>, parent: nat, s: Slot): (r: seq<Cell>)
    requires parent < |arena| && arena[parent].ListCell?
    ensures |r| == |arena|
  {
    arena[parent := ListCell(arena[parent].items + [s])]
  }

  /** `parent[key] = s`. */
  function SetKey(arena: seq<Cell>, parent: nat, key: string, s: Slot): (r: seq<Cell>)
    requires parent < |arena| && arena[parent].DictCell?
    ensures |r| == |arena|
  {
    arena[parent := DictCell(Update(arena[parent].entries, key, s))]
  }

  /** Push the value's container, if it is one. */
  function PushIf(stack: seq<Frame>, indent: int, s: Slot): seq<Frame>
  {
    if s.Ref? then stack + [Frame(indent, s.id)] else stack
  }

  /** Pop containers until the top one was opened at a smaller indent (the root is never popped). */
  function PopTo(stack: seq<Frame>, indent: int): (p: seq<Frame>)
    requires |stack| >= 1
    ensures 1 <= |p| <= |stack| && p == stack[..|p|]
    ensures |p| == 1 || p[|p| - 1].indent < indent
    ensures forall k :: |p| <= k < |stack| ==> indent <= stack[k].indent
    decreases |stack|
  {
    if |stack| > 1 && indent <= stack[|stack| - 1].indent then PopTo(stack[..|stack| - 1], indent)
    else stack
  }

  /** On a well-formed stack, popping keeps exactly the frames opened at a smaller indent. */
  lemma PopToKeepsSmaller(stack: seq<Frame>, n: nat, indent: nat)
    requires StackOk(stack, n)
    ensures var p := PopTo(stack, indent);
      (forall k :: 0 <= k < |p| ==> stack[k].indent < indent)
      && (forall k :: |p| <= k < |stack| ==> indent <= stack[k].indent)
  {
    var p := PopTo(stack, indent);
    forall k | 0 <= k < |p|
      ensures stack[k].indent < indent
    {
      StackSorted(stack, n, k, |p| - 1);
    }
  }

  lemma {:induction false} StackSorted(stack: seq<Frame>, n: nat, i: nat, j: nat)
    requires StackOk(stack, n) && i <= j < |stack|
    ensures stack[i].indent <= stack[j].indent
    decreases j - i
  {
    if i < j {
      StackSorted(stack, n, i, j - 1);
    }
  }

  function Parent(stack: seq<Frame>): nat
    requires |stack| >= 1
  {
    stack[|stack| - 1].id
  }

  /** The stack's top is a real cell of the arena. */
  predicate HasParent(arena: seq<Cell>, stack: seq<Frame>)
  {
    |stack| >= 1 && Parent(stack) < |arena|
  }

  /** `- ` alone: a new empty mapping becomes the list's next item and the top of the stack. */
  function EmptyItem(arena: seq<Cell>, stack: seq<Frame>, indent: nat): State
    requires HasParent(arena, stack) && arena[Parent(stack)].ListCell?
  {
    var n := |arena|;
    State(Append(arena, Parent(stack), Ref(n)) + [DictCell([])], stack + [Frame(indent, n)])
  }

  /** `- key: value` or `- key:`: a new mapping holding the pair becomes the list's next item. */
  function KeyedItem(arena: seq<Cell>, stack: seq<Frame>, indent: nat, kv: KeyValue, eval: LiteralEval): State
    requires HasParent(arena, stack) && arena[Parent(stack)].ListCell?
  {
    var n := |arena|;
    var a1 := Append(arena, Parent(stack), Ref(n)) + [DictCell([])];
    if kv.value != "" then
      var al := Alloc(a1, ParseValue(kv.value, eval));
      State(al.0[n := DictCell(Update([], kv.key, al.1))], PushIf(stack, indent, al.1) + [Frame(indent, n)])
    else
      State(a1, stack + [Frame(indent, n)])
  }

  /** `- value`: the value becomes the list's next item, and the top of the stack when it is a container. */
  function ValueItem(arena: seq<Cell>, stack: seq<Frame>, indent: nat, item: string, eval: LiteralEval): State
    requires HasParent(arena, stack) && arena[Parent(stack)].ListCell?
  {
    var al := Alloc(arena, ParseValue(item, eval));
    assert al.0[Parent(stack)] == al.0[..|arena|][Parent(stack)];
    State(Append(al.0, Parent(stack), al.1), PushIf(stack, indent, al.1))
  }

  /** A line starting with `- `. */
  function ListItem(arena: seq<Cell>, stack: seq<Frame>, tok: Token, eval: LiteralEval): Result<State, ParseError>
    requires HasParent(arena, stack) && StartsWith(tok.content, "- ")
  {
    if !arena[Parent(stack)].ListCell? then Err(ListItemOutsideList)
    else
      var item := Strip(tok.content[2..]);
      if item == "" then Ok(EmptyItem(arena, stack, tok.indent))
      else
        var kv := SplitKeyValue(item);
        if kv.hasKey then Ok(KeyedItem(arena, stack, tok.indent, kv, eval))
        else Ok(ValueItem(arena, stack, tok.indent, item, eval))
  }

  /** A `key: value` or `key:` line; an empty value opens the container the next line asks for. */
  function KeyLine(arena: seq<Cell>, stack: seq<Frame>, tokens: seq<Token>, index: nat, kv: KeyValue, eval: LiteralEval)
    : Result<State, ParseError>
    requires index < |tokens| && HasParent(arena, stack)
  {
    var indent := tokens[index].indent;
    var value := if kv.value == "" then InitialiseContainer(tokens, index, indent) else ParseValue(kv.value, eval);
    if !arena[Parent(stack)].DictCell? then Err(KeyValueOutsideMapping)
    else
      var al := Alloc(arena, value);
      assert al.0[Parent(stack)] == al.0[..|arena|][Parent(stack)];
      Ok(State(SetKey(al.0, Parent(stack), kv.key, al.1), PushIf(stack, indent, al.1)))
  }

  /** Any other line: an item of a list parent, an error under a mapping. */
  function BareLine(arena: seq<Cell>, stack: seq<Frame>, tok: Token, eval: LiteralEval): Result<State, ParseError>
    requires HasParent(arena, stack)
  {
    if arena[Parent(stack)].ListCell? then
      Ok(State(Append(arena, Parent(stack), Imm(ParseValue(tok.content, eval))), stack))
    else
      Err(BareValueInMapping(tok.content))
  }

  /** The work of one token once its parent is on top of the stack. */
  function Handle(arena: seq<Cell>, stack: seq<Frame>, tokens: seq<Token>, index: nat, eval: LiteralEval)
    : Result<State, ParseError>
    requires index < |tokens| && HasParent(arena, stack)
  {
    var tok := tokens[index];
    if StartsWith(tok.content, "- ") then ListItem(arena, stack, tok, eval)
    else
      var kv := SplitKeyValue(tok.content);
      if kv.hasKey then KeyLine(arena, stack, tokens, index, kv, eval)
      else BareLine(arena, stack, tok, eval)
  }

  lemma ListItemResult(arena: seq<Cell>, stack: seq<Frame>, tok: Token, eval: LiteralEval)
    requires HasParent(arena, stack) && StartsWith(tok.content, "- ")
    ensures var r := ListItem(arena, stack, tok, eval);
      (r.Err? <==> !arena[Parent(stack)].ListCell?) && (r.Err? ==> r.error == ListItemOutsideList)
  {
  }

  lemma KeyLineResult(arena: seq<Cell>, stack: seq<Frame>, tokens: seq<Token>, index: nat, kv: KeyValue, eval: LiteralEval)
    requires index < |tokens| && HasParent(arena, stack)
    ensures var r := KeyLine(arena, stack, tokens, index, kv, eval);
      (r.Err? <==> !arena[Parent(stack)].DictCell?) && (r.Err? ==> r.error == KeyValueOutsideMapping)
  {
  }

  /**
   * The three errors of the parser: a list item under a mapping, a key under a
   * list, a bare value under a mapping; every other token is accepted.
   */
  lemma HandleErrors(arena: seq<Cell>, stack: seq<Frame>, tokens: seq<Token>, index: nat, eval: LiteralEval)
    requires index < |tokens| && HasParent(arena, stack)
    ensures var r := Handle(arena, stack, tokens, index, eval);
      var content := tokens[index].content;
      var parent := arena[Parent(stack)];
      && (r == Err(ListItemOutsideList) <==> StartsWith(content, "- ") && !parent.ListCell?)
      && (r == Err(KeyValueOutsideMapping) <==>
          !StartsWith(content, "- ") && ':' in content && !parent.DictCell?)
      && (r == Err(BareValueInMapping(content)) <==>
          !StartsWith(content, "- ") && ':' !in content && !parent.ListCell?)
      && (r.Err? ==> r.error in {ListItemOutsideList, KeyValueOutsideMapping, BareValueInMapping(content)})
  {
    var tok := tokens[index];
    assert SplitKeyValue(tok.content).hasKey <==> ':' in tok.content;
    var r := Handle(arena, stack, tokens, index, eval);
    if StartsWith(tok.content, "- ") {
      assert r == ListItem(arena, stack, tok, eval);
      ListItemResult(arena, stack, tok, eval);
    } else if ':' in tok.content {
      var kv := SplitKeyValue(tok.content);
      assert r == KeyLine(arena, stack, tokens, index, kv, eval);
      KeyLineResult(arena, stack, tokens, index, kv, eval);
    } else {
      assert r == BareLine(arena, stack, tok, eval);
    }
  }

  /** One iteration of the parser's loop: pop to the parent, then handle the token. */
  function Step(st: State, tokens: seq<Token>, index: nat, eval: LiteralEval): Result<State, ParseError>
    requires index < |tokens| && Valid(st)
  {
    PopToValid(st, tokens[index].indent);
    Handle(st.arena, PopTo(st.stack, tokens[index].indent), tokens, index, eval)
  }

  /** Popping keeps the state valid, and the token's frames may then be pushed. */
  lemma PopToValid(st: State, indent: nat)
    requires Valid(st)
    ensures var p := PopTo(st.stack, indent);
      Valid(State(st.arena, p)) && HasParent(st.arena, p) && Pushable(p, indent)
  {
    var p := PopTo(st.stack, indent);
    assert StackOk(p, |st.arena|);
  }

  /** The parser's state after the first `n` tokens. */
  function Run(tokens: seq<Token>, n: nat, eval: LiteralEval): (r: Result<State, ParseError>)
    requires n <= |tokens|
    ensures r.Ok? ==> Valid(r.value)
    decreases n, 1
  {
    if n == 0 then Ok(Initial())
    else
      var m: nat := n - 1;
      After(tokens, m, eval)
  }

  /** The parser's state once token `i` is handled: an earlier error stops the parse. */
  function After(tokens: seq<Token>, i: nat, eval: LiteralEval): (r: Result<State, ParseError>)
    requires i < |tokens|
    ensures r.Ok? ==> Valid(r.value)
    decreases i + 1, 0
  {
    match Run(tokens, i, eval)
    case Err(e) => Err(e)
    case Ok(st) =>
      StepKeepsValid(st, tokens, i, eval);
      Step(st, tokens, i, eval)
  }

  /** The state after `i + 1` tokens, when the first `i` leave the state `st`. */
  lemma RunFrom(tokens: seq<Token>, i: nat, j: nat, st: State, eval: LiteralEval)
    requires i < j == i + 1 <= |tokens| && Run(tokens, i, eval) == Ok(st)
    ensures Valid(st) && Run(tokens, j, eval) == Step(st, tokens, i, eval)
  {
    assert Run(tokens, j, eval) == After(tokens, i, eval);
  }

  /** `_parse`: the root mapping once every token is handled. */
  function ParseSpec(tokens: seq<Token>, eval: LiteralEval): (r: Result<Value, ParseError>)
    ensures r.Ok? ==> r.value.VDict?
  {
    match Run(tokens, |tokens|, eval)
    case Err(e) => Err(e)
    case Ok(st) => Ok(CellValue(st.arena, 0))
  }

  // ------------------------------------------------------------ invariants

  lemma CellOkGrow(n: nat, m: nat, owner: nat, c: Cell)
    requires CellOk(n, owner, c) && n <= m
    ensures CellOk(m, owner, c)
  {
  }

  lemma ArenaOkExtend(arena: seq<Cell>, c: Cell)
    requires ArenaOk(arena) && CellOk(|arena| + 1, |arena|, c)
    ensures ArenaOk(arena + [c])
  {
    var a := arena + [c];
    forall j | 0 <= j < |a|
      ensures CellOk(|a|, j, a[j])
    {
      if j < |arena| {
        CellOkGrow(|arena|, |a|, j, arena[j]);
      }
    }
  }

  lemma ArenaOkReplace(arena: seq<Cell>, j: nat, c: Cell)
    requires ArenaOk(arena) && j < |arena| && CellOk(|arena|, j, c)
    ensures ArenaOk(arena[j := c])
  {
  }

  lemma AppendOk(arena: seq<Cell>, parent: nat, s: Slot)
    requires ArenaOk(arena) && parent < |arena| && arena[parent].ListCell? && SlotOk(|arena|, parent, s)
    ensures ArenaOk(Append(arena, parent, s))
  {
    var items := arena[parent].items + [s];
    assert CellOk(|arena|, parent, arena[parent]);
    assert CellOk(|arena|, parent, ListCell(items));
    ArenaOkReplace(arena, parent, ListCell(items));
  }

  lemma {:induction false} UpdateSlotsOk(entries: seq<(string, Slot)>, n: nat, owner: nat, k: string, s: Slot)
    requires forall i :: 0 <= i < |entries| ==> SlotOk(n, owner, entries[i].1)
    requires SlotOk(n, owner, s)
    ensures var r := Update(entries, k, s); forall i :: 0 <= i < |r| ==> SlotOk(n, owner, r[i].1)
  {
    if entries != [] && entries[0].0 != k {
      UpdateSlotsOk(entries[1..], n, owner, k, s);
      var r := Update(entries, k, s);
      assert r == [entries[0]] + Update(entries[1..], k, s);
      forall i | 0 <= i < |r|
        ensures SlotOk(n, owner, r[i].1)
      {
        if i > 0 {
          assert r[i] == Update(entries[1..], k, s)[i - 1];
        }
      }
    }
  }

  lemma SetKeyOk(arena: seq<Cell>, parent: nat, key: string, s: Slot)
    requires ArenaOk(arena) && parent < |arena| && arena[parent].DictCell? && SlotOk(|arena|, parent, s)
    ensures ArenaOk(SetKey(arena, parent, key, s))
  {
    var n: nat := |arena|;
    assert CellOk(n, parent, arena[parent]);
    UpdateSlotsOk(arena[parent].entries, n, parent, key, s);
    assert CellOk(n, parent, DictCell(Update(arena[parent].entries, key, s)));
    ArenaOkReplace(arena, parent, DictCell(Update(arena[parent].entries, key, s)));
  }

  lemma StackPush(stack: seq<Frame>, n: nat, m: nat, f: Frame)
    requires StackOk(stack, n) && n <= m && 0 <= f.indent && f.id < m
    requires stack[|stack| - 1].indent <= f.indent
    ensures StackOk(stack + [f], m)
  {
  }

  lemma StackGrow(stack: seq<Frame>, n: nat, m: nat)
    requires StackOk(stack, n) && n <= m
    ensures StackOk(stack, m)
  {
  }

  /** The new frame may go on top: a real indent, not below the current top. */
  predicate Pushable(stack: seq<Frame>, indent: nat)
  {
    |stack| >= 1 && stack[|stack| - 1].indent <= indent
  }

  lemma PushIfOk(stack: seq<Frame>, n: nat, m: nat, indent: nat, s: Slot)
    requires StackOk(stack, n) && n <= m && Pushable(stack, indent) && (s.Ref? ==> s.id < m)
    ensures StackOk(PushIf(stack, indent, s), m) && Pushable(PushIf(stack, indent, s), indent)
  {
    if s.Ref? {
      StackPush(stack, n, m, Frame(indent, s.id));
    } else {
      StackGrow(stack, n, m);
    }
  }

  /** Appending a new empty mapping as the next item of list cell `parent`. */
  lemma NewItemOk(arena: seq<Cell>, parent: nat)
    requires ArenaOk(arena) && parent < |arena| && arena[parent].ListCell?
    ensures ArenaOk(Append(arena, parent, Ref(|arena|)) + [DictCell([])])
  {
    var n := |arena|;
    var a := arena + [DictCell([])];
    ArenaOkExtend(arena, DictCell([]));
    AppendOk(a, parent, Ref(n));
    assert Append(a, parent, Ref(n)) == Append(arena, parent, Ref(n)) + [DictCell([])];
  }

  lemma EmptyItemOk(arena: seq<Cell>, stack: seq<Frame>, indent: nat)
    requires Valid(State(arena, stack)) && HasParent(arena, stack) && arena[Parent(stack)].ListCell?
    requires Pushable(stack, indent)
    ensures Valid(EmptyItem(arena, stack, indent))
  {
    var n := |arena|;
    NewItemOk(arena, Parent(stack));
    StackPush(stack, n, n + 1, Frame(indent, n));
  }

  lemma KeyedItemOk(arena: seq<Cell>, stack: seq<Frame>, indent: nat, kv: KeyValue, eval: LiteralEval)
    requires Valid(State(arena, stack)) && HasParent(arena, stack) && arena[Parent(stack)].ListCell?
    requires Pushable(stack, indent)
    ensures Valid(KeyedItem(arena, stack, indent, kv, eval))
  {
    var n := |arena|;
    NewItemOk(arena, Parent(stack));
    var a1 := Append(arena, Parent(stack), Ref(n)) + [DictCell([])];
    if kv.value != "" {
      var v := ParseValue(kv.value, eval);
      var al := Alloc(a1, v);
      AllocOk(a1, v);
      assert CellOk(|al.0|, n, DictCell(Update([], kv.key, al.1)));
      ArenaOkReplace(al.0, n, DictCell(Update([], kv.key, al.1)));
      PushIfOk(stack, n, |al.0|, indent, al.1);
      StackPush(PushIf(stack, indent, al.1), |al.0|, |al.0|, Frame(indent, n));
    } else {
      StackPush(stack, n, n + 1, Frame(indent, n));
    }
  }

  lemma ValueItemOk(arena: seq<Cell>, stack: seq<Frame>, indent: nat, item: string, eval: LiteralEval)
    requires Valid(State(arena, stack)) && HasParent(arena, stack) && arena[Parent(stack)].ListCell?
    requires Pushable(stack, indent)
    ensures Valid(ValueItem(arena, stack, indent, item, eval))
  {
    var v := ParseValue(item, eval);
    var al := Alloc(arena, v);
    AllocOk(arena, v);
    assert al.0[Parent(stack)] == al.0[..|arena|][Parent(stack)];
    AppendOk(al.0, Parent(stack), al.1);
    PushIfOk(stack, |arena|, |al.0|, indent, al.1);
  }

  lemma KeyLineOk(arena: seq<Cell>, stack: seq<Frame>, tokens: seq<Token>, index: nat, kv: KeyValue, eval: LiteralEval)
    requires index < |tokens| && Valid(State(arena, stack)) && HasParent(arena, stack)
    requires Pushable(stack, tokens[index].indent)
    ensures var r := KeyLine(arena, stack, tokens, index, kv, eval); r.Ok? ==> Valid(r.value)
  {
    if arena[Parent(stack)].DictCell? {
      var indent := tokens[index].indent;
      var value := if kv.value == "" then InitialiseContainer(tokens, index, indent) else ParseValue(kv.value, eval);
      var al := Alloc(arena, value);
      AllocOk(arena, value);
      assert al.0[Parent(stack)] == al.0[..|arena|][Parent(stack)];
      SetKeyOk(al.0, Parent(stack), kv.key, al.1);
      PushIfOk(stack, |arena|, |al.0|, indent, al.1);
    }
  }

  /** Handling a token keeps the arena and the stack well formed. */
  lemma HandleKeepsValid(arena: seq<Cell>, stack: seq<Frame>, tokens: seq<Token>, index: nat, eval: LiteralEval)
    requires index < |tokens| && Valid(State(arena, stack)) && HasParent(arena, stack)
    requires Pushable(stack, tokens[index].indent)
    ensures var r := Handle(arena, stack, tokens, index, eval); r.Ok? ==> Valid(r.value)
  {
    var tok := tokens[index];
    if StartsWith(tok.content, "- ") {
      if arena[Parent(stack)].ListCell? {
        var item := Strip(tok.content[2..]);
        if item == "" {
          EmptyItemOk(arena, stack, tok.indent);
        } else if SplitKeyValue(item).hasKey {
          KeyedItemOk(arena, stack, tok.indent, SplitKeyValue(item), eval);
        } else {
          ValueItemOk(arena, stack, tok.indent, item, eval);
        }
      }
    } else if SplitKeyValue(tok.content).hasKey {
      KeyLineOk(arena, stack, tokens, index, SplitKeyValue(tok.content), eval);
    } else if arena[Parent(stack)].ListCell? {
      AppendOk(arena, Parent(stack), Imm(ParseValue(tok.content, eval)));
    }
  }

  lemma StepKeepsValid(st: State, tokens: seq<Token>, index: nat, eval: LiteralEval)
    requires index < |tokens| && Valid(st)
    ensures var r := Step(st, tokens, index, eval); r.Ok? ==> Valid(r.value)
  {
    PopToValid(st, tokens[index].indent);
    HandleKeepsValid(st.arena, PopTo(st.stack, tokens[index].indent), tokens, index, eval);
  }

  // ------------------------------------------------------- flat mappings

  /** A `key: scalar` line. */
  predicate FlatPair(t: Token, eval: LiteralEval)
  {
    var kv := SplitKeyValue(t.content);
    !StartsWith(t.content, "- ") && kv.hasKey && kv.value != "" && !IsContainer(ParseValue(kv.value, eval))
  }

  /** Reference reading of `key: scalar` lines: assign each key in turn. */
  function FlatEntries(tokens: seq<Token>, n: nat, eval: LiteralEval): seq<(string, Value)>
    requires n <= |tokens|
  {
    if n == 0 then []
    else
      var m: nat := n - 1;
      var kv := SplitKeyValue(tokens[m].content);
      Update(FlatEntries(tokens, m, eval), kv.key, ParseValue(kv.value, eval))
  }

  lemma FlatEntriesNext(tokens: seq<Token>, m: nat, n: nat, eval: LiteralEval)
    requires m < n == m + 1 <= |tokens|
    ensures var kv := SplitKeyValue(tokens[m].content);
      FlatEntries(tokens, n, eval) == Update(FlatEntries(tokens, m, eval), kv.key, ParseValue(kv.value, eval))
  {
  }

  lemma ImmEntriesCons(x: (string, Value), t: seq<(string, Value)>)
    ensures ImmEntries([x] + t) == [(x.0, Imm(x.1))] + ImmEntries(t)
  {
    assert ([x] + t)[1..] == t;
  }

  lemma {:induction false} ImmEntriesUpdate(entries: seq<(string, Value)>, k: string, v: Value)
    ensures ImmEntries(Update(entries, k, v)) == Update(ImmEntries(entries), k, Imm(v))
  {
    if entries != [] {
      var t := entries[1..];
      assert entries == [entries[0]] + t;
      ImmEntriesCons(entries[0], t);
      if entries[0].0 != k {
        ImmEntriesUpdate(t, k, v);
        ImmEntriesCons(entries[0], Update(t, k, v));
      } else {
        ImmEntriesCons((k, v), t);
      }
    }
  }

  lemma {:induction false} EntryValuesOfImm(arena: seq<Cell>, owner: nat, entries: seq<(string, Value)>)
    requires ArenaOk(arena) && owner < |arena|
    ensures EntryValues(arena, owner, ImmEntries(entries)) == entries
  {
    if entries != [] {
      EntryValuesOfImm(arena, owner, entries[1..]);
    }
  }

  /** A line that is not a list item and holds a colon is a key line. */
  lemma StepOfKeyLine(st: State, tokens: seq<Token>, m: nat, eval: LiteralEval)
    requires m < |tokens| && Valid(st)
    requires !StartsWith(tokens[m].content, "- ") && SplitKeyValue(tokens[m].content).hasKey
    ensures HasParent(st.arena, PopTo(st.stack, tokens[m].indent))
    ensures Step(st, tokens, m, eval)
      == KeyLine(st.arena, PopTo(st.stack, tokens[m].indent), tokens, m, SplitKeyValue(tokens[m].content), eval)
  {
    PopToValid(st, tokens[m].indent);
  }

  /** A `key: scalar` line under a mapping sets the key and pushes nothing. */
  lemma KeyLineScalar(arena: seq<Cell>, stack: seq<Frame>, tokens: seq<Token>, m: nat, kv: KeyValue, eval: LiteralEval)
    requires m < |tokens| && HasParent(arena, stack) && arena[Parent(stack)].DictCell?
    requires kv.value != "" && !IsContainer(ParseValue(kv.value, eval))
    ensures KeyLine(arena, stack, tokens, m, kv, eval)
      == Ok(State(SetKey(arena, Parent(stack), kv.key, Imm(ParseValue(kv.value, eval))), stack))
  {
    var v := ParseValue(kv.value, eval);
    assert Alloc(arena, v) == (arena, Imm(v));
  }

  /**
   * A key with nothing after its colon gets a new, empty container of its own:
   * the key refers to it and it becomes the top of the stack, so the lines
   * that follow fill it.  It is a list exactly when the next token is a more
   * deeply indented `- ` item, and a mapping otherwise.
   */
  lemma EmptyKeyOpensContainer(arena: seq<Cell>, stack: seq<Frame>, tokens: seq<Token>, m: nat, kv: KeyValue, eval: LiteralEval)
    requires m < |tokens| && HasParent(arena, stack) && arena[Parent(stack)].DictCell? && kv.value == ""
    ensures var r := KeyLine(arena, stack, tokens, m, kv, eval);
      var n := |arena|;
      var nextIsItem := m + 1 < |tokens| && tokens[m + 1].indent > tokens[m].indent
                        && StartsWith(tokens[m + 1].content, "- ");
      && r.Ok? && |r.value.arena| == n + 1
      && r.value.arena[n] == (if nextIsItem then ListCell([]) else DictCell([]))
      && r.value.arena[Parent(stack)] == DictCell(Update(arena[Parent(stack)].entries, kv.key, Ref(n)))
      && (forall k :: 0 <= k < n && k != Parent(stack) ==> r.value.arena[k] == arena[k])
      && r.value.stack == stack + [Frame(tokens[m].indent, n)]
  {
    var v := InitialiseContainer(tokens, m, tokens[m].indent);
    assert ImmItems([]) == [] && ImmEntries([]) == [];
    var al := Alloc(arena, v);
    assert al.1 == Ref(|arena|);
    assert al.0[Parent(stack)] == arena[Parent(stack)];
  }

  /** One `key: scalar` line assigns its key in the root mapping and leaves the stack alone. */
  lemma FlatStep(e: seq<(string, Value)>, tokens: seq<Token>, m: nat, eval: LiteralEval)
    requires m < |tokens| && FlatPair(tokens[m], eval)
    ensures var kv := SplitKeyValue(tokens[m].content);
      Step(State([DictCell(ImmEntries(e))], [Frame(-1, 0)]), tokens, m, eval)
        == Ok(State([DictCell(ImmEntries(Update(e, kv.key, ParseValue(kv.value, eval))))], [Frame(-1, 0)]))
  {
    var kv := SplitKeyValue(tokens[m].content);
    var v := ParseValue(kv.value, eval);
    var root := [Frame(-1, 0)];
    var arena := [DictCell(ImmEntries(e))];
    assert Valid(State(arena, root));
    assert PopTo(root, tokens[m].indent) == root;
    StepOfKeyLine(State(arena, root), tokens, m, eval);
    KeyLineScalar(arena, root, tokens, m, kv, eval);
    assert SetKey(arena, 0, kv.key, Imm(v)) == [DictCell(Update(ImmEntries(e), kv.key, Imm(v)))];
    ImmEntriesUpdate(e, kv.key, v);
  }

  lemma {:induction false} RunOfFlat(tokens: seq<Token>, n: nat, eval: LiteralEval)
    requires n <= |tokens| && forall i :: 0 <= i < |tokens| ==> FlatPair(tokens[i], eval)
    ensures Run(tokens, n, eval) == Ok(State([DictCell(ImmEntries(FlatEntries(tokens, n, eval)))], [Frame(-1, 0)]))
  {
    if n > 0 {
      var m: nat := n - 1;
      var e := FlatEntries(tokens, m, eval);
      var st := State([DictCell(ImmEntries(e))], [Frame(-1, 0)]);
      RunOfFlat(tokens, m, eval);
      RunFrom(tokens, m, n, st, eval);
      FlatStep(e, tokens, m, eval);
      FlatEntriesNext(tokens, m, n, eval);
    }
  }

  /** A document of `key: scalar` lines parses to the mapping that assigns each key in turn. */
  lemma FlatMapping(tokens: seq<Token>, eval: LiteralEval)
    requires forall i :: 0 <= i < |tokens| ==> FlatPair(tokens[i], eval)
    ensures ParseSpec(tokens, eval) == Ok(VDict(FlatEntries(tokens, |tokens|, eval)))
  {
    var e := FlatEntries(tokens, |tokens|, eval);
    var arena := [DictCell(ImmEntries(e))];
    RunOfFlat(tokens, |tokens|, eval);
    assert ArenaOk(arena);
    EntryValuesOfImm(arena, 0, e);
    assert CellValue(arena, 0) == VDict(e);
  }

  // ---------------------------------------------------------------- parser

  lemma {:induction false} RunErrorSticks(tokens: seq<Token>, i: nat, j: nat, eval: LiteralEval)
    requires i <= j <= |tokens| && Run(tokens, i, eval).Err?
    ensures Run(tokens, j, eval) == Run(tokens, i, eval)
    decreases j - i
  {
    if i < j {
      RunErrorSticks(tokens, i, j - 1, eval);
    }
  }

  /** Once a token fails, the parse fails with its error. */
  lemma ErrorIsFinal(tokens: seq<Token>, i: nat, eval: LiteralEval)
    requires i <= |tokens| && Run(tokens, i, eval).Err?
    ensures ParseSpec(tokens, eval) == Err(Run(tokens, i, eval).error)
  {
    RunErrorSticks(tokens, i, |tokens|, eval);
  }

  /** The pop loop of `_parse`: drop containers opened at an indent not smaller than the line's. */
  method PopFrames(stack: seq<Frame>, indent: int) returns (popped: seq<Frame>)
    requires |stack| >= 1
    ensures popped == PopTo(stack, indent)
  {
    popped := stack;
    while |popped| > 1 && indent <= popped[|popped| - 1].indent
      invariant 1 <= |popped|
      invariant PopTo(popped, indent) == PopTo(stack, indent)
      decreases |popped|
    {
      popped := popped[..|popped| - 1];
    }
  }

  /** One pass of the parser's loop: pop to the parent, then handle the token. */
  method HandleToken(tokens: seq<Token>, index: nat, arena: seq<Cell>, stack: seq<Frame>, eval: LiteralEval)
    returns (res: Result<State, ParseError>)
    requires index < |tokens| && Run(tokens, index, eval) == Ok(State(arena, stack))
    ensures res == Run(tokens, index + 1, eval)
  {
    var popped := PopFrames(stack, tokens[index].indent);
    PopToValid(State(arena, stack), tokens[index].indent);
    RunFrom(tokens, index, index + 1, State(arena, stack), eval);
    res := Handle(arena, popped, tokens, index, eval);
  }

  /** `_parse`, with the pop loop of the source. */
  method Parse(tokens: seq<Token>, eval: LiteralEval) returns (r: Result<Value, ParseError>)
    ensures r == ParseSpec(tokens, eval)
  {
    var arena := [DictCell([])];
    var stack := [Frame(-1, 0)];
    for index := 0 to |tokens|
      invariant Run(tokens, index, eval) == Ok(State(arena, stack))
    {
      var res := HandleToken(tokens, index, arena, stack, eval);
      if res.Err? {
        ErrorIsFinal(tokens, index + 1, eval);
        return Err(res.error);
      }
      arena, stack := res.value.arena, res.value.stack;
    }
    r := Ok(CellValue(arena, 0));
  }

  /** `safe_load`: no tokens give `None`; a parser error becomes a `YAMLError` with its message. */
  method SafeLoad(text: string, eval: LiteralEval) returns (r: Result<Value, string>)
    ensures var tokens := TokensOf(SplitLines(text));
      && (tokens == [] ==> r == Ok(VNone))
      && (tokens != [] && ParseSpec(tokens, eval).Ok? ==> r == Ok(ParseSpec(tokens, eval).value))
      && (tokens != [] && ParseSpec(tokens, eval).Err? ==> r == Err(Message(ParseSpec(tokens, eval).error)))
    ensures r.Ok? ==> r.value.VNone? || r.value.VDict?
  {
    var tokens := Tokenise(text);
    if tokens == [] {
      return Ok(VNone);
    }
    var p := Parse(tokens, eval);
    match p
    case Ok(v) => r := Ok(v);
    case Err(e) => r := Err(Message(e));
  }
}
