/**
 * The ADR catalogue page built from validated ADR records: a fixed preamble,
 * a summary table with one row per record, one detailed section per record,
 * all in `adr_id` order, and a fixed footer.
 */
module AdrCatalogue {
  import opened Wrappers
  import opened Str
  import opened Values
  import Seqs
  import Lex
  import ValidateAdrs

  type Record = ValidateAdrs.AdrRecord

  /** The one way rendering fails: `"\n".join` meets a truthy `summary` that is not a string. */
  datatype CatalogueError = NonTextSummary(adrId: string)

  // ------------------------------------------------------------- table cells

  /** `_format_list`: the entries of one table cell, separated by `<br>`. */
  function FormatList(values: seq<string>): (r: string)
    ensures values == [] ==> r == ""
    ensures |values| == 1 ==> r == values[0]
  {
    Join(values, "<br>")
  }

  /** Text free of `<` holds no `<br>` of its own: counting starts after it. */
  lemma {:induction false} CountSkipsPlainText(v: string, t: string)
    requires '<' !in v
    ensures CountSub(v + t, "<br>") == CountSub(t, "<br>")
    decreases |v|
  {
    if v != [] {
      var s := v + t;
      assert s[0] == v[0];
      assert s[1..] == v[1..] + t;
      if |s| >= 4 { assert s[..4][0] == v[0]; }
      CountSkipsPlainText(v[1..], t);
    } else {
      assert v + t == t;
    }
  }

  /** One `<br>` between each pair of entries, when no entry holds a `<` itself. */
  lemma {:induction false} FormatListSeparators(values: seq<string>)
    requires values != []
    requires forall k :: 0 <= k < |values| ==> '<' !in values[k]
    ensures CountSub(FormatList(values), "<br>") == |values| - 1
    decreases |values|
  {
    if |values| == 1 {
      CountSkipsPlainText(values[0], "");
      assert values[0] + "" == values[0];
      assert CountSub("", "<br>") == 0;
    } else {
      var rest := Join(values[1..], "<br>");
      FormatListSeparators(values[1..]);
      assert FormatList(values) == values[0] + ("<br>" + rest);
      CountSkipsPlainText(values[0], "<br>" + rest);
      assert ("<br>" + rest)[..4] == "<br>" && ("<br>" + rest)[4..] == rest;
    }
  }

  // ----------------------------------------------------------- summary table

  const SummaryHeader: string := "| ADR " + "| Title " + "| Status " + "| Linked chapters " + "| Backlog items " + "| Next review |"
  const SummarySeparator: string := "| --- " + "| ----- " + "| ------ " + "| --------------- " + "| ------------- " + "| ----------- |"

  /** The row of one record: id, title, status, chapters, backlog items and the next review date. */
  function SummaryRow(rec: Record): string
  {
    "| " + rec.adrId + " | " + rec.title + " | " + rec.status
    + " | " + FormatList(rec.relatedChapters) + " | " + FormatList(rec.backlogItems)
    + " | " + ValidateAdrs.FormatDate(rec.nextReviewDue) + " |"
  }

  /** The lines `_summarise_records` collects: header, separator, then one row per record. */
  function SummaryLines(records: seq<Record>): seq<string>
  {
    [SummaryHeader, SummarySeparator] + Seqs.Map(records, SummaryRow)
  }

  /** `_summarise_records`: the table built line by line and joined by newlines. */
  method SummariseRecords(records: seq<Record>) returns (r: string)
    ensures r == Join(SummaryLines(records), "\n")
  {
    var lines := [SummaryHeader, SummarySeparator];
    var i := 0;
    while i < |records|
      invariant i <= |records|
      invariant lines == [SummaryHeader, SummarySeparator] + Seqs.Map(records[..i], SummaryRow)
    {
      assert records[..i + 1][..i] == records[..i];
      lines := lines + [SummaryRow(records[i])];
      i := i + 1;
    }
    assert records[..i] == records;
    r := Join(lines, "\n");
  }

  /** The fields the table shows hold no line break. */
  predicate SingleLine(rec: Record)
  {
    '\n' !in rec.adrId && '\n' !in rec.title && '\n' !in rec.status
    && (forall k :: 0 <= k < |rec.relatedChapters| ==> '\n' !in rec.relatedChapters[k])
    && (forall k :: 0 <= k < |rec.backlogItems| ==> '\n' !in rec.backlogItems[k])
  }

  /** Parts free of `c` joined by a separator free of `c` are free of `c`. */
  lemma {:induction false} JoinAvoids(ss: seq<string>, sep: string, c: char)
    requires c !in sep
    requires forall k :: 0 <= k < |ss| ==> c !in ss[k]
    ensures c !in Join(ss, sep)
    decreases |ss|
  {
    if |ss| >= 2 {
      JoinAvoids(ss[1..], sep, c);
    }
  }

  /** The decimal text of a date holds digits and dashes only. */
  lemma FormatDateSingleLine(d: ValidateAdrs.Date)
    ensures '\n' !in ValidateAdrs.FormatDate(d)
  {
    ValidateAdrs.PaddedDigits(d.year, 4);
    ValidateAdrs.PaddedDigits(d.month, 2);
    ValidateAdrs.PaddedDigits(d.day, 2);
    var y := ValidateAdrs.Pad(NatToString(d.year), 4);
    var m := ValidateAdrs.Pad(NatToString(d.month), 2);
    var dd := ValidateAdrs.Pad(NatToString(d.day), 2);
    assert '\n' !in y && '\n' !in m && '\n' !in dd;
  }

  lemma RowSingleLine(rec: Record)
    requires SingleLine(rec)
    ensures '\n' !in SummaryRow(rec)
  {
    JoinAvoids(rec.relatedChapters, "<br>", '\n');
    JoinAvoids(rec.backlogItems, "<br>", '\n');
    FormatDateSingleLine(rec.nextReviewDue);
  }

  lemma HeaderSingleLine()
    ensures '\n' !in SummaryHeader
  {
  }

  lemma SeparatorSingleLine()
    ensures '\n' !in SummarySeparator
  {
  }

  /** Read back line by line, the table is the header, the separator and the rows in record order. */
  lemma SummaryTable(records: seq<Record>)
    requires forall k :: 0 <= k < |records| ==> SingleLine(records[k])
    ensures var ls := Split(Join(SummaryLines(records), "\n"), '\n');
      |ls| == |records| + 2 && ls[0] == SummaryHeader && ls[1] == SummarySeparator
      && forall k :: 0 <= k < |records| ==> ls[k + 2] == SummaryRow(records[k])
  {
    var lines := SummaryLines(records);
    HeaderSingleLine();
    SeparatorSingleLine();
    forall k | 0 <= k < |lines| ensures '\n' !in lines[k] {
      if k >= 2 {
        Seqs.MapAt(records, SummaryRow, k - 2);
        RowSingleLine(records[k - 2]);
      }
    }
    SplitOfJoin(lines, '\n');
    forall k | 0 <= k < |records| ensures lines[k + 2] == SummaryRow(records[k]) {
      Seqs.MapAt(records, SummaryRow, k);
    }
  }

  // -------------------------------------------------------- detailed section

  function Bullet(v: Value): string { "- " + PyStr(v) }

  function CodeBullet(path: string): string { "- `" + path + "`" }

  function ItemBullet(item: string): string { "- " + item }

  /** The `summary` paragraph and the blank line after it, shown only when the value is truthy. */
  function SummaryPart(rec: Record): (r: Result<seq<string>, CatalogueError>)
    ensures r.Err? <==> var v := Get(rec.frontMatter, "summary"); v.Some? && Truthy(v.value) && !v.value.VStr?
  {
    var v := Get(rec.frontMatter, "summary");
    if v.None? || !Truthy(v.value) then Ok([])
    else if v.value.VStr? then Ok([v.value.s, ""])
    else Err(NonTextSummary(rec.adrId))
  }

  /** `automation_hooks`: list entries become bullets, any other truthy value is shown as `str(value)`. */
  function HooksPart(v: Option<Value>): seq<string>
  {
    if v.None? || !Truthy(v.value) then []
    else ["", "**Automation hooks**"] + (if v.value.VList? then Seqs.Map(v.value.items, Bullet) else [PyStr(v.value)])
  }

  /** `change_notes`: list entries and a single value alike become bullets. */
  function NotesPart(v: Option<Value>): seq<string>
  {
    if v.None? || !Truthy(v.value) then []
    else ["", "**Change log**"] + (if v.value.VList? then Seqs.Map(v.value.items, Bullet) else [Bullet(v.value)])
  }

  function Heading(rec: Record): string { "### " + rec.adrId + " \U{2013} " + rec.title }

  function StatusLine(rec: Record): string
  {
    "**Status:** " + rec.status + " \U{2014} initial decision recorded on " + ValidateAdrs.FormatDate(rec.date) + "."
  }

  function ReviewLine(rec: Record): string
  {
    "**Review cadence:** Last reviewed on " + ValidateAdrs.FormatDate(rec.lastReviewed)
    + "; next review due " + ValidateAdrs.FormatDate(rec.nextReviewDue) + "."
  }

  /** The lines between the summary paragraph and the optional hooks and change log. */
  function BodyLines(rec: Record): seq<string>
  {
    [StatusLine(rec), ReviewLine(rec), "",
     "**Deciders:** " + Join(rec.deciders, ", "), "**Reviewers:** " + Join(rec.reviewers, ", "), "",
     "**Linked chapters**\n" + Join(Seqs.Map(rec.relatedChapters, CodeBullet), "\n"), "",
     "**Supporting diagrams**\n" + Join(Seqs.Map(rec.relatedDiagrams, CodeBullet), "\n"), "",
     "**Backlog alignment**\n" + Join(Seqs.Map(rec.backlogItems, ItemBullet), "\n")]
  }

  /** The lines `_detailed_section` collects for one record. */
  function DetailLines(rec: Record): Result<seq<string>, CatalogueError>
  {
    match SummaryPart(rec)
    case Err(e) => Err(e)
    case Ok(summary) =>
      Ok([Heading(rec), ""] + summary + BodyLines(rec)
         + HooksPart(Get(rec.frontMatter, "automation_hooks")) + NotesPart(Get(rec.frontMatter, "change_notes")))
  }

  function DetailText(rec: Record): Result<string, CatalogueError>
  {
    match DetailLines(rec)
    case Err(e) => Err(e)
    case Ok(lines) => Ok(Join(lines, "\n"))
  }

  /** `_detailed_section`: the section's lines appended one group at a time, then joined. */
  method DetailedSection(rec: Record) returns (r: Result<string, CatalogueError>)
    ensures r == DetailText(rec)
  {
    var lines := [Heading(rec), ""];
    var summary := SummaryBlock(rec);
    if summary.Err? { return Err(summary.error); }
    lines := lines + summary.value;
    lines := lines + BodyLines(rec);
    var hooks := HooksBlock(Get(rec.frontMatter, "automation_hooks"));
    lines := lines + hooks;
    var notes := NotesBlock(Get(rec.frontMatter, "change_notes"));
    lines := lines + notes;
    return Ok(Join(lines, "\n"));
  }

  /** The `if summary:` block of `_detailed_section`. */
  method SummaryBlock(rec: Record) returns (r: Result<seq<string>, CatalogueError>)
    ensures r == SummaryPart(rec)
  {
    var summary := Get(rec.frontMatter, "summary");
    r := Ok([]);
    if summary.Some? && Truthy(summary.value) {
      if !summary.value.VStr? { return Err(NonTextSummary(rec.adrId)); }
      r := Ok([summary.value.s, ""]);
    }
  }

  /** The `if automation:` block of `_detailed_section`. */
  method HooksBlock(automation: Option<Value>) returns (lines: seq<string>)
    ensures lines == HooksPart(automation)
  {
    lines := [];
    if automation.Some? && Truthy(automation.value) {
      lines := lines + ["", "**Automation hooks**"];
      if automation.value.VList? {
        lines := lines + Seqs.Map(automation.value.items, Bullet);
      } else {
        lines := lines + [PyStr(automation.value)];
      }
    }
  }

  /** The `if history:` block of `_detailed_section`. */
  method NotesBlock(history: Option<Value>) returns (lines: seq<string>)
    ensures lines == NotesPart(history)
  {
    lines := [];
    if history.Some? && Truthy(history.value) {
      lines := lines + ["", "**Change log**"];
      if history.value.VList? {
        lines := lines + Seqs.Map(history.value.items, Bullet);
      } else {
        lines := lines + [Bullet(history.value)];
      }
    }
  }

  /** The heading comes first and the summary paragraph appears exactly when it is truthy. */
  lemma DetailOpening(rec: Record)
    requires DetailLines(rec).Ok?
    ensures var ls := DetailLines(rec).value; var v := Get(rec.frontMatter, "summary");
      |ls| >= 13 && ls[0] == Heading(rec) && ls[1] == ""
      && (v.Some? && Truthy(v.value) ==> v.value.VStr? && ls[2] == v.value.s && ls[3] == "" && ls[4] == StatusLine(rec))
      && (!(v.Some? && Truthy(v.value)) ==> ls[2] == StatusLine(rec))
  {
  }

  /** A single change note is shown as a bullet and ends the section. */
  lemma ScalarNoteIsBullet(rec: Record)
    requires DetailLines(rec).Ok?
    requires var n := Get(rec.frontMatter, "change_notes"); n.Some? && Truthy(n.value) && !n.value.VList?
    ensures var ls := DetailLines(rec).value;
      ls[|ls| - 1] == "- " + PyStr(Get(rec.frontMatter, "change_notes").value) && ls[|ls| - 2] == "**Change log**"
  {
  }

  /** A single automation hook is shown as it is, without a bullet, and ends the section when there are no notes. */
  lemma ScalarHookIsBare(rec: Record)
    requires DetailLines(rec).Ok?
    requires var h := Get(rec.frontMatter, "automation_hooks"); h.Some? && Truthy(h.value) && !h.value.VList?
    requires var n := Get(rec.frontMatter, "change_notes"); n.None? || !Truthy(n.value)
    ensures var ls := DetailLines(rec).value;
      ls[|ls| - 1] == PyStr(Get(rec.frontMatter, "automation_hooks").value) && ls[|ls| - 2] == "**Automation hooks**"
  {
  }

  // --------------------------------------------------------------- catalogue

  const CatalogueTitle: string := "# Architecture Decision Record Catalogue {#adr-catalogue}"
  const Introduction: string :=
    "This catalogue is generated from the structured ADR metadata committed to the repository. "
    + "It keeps the documentation site, book manuscript, and automation backlog aligned by ensuring "
    + "every referenced ADR includes links to chapters, diagrams, and delivery work items."
  const Footer: string :=
    "---\n*Generated automatically via `python3 scripts/generate_adr_catalogue.py`. Do not edit manually.*"

  function AdrIdOf(rec: Record): string { rec.adrId }

  /** `sorted(records, key=lambda record: record.adr_id)`. */
  function SortById(records: seq<Record>): (r: seq<Record>)
    ensures Lex.SortedBy(r, AdrIdOf)
    ensures multiset(r) == multiset(records)
  {
    Lex.SortBy(records, AdrIdOf)
  }

  /** The lines before the detailed sections. */
  function Preamble(sorted: seq<Record>): seq<string>
  {
    [CatalogueTitle, "", Introduction, "", "## Summary overview", "",
     Join(SummaryLines(sorted), "\n"), "", "## Detailed records", ""]
  }

  /** Each detailed section followed by a blank line. */
  function Spaced(sections: seq<string>): (r: seq<string>)
    ensures |r| == 2 * |sections|
    ensures forall k :: 0 <= k < |sections| ==> r[2 * k] == sections[k] && r[2 * k + 1] == ""
  {
    if sections == [] then []
    else
      var init := sections[..|sections| - 1];
      var r := Spaced(init) + [sections[|sections| - 1], ""];
      assert forall k :: 0 <= k < |init| ==> r[2 * k] == init[k] == sections[k];
      r
  }

  function CatalogueLines(sorted: seq<Record>, sections: seq<string>): seq<string>
  {
    Preamble(sorted) + Spaced(sections) + [Footer]
  }

  /** The page around the rendered sections: joined lines with trailing whitespace removed, then one newline. */
  function Page(sorted: seq<Record>, sections: seq<string>): string
  {
    RStrip(Join(CatalogueLines(sorted, sections), "\n")) + "\n"
  }

  /** `render_catalogue`: the page for the records, or the error of the first record that cannot be shown. */
  function Catalogue(records: seq<Record>): Result<string, CatalogueError>
  {
    var sorted := SortById(records);
    match Seqs.Collect(sorted, DetailText)
    case Err(e) => Err(e)
    case Ok(sections) => Ok(Page(sorted, sections))
  }

  /** One more section adds itself and a blank line at the end. */
  lemma SpacedSnoc(sections: seq<string>, section: string)
    ensures Spaced(sections + [section]) == Spaced(sections) + [section, ""]
  {
    assert (sections + [section])[..|sections|] == sections;
  }

  /** `render_catalogue`: the preamble, then the sections appended record by record, then the footer. */
  method RenderCatalogue(records: seq<Record>) returns (r: Result<string, CatalogueError>)
    ensures r == Catalogue(records)
  {
    var sorted := SortById(records);
    var summary := SummariseRecords(sorted);
    var lines := [CatalogueTitle, "", Introduction, "", "## Summary overview", "", summary, "", "## Detailed records", ""];
    var body := AppendSections(sorted, lines);
    if body.Err? { return Err(body.error); }
    lines := body.value + [Footer];
    r := Ok(RStrip(Join(lines, "\n")) + "\n");
  }

  /** The loop of `render_catalogue`: each record's section and a blank line appended to `lines`. */
  method AppendSections(sorted: seq<Record>, lines0: seq<string>) returns (r: Result<seq<string>, CatalogueError>)
    ensures Seqs.Collect(sorted, DetailText).Err? ==> r == Err(Seqs.Collect(sorted, DetailText).error)
    ensures Seqs.Collect(sorted, DetailText).Ok? ==> r == Ok(lines0 + Spaced(Seqs.Collect(sorted, DetailText).value))
  {
    var lines := lines0;
    ghost var sections: seq<string> := [];
    var i := 0;
    while i < |sorted|
      invariant i <= |sorted|
      invariant Seqs.Collect(sorted[..i], DetailText) == Ok(sections)
      invariant lines == lines0 + Spaced(sections)
    {
      var section := DetailedSection(sorted[i]);
      AppendStep(sorted, lines0, i, sections, section);
      if section.Err? {
        return Err(section.error);
      }
      lines := lines + [section.value, ""];
      sections := sections + [section.value];
      i := i + 1;
    }
    assert sorted[..i] == sorted;
    return Ok(lines);
  }

  /** One step of the loop of `render_catalogue`: the next section is appended, or its error is the result. */
  lemma AppendStep(sorted: seq<Record>, lines0: seq<string>, i: nat, sections: seq<string>, section: Result<string, CatalogueError>)
    requires i < |sorted| && Seqs.Collect(sorted[..i], DetailText) == Ok(sections) && section == DetailText(sorted[i])
    ensures section.Ok? ==> Seqs.Collect(sorted[..i + 1], DetailText) == Ok(sections + [section.value])
    ensures section.Ok? ==> (lines0 + Spaced(sections)) + [section.value, ""] == lines0 + Spaced(sections + [section.value])
    ensures section.Err? ==> Seqs.Collect(sorted, DetailText) == Err(section.error)
  {
    Seqs.CollectStep(sorted, DetailText, i, sections);
    if section.Err? {
      Seqs.CollectErrSticks(sorted, DetailText, i + 1);
    } else {
      SpacedSnoc(sections, section.value);
      Seqs.AppendAssoc(lines0, Spaced(sections), [section.value, ""]);
    }
  }

  /** A section fails exactly when its summary does. */
  lemma DetailTextFails(rec: Record)
    ensures DetailText(rec).Err? <==> SummaryPart(rec).Err?
  {
  }

  predicate SummaryFails(rec: Record) { SummaryPart(rec).Err? }

  /** The sections cannot all be rendered exactly when some record has a truthy `summary` that is not a string. */
  lemma SectionsFail(records: seq<Record>)
    ensures Seqs.Collect(SortById(records), DetailText).Err? <==> exists k :: 0 <= k < |records| && SummaryPart(records[k]).Err?
  {
    var sorted := SortById(records);
    Seqs.CollectFails(sorted, DetailText);
    forall rec ensures DetailText(rec).Err? <==> SummaryFails(rec) { DetailTextFails(rec); }
    Seqs.SomePermuted(sorted, records, SummaryFails);
  }

  /** Rendering fails exactly when some record has a truthy `summary` that is not a string. */
  lemma CatalogueFails(records: seq<Record>)
    ensures Catalogue(records).Err? <==> exists k :: 0 <= k < |records| && SummaryPart(records[k]).Err?
  {
    SectionsFail(records);
  }

  /** The lines are the preamble with the summary table, then each section followed by a blank line, then the footer. */
  lemma LinesLayout(sorted: seq<Record>, sections: seq<string>)
    ensures var lines := CatalogueLines(sorted, sections);
      |lines| == 11 + 2 * |sections|
      && lines[6] == Join(SummaryLines(sorted), "\n") && lines[8] == "## Detailed records" && lines[9] == ""
      && lines[|lines| - 1] == Footer
      && forall k :: 0 <= k < |sections| ==> lines[10 + 2 * k] == sections[k] && lines[11 + 2 * k] == ""
  {
    var lines := CatalogueLines(sorted, sections);
    forall k | 0 <= k < |sections| ensures lines[10 + 2 * k] == sections[k] && lines[11 + 2 * k] == "" {
      assert lines[10 + 2 * k] == Spaced(sections)[2 * k];
      assert lines[11 + 2 * k] == Spaced(sections)[2 * k + 1];
    }
  }

  /** The page is its lines joined by newlines, ending with the footer and exactly one newline. */
  lemma PageEnding(sorted: seq<Record>, sections: seq<string>)
    ensures var out := Page(sorted, sections);
      out == Join(CatalogueLines(sorted, sections), "\n") + "\n"
      && |out| >= 2 && out[|out| - 1] == '\n' && out[|out| - 2] == '*'
  {
    var lines := CatalogueLines(sorted, sections);
    var joined := Join(lines, "\n");
    assert lines[|lines| - 1] == Footer;
    JoinEndsWithLast(lines, "\n");
    FooterEnding();
    assert joined[|joined| - 1] == '*';
    RStripFixed(joined);
  }

  lemma FooterEnding()
    ensures Footer[|Footer| - 1] == '*'
  {
  }

  /** A rendered catalogue is the page of the records in `adr_id` order with one section per record. */
  lemma CatalogueSections(records: seq<Record>)
    requires Catalogue(records).Ok?
    ensures var sorted := SortById(records); var sections := Seqs.Collect(sorted, DetailText).value;
      Catalogue(records).value == Page(sorted, sections)
      && |sections| == |sorted| && forall k :: 0 <= k < |sorted| ==> DetailText(sorted[k]) == Ok(sections[k])
  {
  }
}
