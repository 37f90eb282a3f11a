/**
 * The chapter page: it finds the chapter named in the address in its table,
 * loads the chapter's Markdown from `docs/`, falls back to a generated page
 * when that fails, and links to the neighbouring chapters.
 */
module ChapterDetail {
  import opened Wrappers
  import opened Str

  datatype Chapter = Chapter(id: string, title: string, area: string, filename: string)

  /** The page's own table of the 27 chapters. */
  const Chapters: seq<Chapter> := [
      Chapter("01", "Inledning till arkitektur som kod", "Grundläggande koncept", "01_inledning.md"),
      Chapter("02", "Grundläggande principer för Architecture as Code", "Grundläggande koncept", "02_grundlaggande_principer.md"),
      Chapter("03", "Versionhantering och kodstruktur", "Grundläggande koncept", "03_versionhantering.md"),
      Chapter("04", "Architecture Decision Records (ADR)", "Grundläggande koncept", "04_adr.md"),
      Chapter("05", "Automatisering, DevOps och CI/CD för Infrastructure as Code", "Systemutveckling", "05_automatisering_devops_cicd.md"),
      Chapter("06", "Molnarkitektur som kod", "Arkitektur", "06_molnarkitektur.md"),
      Chapter("07", "Containerisering och orkestrering som kod", "Arkitektur", "07_containerisering.md"),
      Chapter("08", "Microservices-arkitektur som kod", "Arkitektur", "08_microservices.md"),
      Chapter("09", "Säkerhet i Architecture as Code", "Säkerhet", "09_sakerhet.md"),
      Chapter("10", "Policy och säkerhet som kod i detalj", "Säkerhet", "10_policy_sakerhet.md"),
      Chapter("11", "Compliance och regelefterlevnad", "Säkerhet", "11_compliance.md"),
      Chapter("12", "Teststrategier för infrastruktukod", "Systemutveckling", "12_teststrategier.md"),
      Chapter("13", "Architecture as Code i praktiken", "Systemutveckling", "13_praktisk_implementation.md"),
      Chapter("14", "Kostnadsoptimering och resurshantering", "Arkitektur", "14_kostnadsoptimering.md"),
      Chapter("15", "Migration från traditionell infrastruktur", "Arkitektur", "15_migration.md"),
      Chapter("16", "Organisatorisk förändring och teamstrukturer", "Organisationsutveckling", "16_organisatorisk_forandring.md"),
      Chapter("17", "Team-struktur och kompetensutveckling för IaC", "Organisationsutveckling", "17_team_struktur.md"),
      Chapter("18", "Digitalisering genom kodbaserad infrastruktur", "Digitalisering", "18_digitalisering.md"),
      Chapter("19", "Använd Lovable för att skapa mockups för svenska organisationer", "Produkt- och tjänstutveckling", "19_lovable_mockups.md"),
      Chapter("20", "Framtida trender och teknologier", "Innovation", "20_framtida_trender.md"),
      Chapter("21", "Best practices och lärda läxor", "Systemutveckling", "21_best_practices.md"),
      Chapter("22", "Slutsats", "Sammanfattning", "22_slutsats.md"),
      Chapter("23", "Ordlista", "Referenser", "23_ordlista.md"),
      Chapter("24", "Om författarna", "Referenser", "24_om_forfattarna.md"),
      Chapter("25", "Framtida utveckling och trender", "Innovation", "25_framtida_utveckling.md"),
      Chapter("26", "Appendix: Kodexempel och tekniska implementationer", "Referenser", "26_appendix_kodexempel.md"),
      Chapter("27", "Teknisk uppbyggnad för bokproduktion", "Teknik", "27_teknisk_uppbyggnad.md")
  ]

  /** The table runs from chapter "01" to chapter "27". */
  lemma TableEnds()
    ensures |Chapters| == 27 && Chapters[0].id == "01" && Chapters[26].id == "27"
  {
  }

  /** `chapters.findIndex(chapter => chapter.id === chapterId)`: the first match, or -1. */
  function FindIndex(chapters: seq<Chapter>, chapterId: string): (r: int)
    ensures -1 <= r < |chapters|
    ensures r == -1 <==> forall j :: 0 <= j < |chapters| ==> chapters[j].id != chapterId
    ensures r >= 0 ==> chapters[r].id == chapterId && forall j :: 0 <= j < r ==> chapters[j].id != chapterId
  {
    if chapters == [] then -1
    else if chapters[0].id == chapterId then 0
    else
      var k := FindIndex(chapters[1..], chapterId);
      if k == -1 then -1 else k + 1
  }

  predicate DistinctIds(chapters: seq<Chapter>)
  {
    forall i, j :: 0 <= i < j < |chapters| ==> chapters[i].id != chapters[j].id
  }

  /** With distinct ids every chapter is found at its own position. */
  lemma FindsOwnPosition(chapters: seq<Chapter>, i: nat)
    requires DistinctIds(chapters) && i < |chapters|
    ensures FindIndex(chapters, chapters[i].id) == i
  {
  }

  const ChapterRoute: string := "/chapter/"

  function ChapterPath(id: string): string { ChapterRoute + id }

  /** The id a chapter route names. */
  function RouteId(path: string): string
  {
    if StartsWith(path, ChapterRoute) then path[|ChapterRoute|..] else ""
  }

  lemma RouteIdOfPath(id: string)
    ensures RouteId(ChapterPath(id)) == id
  {
    assert ChapterPath(id)[..|ChapterRoute|] == ChapterRoute;
  }

  /** `goToPreviousChapter`: the route of the chapter before, if any. */
  function PreviousLink(chapters: seq<Chapter>, index: int): (r: Option<string>)
    requires -1 <= index < |chapters|
    ensures r.Some? <==> index > 0
  {
    if index > 0 then Some(ChapterPath(chapters[index - 1].id)) else None
  }

  /** `goToNextChapter`: the route of the chapter after, if any. */
  function NextLink(chapters: seq<Chapter>, index: int): (r: Option<string>)
    requires -1 <= index < |chapters|
    ensures r.Some? <==> index < |chapters| - 1
  {
    if index < |chapters| - 1 then Some(ChapterPath(chapters[index + 1].id)) else None
  }

  /**
   * Following the next link lands on the chapter after, whose previous link
   * leads back; and the other way round.
   */
  lemma {:induction false} LinksRoundTrip(chapters: seq<Chapter>, i: nat)
    requires DistinctIds(chapters) && i < |chapters|
    ensures NextLink(chapters, i).Some? ==>
              var j := FindIndex(chapters, RouteId(NextLink(chapters, i).value));
              j == i + 1 && PreviousLink(chapters, j) == Some(ChapterPath(chapters[i].id))
    ensures PreviousLink(chapters, i).Some? ==>
              var j := FindIndex(chapters, RouteId(PreviousLink(chapters, i).value));
              j == i - 1 && NextLink(chapters, j) == Some(ChapterPath(chapters[i].id))
  {
    if i < |chapters| - 1 {
      RouteIdOfPath(chapters[i + 1].id);
      FindsOwnPosition(chapters, i + 1);
    }
    if i > 0 {
      RouteIdOfPath(chapters[i - 1].id);
      FindsOwnPosition(chapters, i - 1);
    }
  }

  /** `filename.split('_')[1]?.split('.')[0] || 'kapitel'`. */
  function DiagramSlug(filename: string): (r: string)
    ensures r != []
  {
    var parts := Split(filename, '_');
    var word := if |parts| >= 2 then Split(parts[1], '.')[0] else "";
    if word == "" then "kapitel" else word
  }

  /** A file named `<id>_<word>.<ext>` gives `word`. */
  lemma SlugBeforeDot(id: string, word: string, ext: string)
    requires '_' !in id && '_' !in word && '.' !in word && '_' !in ext && word != []
    ensures DiagramSlug(id + "_" + word + "." + ext) == word
  {
    var rest := word + "." + ext;
    assert id + "_" + word + "." + ext == id + ['_'] + rest;
    SplitCons(id, '_', rest);
    assert '_' !in rest;
    assert Split(rest, '_') == [rest];
    assert rest == word + ['.'] + ext;
    SplitCons(word, '.', ext);
  }

  /** A file named `<id>_<word>_<more>` gives `word`: only the second part counts. */
  lemma SlugBeforeUnderscore(id: string, word: string, more: string)
    requires '_' !in id && '_' !in word && '.' !in word && word != []
    ensures DiagramSlug(id + "_" + word + "_" + more) == word
  {
    assert id + "_" + word + "_" + more == id + ['_'] + (word + ['_'] + more);
    SplitCons(id, '_', word + ['_'] + more);
    SplitCons(word, '_', more);
    assert Split(word, '.') == [word];
  }

  /** Without an underscore there is no second part and the slug is "kapitel". */
  lemma SlugWithoutUnderscore(filename: string)
    requires '_' !in filename
    ensures DiagramSlug(filename) == "kapitel"
  {
  }

  /** The diagram referenced by the fallback page. */
  function DiagramImage(ch: Chapter): string
  {
    "images/diagram_" + ch.id + "_" + DiagramSlug(ch.filename) + ".png"
  }

  /** The closing line of the fallback page, after the final rule. */
  const FallbackClosing: string := "*För mer information och praktiska exempel, se de relaterade kapitlen i boken.*"

  /** The fixed sections that end the fallback page, up to the template's closing indentation. */
  const FallbackSections: string :=
    "\n\n## Översikt\n\n"
    + "Detta kapitel ger en djupgående förklaring av koncepten och metoderna inom detta specifika område av Infrastructure as Code.\n\n"
    + "## Nyckelämnen\n\n"
    + "- Grundläggande principer och koncept\n"
    + "- Praktiska implementationsstrategier  \n"
    + "- Best practices och rekommendationer\n"
    + "- Svenska compliance-krav och anpassningar\n"
    + "- Verktyg och teknologier\n"
    + "- Exempel och fallstudier\n\n"
    + "## Praktisk tillämpning\n\n"
    + "Kapitlet innehåller konkreta exempel och kodexempel som kan användas direkt i svenska organisationer.\n\n"
    + "## Sammanfattning\n\n"
    + "Detta kapitel ger läsaren de verktyg och kunskaper som behövs för att framgångsrikt implementera dessa aspekter av Infrastructure as Code.\n\n"
    + "---\n\n"
    + FallbackClosing + "\n        "

  /** The page generated when the chapter's file cannot be fetched. */
  function FallbackMarkdown(ch: Chapter): (r: string)
    ensures StartsWith(r, "\n# " + ch.title + "\n")
    ensures Contains(r, "![Kapiteldiagram](" + DiagramImage(ch) + ")")
    ensures |FallbackSections| <= |r| && r[|r| - |FallbackSections|..] == FallbackSections
  {
    var head := "\n# " + ch.title + "\n";
    var before := head + ("\n*Kapitel " + ch.id + " - " + ch.area + "*\n\n");
    var image := "![Kapiteldiagram](" + DiagramImage(ch) + ")";
    var after := "\n\nDet här kapitlet täcker viktiga aspekter av Infrastructure as Code inom området **"
                 + ch.area + "**." + FallbackSections;
    PiecesOf(head, before[|head|..], image, after);
    before + image + after
  }

  /** The first piece starts the text and the image lies right after the chapter line. */
  lemma PiecesOf(head: string, line: string, image: string, after: string)
    ensures StartsWith(head + line + image + after, head)
    ensures Contains(head + line + image + after, image)
  {
    var r := head + line + image + after;
    assert r[..|head|] == head;
    assert r[|head + line|..|head + line| + |image|] == image;
    ContainsAt(r, image, |head + line|);
  }

  const NotFoundMessage: string := "Kapitel hittades inte"
  const LoadFailedMessage: string := "Kunde inte ladda kapitelinnehållet. Försök igen senare."

  /** What the page's content area shows. */
  datatype View = NotFound | Spinner | ErrorText(message: string) | Markdown(content: string)

  /** The state of one chapter page. */
  class Page {
    const chapters: seq<Chapter>
    const index: int
    var markdownContent: string
    var loading: bool
    var error: Option<string>

    ghost predicate Valid()
      reads this
    {
      -1 <= index < |chapters|
    }

    /** Mounting the page over a chapter table for the route's `chapterId`: nothing loaded yet. */
    constructor (table: seq<Chapter>, chapterId: string)
      ensures Valid() && chapters == table && index == FindIndex(table, chapterId)
      ensures markdownContent == "" && loading && error == None
    {
      chapters := table;
      index := FindIndex(table, chapterId);
      markdownContent := "";
      loading := true;
      error := None;
    }

    /**
     * The effect `loadMarkdown` for a known chapter, given the text of its
     * `docs/` file or `None` when the fetch failed or was not ok.
     */
    method LoadMarkdown(response: Option<string>)
      requires Valid()
      modifies this
      ensures Valid() && !loading
      ensures index == -1 ==> error == Some(NotFoundMessage) && markdownContent == old(markdownContent)
      ensures index >= 0 && response.Some? ==> error == None && markdownContent == response.value
      ensures index >= 0 && response.None? ==>
                error == Some(LoadFailedMessage) && markdownContent == FallbackMarkdown(chapters[index])
    {
      if index == -1 {
        error := Some(NotFoundMessage);
        loading := false;
        return;
      }
      loading := true;
      error := None;
      match response {
        case Some(content) =>
          markdownContent := content;
        case None =>
          error := Some(LoadFailedMessage);
          markdownContent := FallbackMarkdown(chapters[index]);
      }
      loading := false;
    }

    /** The render: the not-found card first, then spinner, error or Markdown. */
    function Shown(): (v: View)
      reads this
      ensures v.NotFound? <==> index == -1
      ensures v.Spinner? <==> index != -1 && loading
      ensures v.Markdown? ==> v.content == markdownContent && error.None?
    {
      if index == -1 then NotFound
      else if loading then Spinner
      else match error {
        case Some(message) => ErrorText(message)
        case None => Markdown(markdownContent)
      }
    }

    /** `Kapitel {currentChapterIndex + 1} av {chapters.length}` on a found chapter. */
    function Position(): (r: (int, int))
      reads this
      requires Valid() && index >= 0
      ensures 1 <= r.0 <= r.1 == |chapters|
    {
      (index + 1, |chapters|)
    }
  }

  /**
   * A page after its load shows the fetched text, or the failure message;
   * the fallback page that is stored on a failure is never on screen.
   */
  method MountAndLoad(table: seq<Chapter>, chapterId: string, response: Option<string>) returns (page: Page)
    ensures page.Shown() == (if FindIndex(table, chapterId) == -1 then NotFound
                             else if response.Some? then Markdown(response.value)
                             else ErrorText(LoadFailedMessage))
  {
    page := new Page(table, chapterId);
    page.LoadMarkdown(response);
  }
}
