/**
 * The chapters overview page: the area drop-down offers "all" and every area
 * of the table once, and the list shows the chapters whose title or summary
 * contains the search term (ignoring case) and whose area is the one chosen.
 */
module ChaptersOverview {
  import opened Str
  import Seqs

  /** A row of the page's chapter table; the key topics are only displayed. */
  datatype Chapter = Chapter(id: string, title: string, area: string, summary: string)

  const AllAreas: string := "all"

  function AreaOf(c: Chapter): string { c.area }

  /** `["all", ...Array.from(new Set(chapters.map(c => c.area)))]`. */
  function Areas(chapters: seq<Chapter>): (r: seq<string>)
    ensures |r| >= 1 && r[0] == AllAreas
    ensures forall a :: a in r[1..] <==> exists c :: c in chapters && c.area == a
    ensures forall i, j :: 1 <= i < j < |r| ==> r[i] != r[j]
  {
    var areas := Seqs.Map(chapters, AreaOf);
    forall a ensures a in areas <==> exists c :: c in chapters && c.area == a {
      Seqs.MapMembers(chapters, AreaOf, a);
    }
    var r := [AllAreas] + Seqs.Dedup(areas);
    assert r[1..] == Seqs.Dedup(areas);
    r
  }

  /** `chapter.title.toLowerCase().includes(term) || chapter.summary.toLowerCase().includes(term)`. */
  predicate MatchesSearch(c: Chapter, searchTerm: string)
  {
    Contains(Lower(c.title), Lower(searchTerm)) || Contains(Lower(c.summary), Lower(searchTerm))
  }

  predicate MatchesArea(c: Chapter, selectedArea: string)
  {
    selectedArea == AllAreas || c.area == selectedArea
  }

  predicate Shown(c: Chapter, searchTerm: string, selectedArea: string)
  {
    MatchesSearch(c, searchTerm) && MatchesArea(c, selectedArea)
  }

  function ShownBy(searchTerm: string, selectedArea: string): Chapter -> bool
  {
    c => Shown(c, searchTerm, selectedArea)
  }

  /** `filteredChapters`: the shown chapters, in table order. */
  function FilteredChapters(chapters: seq<Chapter>, searchTerm: string, selectedArea: string): (r: seq<Chapter>)
    ensures forall c :: c in r <==> c in chapters && Shown(c, searchTerm, selectedArea)
    ensures |r| <= |chapters|
  {
    Seqs.Filter(chapters, ShownBy(searchTerm, selectedArea))
  }

  /** Every text contains the empty term, so the initial state shows the whole table in order. */
  lemma InitialShowsAll(chapters: seq<Chapter>)
    ensures FilteredChapters(chapters, "", AllAreas) == chapters
  {
    forall k | 0 <= k < |chapters| ensures Shown(chapters[k], "", AllAreas) {
      ContainsAt(Lower(chapters[k].title), "", 0);
    }
    Seqs.FilterAll(chapters, ShownBy("", AllAreas));
  }

  /** With the empty term and one area chosen, the list is that area's chapters in table order. */
  lemma AreaOnly(chapters: seq<Chapter>, area: string)
    requires area != AllAreas
    ensures FilteredChapters(chapters, "", area) == Seqs.Filter(chapters, (c: Chapter) => c.area == area)
    decreases |chapters|
  {
    if chapters != [] {
      var init := chapters[..|chapters| - 1];
      AreaOnly(init, area);
      ContainsAt(Lower(chapters[|chapters| - 1].title), "", 0);
    }
  }

  /**
   * The areas keep their order of first appearance: one more chapter adds its
   * area at the end exactly when no earlier chapter has it.
   */
  lemma AreasSnoc(chapters: seq<Chapter>, c: Chapter)
    ensures Areas(chapters + [c])
            == Areas(chapters) + if exists d :: d in chapters && d.area == c.area then [] else [c.area]
  {
    var areas := Seqs.Map(chapters, AreaOf);
    var added := if c.area in areas then [] else [c.area];
    assert added == if exists d :: d in chapters && d.area == c.area then [] else [c.area] by {
      Seqs.MapMembers(chapters, AreaOf, c.area);
    }
    calc {
      Areas(chapters + [c]);
    == { AreasUnfold(chapters + [c]); }
      [AllAreas] + Seqs.Dedup(Seqs.Map(chapters + [c], AreaOf));
    == { Seqs.MapSnoc(chapters, c, AreaOf); }
      [AllAreas] + Seqs.Dedup(areas + [c.area]);
    == { Seqs.DedupSnoc(areas, c.area); }
      [AllAreas] + (Seqs.Dedup(areas) + added);
    == { AreasUnfold(chapters); }
      Areas(chapters) + added;
    }
  }

  lemma AreasUnfold(chapters: seq<Chapter>)
    ensures Areas(chapters) == [AllAreas] + Seqs.Dedup(Seqs.Map(chapters, AreaOf))
  {
  }

  /** The list keeps the table order: one more chapter is appended at the end exactly when it is shown. */
  lemma FilteredSnoc(chapters: seq<Chapter>, c: Chapter, searchTerm: string, selectedArea: string)
    ensures FilteredChapters(chapters + [c], searchTerm, selectedArea)
            == FilteredChapters(chapters, searchTerm, selectedArea) + if Shown(c, searchTerm, selectedArea) then [c] else []
  {
    Seqs.FilterSnoc(chapters, c, ShownBy(searchTerm, selectedArea));
  }

  /** Narrowing by an area keeps a sub-list of what "all" shows for the same term. */
  lemma AreaNarrows(chapters: seq<Chapter>, searchTerm: string, area: string)
    ensures forall c :: c in FilteredChapters(chapters, searchTerm, area) ==> c in FilteredChapters(chapters, searchTerm, AllAreas)
  {
  }

  /** The "no chapters found" card is shown exactly when no chapter passes both tests. */
  predicate ShowsEmptyCard(chapters: seq<Chapter>, searchTerm: string, selectedArea: string)
  {
    |FilteredChapters(chapters, searchTerm, selectedArea)| == 0
  }

  lemma EmptyCardIff(chapters: seq<Chapter>, searchTerm: string, selectedArea: string)
    ensures ShowsEmptyCard(chapters, searchTerm, selectedArea)
            <==> forall k :: 0 <= k < |chapters| ==> !Shown(chapters[k], searchTerm, selectedArea)
  {
    var r := FilteredChapters(chapters, searchTerm, selectedArea);
    if exists k :: 0 <= k < |chapters| && Shown(chapters[k], searchTerm, selectedArea) {
      var k :| 0 <= k < |chapters| && Shown(chapters[k], searchTerm, selectedArea);
      assert chapters[k] in r;
    }
    if forall k :: 0 <= k < |chapters| ==> !Shown(chapters[k], searchTerm, selectedArea) {
      Seqs.FilterNone(chapters, ShownBy(searchTerm, selectedArea));
    }
  }
}
