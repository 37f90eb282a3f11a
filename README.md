# Architecture-as-Code book tooling, modelled in Dafny

This project models the publishing and validation tooling of the
"Architecture as Code" book repository: the Python scripts that check the
chapters, diagrams, ADRs, links, sources and environment, the generators that
build the book, the whitepapers, the presentation and the ADR catalogue, the
helpers the issue bots share, and the React pages that show the book (the
chapter overview, the chapter page, the book preview and the zooming Prezi
canvas).

Each script becomes one module, in a file named after it. Text processing,
regular expressions and report building are functions over strings and
sequences, with the properties the scripts promise proved as lemmas. The
scripts' loops are methods proved against those functions. The objects that
update their own state are classes with `modifies` frames:
- the chapter list cache of the book build;
- the source verifier's URL cache and result lists;
- the diagram complexity analyser;
- the branding validator;
- the link verifier's result lists;
- the React components' state: the preview's chapter counter, the chapter page's
  loaded content and the Prezi canvas.

Files, the network, the clock, subprocesses, the YAML and JSON parsers and the
HTML renderers are parameters. They are functions handed in by the caller, or
values read beforehand.
The shared modules are:
- `Str`: Python's string methods;
- `Seqs`: comprehensions;
- `Lex` and `Sorted`: Python's `sorted`;
- `Paths`: the `pathlib` name parts;
- `Values`: the values YAML and JSON produce;
- `Wrappers`: `Option` and `Result`.

## Model

| member | source | states |
|---|---|---|
| BookPreview.ChapterId | src/pages/BookPreview.tsx:11-35 | the id of each of the 23 chapters is its 1-based number on two digits |
| BookPreview.ChapterIdsDistinct | src/pages/BookPreview.tsx:11-35 | no two chapters of the table share an id |
| BookPreview.DisabledIffNoMove | src/pages/BookPreview.tsx:39-179 | a button is disabled exactly when its handler would not move, and both handlers stay inside the table |
| BookPreview.StepsUndo | src/pages/BookPreview.tsx:39-49 | next then previous (or previous then next) from an enabled button returns to the chapter |
| BookPreview.ForwardReaches | src/pages/BookPreview.tsx:45-49 | n presses of next from the first chapter reach min(n, 22) |
| BookPreview.Preview.constructor | src/pages/BookPreview.tsx:9 | the counter starts at the first chapter |
| BookPreview.Preview.GoToPreviousChapter | src/pages/BookPreview.tsx:39-43 | decrements only above 0; the counter stays in 0..22 |
| BookPreview.Preview.GoToNextChapter | src/pages/BookPreview.tsx:45-49 | increments only below 22; the counter stays in 0..22 |
| BookPreview.Preview.SelectChapter | src/pages/BookPreview.tsx:86-90 | a table-of-contents click shows that chapter |
| BookPreview.Preview.Position | src/pages/BookPreview.tsx:172-174 | the position shown is current+1 of 23, never above the count |
| BookPreview.Preview.ShownId | src/pages/BookPreview.tsx:67-113 | the id shown is the number of the position shown |
| ChaptersOverview.Areas | src/pages/ChaptersOverview.tsx:184 | the drop-down starts with "all", then lists each area of the table exactly once and no other |
| ChaptersOverview.AreasSnoc | src/pages/ChaptersOverview.tsx:184 | the areas keep their order of first appearance: one more chapter adds its area at the end exactly when no earlier chapter has it |
| ChaptersOverview.FilteredChapters | src/pages/ChaptersOverview.tsx:186-191 | a chapter is listed iff its lower-cased title or summary contains the lower-cased term and the area is "all" or its own; never more chapters than the table |
| ChaptersOverview.FilteredSnoc | src/pages/ChaptersOverview.tsx:186-191 | the list keeps the table order: one more chapter is appended at the end exactly when it is shown |
| ChaptersOverview.InitialShowsAll | src/pages/ChaptersOverview.tsx:10-191 | with the initial empty term and "all", the whole table is listed in its order |
| ChaptersOverview.AreaOnly | src/pages/ChaptersOverview.tsx:186-191 | with the empty term and one area, the list is exactly that area's chapters in table order |
| ChaptersOverview.AreaNarrows | src/pages/ChaptersOverview.tsx:189 | choosing an area only removes chapters from what "all" lists for the same term |
| ChaptersOverview.EmptyCardIff | src/pages/ChaptersOverview.tsx:297-303 | the "no chapters found" card shows exactly when no chapter passes both tests |
| ChapterDetail.TableEnds | src/pages/ChapterDetail.tsx:15-43 | the page's table has 27 chapters, from "01" to "27" |
| ChapterDetail.FindIndex | src/pages/ChapterDetail.tsx:45-46 | the position of the first chapter with the route's id, or -1 exactly when no chapter has it |
| ChapterDetail.FindsOwnPosition | src/pages/ChapterDetail.tsx:45 | when the ids are distinct, each chapter is found at its own position |
| ChapterDetail.PreviousLink | src/pages/ChapterDetail.tsx:113-119 | a previous link exists exactly when the chapter is not the first |
| ChapterDetail.NextLink | src/pages/ChapterDetail.tsx:121-127 | a next link exists exactly when the chapter is not the last |
| ChapterDetail.LinksRoundTrip | src/pages/ChapterDetail.tsx:45-127 | the next link's route finds the chapter after, and that chapter's previous link leads back; the same holds the other way round |
| ChapterDetail.RouteIdOfPath | src/pages/ChapterDetail.tsx:116-124 | the id can be read back from a `/chapter/<id>` route |
| ChapterDetail.DiagramSlug | src/pages/ChapterDetail.tsx:76 | the diagram slug is never empty; "kapitel" stands in for a missing or empty part |
| ChapterDetail.SlugBeforeDot | src/pages/ChapterDetail.tsx:76 | a file `<id>_<word>.<ext>` gives the slug `word` |
| ChapterDetail.SlugBeforeUnderscore | src/pages/ChapterDetail.tsx:76 | a file `<id>_<word>_<more>` gives `word`: only the second part after the split counts |
| ChapterDetail.SlugWithoutUnderscore | src/pages/ChapterDetail.tsx:76 | a file name without an underscore gives "kapitel" |
| ChapterDetail.FallbackMarkdown | src/pages/ChapterDetail.tsx:71-104 | the fallback page starts with the chapter's title as a level-1 heading, embeds the chapter's diagram image and ends with the fixed overview, key-topics list, practical-use and summary sections, the rule and the closing line |
| ChapterDetail.Page.constructor | src/pages/ChapterDetail.tsx:10-45 | a mounted page looks up the route's chapter, starts with loading on, no error and no content |
| ChapterDetail.Page.LoadMarkdown | src/pages/ChapterDetail.tsx:48-111 | an unknown chapter sets the not-found error; a fetched text becomes the content and clears the error; a failed fetch sets the load error and the fallback page; loading is off afterwards either way |
| ChapterDetail.Page.Shown | src/pages/ChapterDetail.tsx:129-229 | the not-found card shows exactly for an unknown chapter, the spinner exactly while loading, and Markdown only when there is no error |
| ChapterDetail.Page.Position | src/pages/ChapterDetail.tsx:209-292 | the "chapter n of m" counter is 1-based and never passes the table's size |
| ChapterDetail.MountAndLoad | src/pages/ChapterDetail.tsx:45-229 | after mount and load, the page shows the not-found card, the fetched text, or the load-failure message; the fallback page is never on screen |
| PreziApp.Target | presentations/prezi/src/App.tsx:28-35 | the viewport's zoom is the slide's zoom, or 1 when it has none |
| PreziApp.TargetInverts | presentations/prezi/src/App.tsx:28-35 | over real-number coordinates, the slide's position can be read back from the viewport offsets (240 − x, 160 − y); JavaScript's double rounding is not modelled |
| PreziApp.StartIndex | presentations/prezi/src/App.tsx:94-101 | the start index lies in a non-empty deck, and it is non-zero only when it holds the query's id |
| PreziApp.StartIndexIff | presentations/prezi/src/App.tsx:94-101 | both directions: with a non-empty query id found in the deck, start at its first slide; otherwise start at 0 |
| PreziApp.StepInDeck | presentations/prezi/src/App.tsx:114-121 | a key keeps the index in the deck and moves it at most one; an arrow fails to move only at its end; the opposite arrow undoes it |
| PreziApp.Nodes | presentations/prezi/src/App.tsx:62-88 | one node per slide, in order, with its id and position; a node is highlighted exactly when its id is the current slide's |
| PreziApp.OneHighlighted | presentations/prezi/src/App.tsx:62-83 | with distinct ids, exactly the current slide's node is highlighted |
| PreziApp.Canvas.constructor | presentations/prezi/src/App.tsx:43-47 | before the deck arrives: no slides, index 0, no viewport set |
| PreziApp.Canvas.Start | presentations/prezi/src/App.tsx:90-106 | on a non-empty deck the index and `current` become the start index and the viewport is aimed at that slide; an empty deck changes nothing |
| PreziApp.Canvas.Load | presentations/prezi/src/App.tsx:49-106 | a loaded deck replaces the slides and goes to the start slide; a failed load leaves the deck empty |
| PreziApp.Canvas.OnKeyDown | presentations/prezi/src/App.tsx:108-122 | on a non-empty deck an arrow steps the index, `current` follows, and the viewport is aimed at the new slide; other keys and an empty deck change nothing |
| PreziApp.Canvas.OnKeyDownAsWritten | presentations/prezi/src/App.tsx:25-122 | as written, a key press that changes `current` is followed by the start effect, which puts the index back to the start slide |
| PreziApp.ArrowRightSnapsBack | presentations/prezi/src/App.tsx:25-122 | as written, on any deck of two or more slides without a query, the right arrow leaves the canvas on the first slide |
| PreziApp.ArrowRightAdvances | presentations/prezi/src/App.tsx:108-122 | as intended, the same press goes to the second slide and aims the viewport at it |
| ChapterLengths.IndentedLines | scripts/analyze_chapter_lengths.py:25 | removing indented code blanks each line starting with four spaces and keeps every line break |
| ChapterLengths.NoIndentKept | scripts/analyze_chapter_lengths.py:25 | text with no line starting with four spaces is unchanged |
| ChapterLengths.RemoveCode | scripts/analyze_chapter_lengths.py:28 | removing inline code never lengthens the text |
| ChapterLengths.CodeAfterPlain | scripts/analyze_chapter_lengths.py:28 | backtick-free text before the first backtick is kept unchanged |
| ChapterLengths.CodeSpanRemoved | scripts/analyze_chapter_lengths.py:28 | a code span, even an empty one or one running over lines, is deleted along with its backticks |
| ChapterLengths.HeadingMatch | scripts/analyze_chapter_lengths.py:31 | a heading match starts with one to six hash marks and is longer than them |
| ChapterLengths.HeadingLineRemoved | scripts/analyze_chapter_lengths.py:31 | a heading line at a line start is deleted up to its line break, and the scan goes on at the next line |
| ChapterLengths.NoHashKept | scripts/analyze_chapter_lengths.py:31 | text without a hash mark is unchanged |
| ChapterLengths.ImageMatch | scripts/analyze_chapter_lengths.py:34 | an image match starts with `!` and is at least five characters long |
| ChapterLengths.ImageRemoved | scripts/analyze_chapter_lengths.py:34 | an image reference `![alt](url)` is deleted whole |
| ChapterLengths.NoBangKept | scripts/analyze_chapter_lengths.py:34 | text without `!` is unchanged |
| ChapterLengths.LinkKeepsText | scripts/analyze_chapter_lengths.py:37 | a link `[text](url)` is replaced by its text |
| ChapterLengths.NoBracketKept | scripts/analyze_chapter_lengths.py:37 | text without `[` is unchanged |
| ChapterLengths.RemoveMarks | scripts/analyze_chapter_lengths.py:40 | the length is kept, each formatting character becomes a space and every other character stays |
| ChapterLengths.CleanedHasNoMarks | scripts/analyze_chapter_lengths.py:21-44 | the text whose words are counted contains no formatting character |
| ChapterLengths.PlainProseCounted | scripts/analyze_chapter_lengths.py:21-44 | plain prose with no formatting character and no indented line counts as exactly its whitespace-separated words |
| ChapterLengths.TitleOfLines | scripts/analyze_chapter_lengths.py:47-54 | the title is the stripped text after `# ` on the first line that starts with it once stripped, and "Untitled" when no line does |
| ChapterLengths.TitleOfFirstLine | scripts/analyze_chapter_lengths.py:47-54 | a first line `# Title` gives its stripped title |
| ChapterLengths.ChapterFiles | scripts/analyze_chapter_lengths.py:65 | the chapter files are exactly the regular files named `[0-9]*.md`, in name order |
| ChapterLengths.Outliers | scripts/analyze_chapter_lengths.py:88-103 | a chapter is an outlier exactly when its count is above twice the mean |
| ChapterLengths.FilterTotal | scripts/analyze_chapter_lengths.py:71-103 | the outliers' words are part of the total |
| ChapterLengths.FewerThanHalfOutliers | scripts/analyze_chapter_lengths.py:88-103 | fewer than half of the chapters can be over twice the mean |
| ChapterLengths.Recommendations | scripts/analyze_chapter_lengths.py:109-131 | there is one recommendation per outlier |
| ChapterLengths.RecommendationsExceed | scripts/analyze_chapter_lengths.py:94-131 | each recommendation names its outlier, with a ratio to the mean above 2 and a positive number of excess words |
| ChapterLengths.ExceedsAverage | scripts/analyze_chapter_lengths.py:89-116 | a count above twice the mean has a ratio above 2 and excess words above 0 |
| ChapterLengths.ReportExitIff | scripts/analyze_chapter_lengths.py:238-243 | the report exits with 1 exactly when some chapter is above twice the mean |
| ChapterLengths.ExitIff | scripts/analyze_chapter_lengths.py:65-243 | the script exits with 1 exactly when `docs/` is missing, there is no chapter file, or some chapter is above twice the mean |
| DiagramElements.KeptLines | scripts/validate_diagram_elements.py:28-43 | every kept line is stripped, non-blank, not a `%%` comment and not a `---` marker |
| DiagramElements.FrontMatterSkipped | scripts/validate_diagram_elements.py:35-40 | a front matter block closed by a second `---` is dropped whole, lines and markers |
| DiagramElements.UnclosedFrontMatterHidesAll | scripts/validate_diagram_elements.py:35-40 | after a `---` that is never closed no line is kept |
| DiagramElements.FilterLines | scripts/validate_diagram_elements.py:26-43 | the toggling line loop keeps exactly the lines of the scan specification |
| DiagramElements.DiagramType | scripts/validate_diagram_elements.py:45-70 | the type is "unknown" exactly when the lower-cased first line contains none of the twelve keywords, and "flowchart" exactly when it contains `graph` or `flowchart` |
| DiagramElements.GraphAnywhere | scripts/validate_diagram_elements.py:48-50 | the keyword test is a substring test: `graph` anywhere in the first line makes a flowchart |
| DiagramElements.NodeMatch | scripts/validate_diagram_elements.py:77 | a node match starts with a capital and its id is shorter than the match |
| DiagramElements.FlowNodes | scripts/validate_diagram_elements.py:77-80 | every flowchart element is an id of a capital followed by `[A-Za-z0-9_]` characters |
| DiagramElements.NodeAtFront | scripts/validate_diagram_elements.py:77-80 | `Id[`, `Id(` or `Id{` at a word boundary contributes `Id` and the scan resumes after the bracket |
| DiagramElements.ClassNames | scripts/validate_diagram_elements.py:119-124 | every class element is a non-empty run of word characters |
| DiagramElements.ClassAtFront | scripts/validate_diagram_elements.py:121-124 | `class Name` followed by a non-word character contributes `Name` |
| DiagramElements.MessageIsArrow | scripts/validate_diagram_elements.py:116 | the three arrow tests of a sequence line amount to containing `->` |
| DiagramElements.OtherKindsEmpty | scripts/validate_diagram_elements.py:72-124 | a diagram type without an element rule has no elements |
| DiagramElements.CountDiagramElements | scripts/validate_diagram_elements.py:17-133 | an unreadable file gives (0, "error", []); otherwise the type of the first kept line and that type's elements, each once in first-occurrence order, with their number as the count |
| DiagramElements.Checked | scripts/validate_diagram_elements.py:153 | the diagrams checked are exactly those whose path does not contain `archive` |
| DiagramElements.RunMain | scripts/validate_diagram_elements.py:136-179 | a missing images directory exits 1; otherwise the flagged diagrams are exactly the checked ones over 15 elements and the exit is 1 exactly when one is flagged |
| DiagramElements.MainFailsIff | scripts/validate_diagram_elements.py:148-179 | the check fails exactly when the directory is missing or some diagram outside `archive` has more than 15 elements |
| DiagramBranding.CheckInlineTheme | scripts/validate_diagram_branding.py:75-84 | the issues are one inline-theme issue per line holding `%%{init:`, numbered from 1, in line order |
| DiagramBranding.ThemeIssueSource | scripts/validate_diagram_branding.py:78-83 | every reported line number names a line that holds `%%{init:` |
| DiagramBranding.ThemeIssueReported | scripts/validate_diagram_branding.py:78-83 | every line that holds `%%{init:` is reported with its 1-based number |
| DiagramBranding.SpellingFound | scripts/validate_diagram_branding.py:93-102 | resuming the scan after each match still reports every later whole-word, case-insensitive occurrence of the word |
| DiagramBranding.SpellingHitsSound | scripts/validate_diagram_branding.py:93-102 | every reported spelling issue is a whole-word occurrence, with its line, its text as written and the British form |
| DiagramBranding.SpellingHitsIff | scripts/validate_diagram_branding.py:93-102 | for a word of word characters, an issue is reported exactly when it is that of a whole-word occurrence |
| DiagramBranding.FindWord | scripts/validate_diagram_branding.py:93-102 | the scan yields exactly the `finditer` matches of `\bword\b`, non-overlapping, in text order |
| DiagramBranding.CheckAmericanSpelling | scripts/validate_diagram_branding.py:86-104 | the issues are each table entry's matches in turn, in table order |
| DiagramBranding.EmojiBlocks | scripts/validate_diagram_branding.py:59-70 | the ten alternatives of the emoji pattern amount to four disjoint ranges |
| DiagramBranding.CheckEmojis | scripts/validate_diagram_branding.py:106-119 | one issue per line with an emoji, numbered from 1, listing that line's emoji in order |
| DiagramBranding.EmojiIssueSource | scripts/validate_diagram_branding.py:110-117 | a reported line holds an emoji and the issue lists exactly that line's emoji |
| DiagramBranding.EmojiIssueReported | scripts/validate_diagram_branding.py:110-117 | every line holding an emoji is reported with its emoji |
| DiagramBranding.ClassMatchAt | scripts/validate_diagram_branding.py:127 | a match of `:::` followed by a non-empty run of class characters yields that run and ends after it |
| DiagramBranding.CssFrom | scripts/validate_diagram_branding.py:128-137 | every CSS issue names a class that starts with `kv-` and is not one of the six brand classes |
| DiagramBranding.CheckCssClasses | scripts/validate_diagram_branding.py:121-139 | the scan gives the class issues of every `:::` match in text order |
| DiagramBranding.FlaggedIff | scripts/validate_diagram_branding.py:124-132 | a class is reported exactly when it starts with `kv-` and differs from each of the six brand classes |
| DiagramBranding.Validator.ValidateFile | scripts/validate_diagram_branding.py:141-161 | an unreadable file fails and stores nothing; a readable one passes exactly when the four checks report nothing, and otherwise its issues are stored under its path |
| DiagramBranding.Validator.PrintReport | scripts/validate_diagram_branding.py:163-182 | the exit status is 0 exactly when no issue is stored, and 1 otherwise |
| DiagramBranding.Run | scripts/validate_diagram_branding.py:256-280 | no files exit 0; otherwise passed plus failed is the number of files, failed counts the unreadable or reporting ones, and the exit is 1 exactly when some readable file reports an issue |
| DiagramBranding.UnreadableFilePasses | scripts/validate_diagram_branding.py:141-167 | a run over one unreadable file counts it as failed and still exits 0 |
| PresentationGuidelines.Excerpt | scripts/validate_presentation_guidelines.py:68 | a bullet of at most 50 characters is shown whole; a longer one as its first 50 characters and three dots |
| PresentationGuidelines.CheckChapterText | scripts/validate_presentation_guidelines.py:45-80 | a chapter's warnings are the title check, each bullet's check in order, then the bullet count against its layout's limit |
| PresentationGuidelines.ValidateTextContent | scripts/validate_presentation_guidelines.py:36-94 | no critical issue is ever produced; the warnings are each slide's text warnings in slide order, slides numbered from 1 |
| PresentationGuidelines.TextWarningsIff | scripts/validate_presentation_guidelines.py:41-92 | a text warning about slide n is produced exactly when that slide justifies it: a chapter title over 10 words, a bullet over 20 words (its 1-based number, word count and excerpt), more bullets than 4 on an odd (hero) or 8 on an even (side) slide, or a part title over 8 words |
| PresentationGuidelines.TextWarningInDeck | scripts/validate_presentation_guidelines.py:41-43 | every text warning names a slide between 1 and the number of entries |
| PresentationGuidelines.CheckDiagram | scripts/validate_presentation_guidelines.py:106-164 | one slide's diagram issues and warnings, as the specification functions define them |
| PresentationGuidelines.ValidateDiagrams | scripts/validate_presentation_guidelines.py:97-166 | the issues and the warnings are each slide's diagram issues and warnings in slide order |
| PresentationGuidelines.DiagramIssuesIff | scripts/validate_presentation_guidelines.py:111-129 | a critical issue about slide n is produced exactly when that slide is a chapter whose diagram path is set and whose file is missing, or which has no metadata |
| PresentationGuidelines.SomeIssueIff | scripts/validate_presentation_guidelines.py:111-129 | some critical issue exists exactly when some chapter's set diagram path names a missing file or lacks metadata |
| PresentationGuidelines.NoDiagramIff | scripts/validate_presentation_guidelines.py:112-164 | the no-diagram warning is given to slide n exactly when it is a chapter without a diagram path |
| PresentationGuidelines.LongExplanationIff | scripts/validate_presentation_guidelines.py:146-158 | with metadata present, an explanation is called long exactly when it is non-empty and over 18 words |
| PresentationGuidelines.ValidateAccessibility | scripts/validate_presentation_guidelines.py:169-188 | no critical issue; the warnings are the duplicates among the chapter titles taken in slide order |
| PresentationGuidelines.DuplicatesIff | scripts/validate_presentation_guidelines.py:174-186 | the j-th chapter title is reported as a duplicate, numbered j, exactly when an earlier chapter has the same title |
| PresentationGuidelines.DuplicateNumberCountsChapters | scripts/validate_presentation_guidelines.py:179-186 | the duplicate's number counts chapter titles, not slides: after a part slide the repeated chapter on slide 3 is reported as 2 |
| PresentationGuidelines.GroupWarnings | scripts/validate_presentation_guidelines.py:232-238 | the types appear in first-seen order, each once, and each type's list is exactly its warnings in their order |
| PresentationGuidelines.EveryWarningGrouped | scripts/validate_presentation_guidelines.py:232-238 | every warning is listed under its own type and under no other |
| PresentationGuidelines.SectionOf | scripts/validate_presentation_guidelines.py:240-250 | a section shows at most the first five warnings of its type, counts all of them, and has a "more" line exactly when there are over five |
| PresentationGuidelines.BuildSections | scripts/validate_presentation_guidelines.py:240-250 | one section per type, in first-seen order |
| PresentationGuidelines.GenerateReport | scripts/validate_presentation_guidelines.py:191-264 | the summary counts the issues and warnings, compliance holds exactly when no critical issue exists, "all checks passed" exactly when there are neither, and the sections follow the grouping |
| PresentationGuidelines.ExitCode | scripts/validate_presentation_guidelines.py:362-368 | the exit is 1 exactly when a critical issue exists or `--strict` meets a warning, and 0 otherwise |
| PresentationGuidelines.RunMain | scripts/validate_presentation_guidelines.py:26-368 | a missing data file exits 1; otherwise the issues are the diagram issues, the warnings are the three passes' warnings, and the exit follows the exit rule |
| PresentationGuidelines.MainFailsIff | scripts/validate_presentation_guidelines.py:354-368 | on loaded data the run fails exactly when some chapter's diagram is missing or lacks metadata, or `--strict` is set and a warning exists |
| LinkVerification.MdMatchAt | scripts/verify_links.py:82 | a markdown-link match at a position spans exactly `[text](target)` with a non-empty target, no `]` in the text and no `)` in the target |
| LinkVerification.PlainMatchAt | scripts/verify_links.py:87 | a bare-address match is the matched text itself, starts with `http` and holds no whitespace |
| LinkVerification.RelMatchAt | scripts/verify_links.py:94 | the relative-path pattern matches exactly where the markdown pattern does, with a target containing `.md` |
| LinkVerification.FindAllSource | scripts/verify_links.py:82-94 | every match `findall` returns is a match of its pattern at some position of the line |
| LinkVerification.AddMarkdownLinks | scripts/verify_links.py:82-84 | the markdown-link loop appends one record per match, in order, with the stripped target and the rebuilt `[text](url)` context |
| LinkVerification.AddPlainUrls | scripts/verify_links.py:87-91 | the bare-address loop computes the skip-or-record rule for every address in turn |
| LinkVerification.AddRelativePaths | scripts/verify_links.py:94-97 | the relative-path loop appends a record for each match whose target does not start with `http` |
| LinkVerification.ScanLine | scripts/verify_links.py:80-97 | one line's three scans in the source's order |
| LinkVerification.ExtractLinksFromFile | scripts/verify_links.py:64-102 | the file's links are those of its `\n`-separated lines numbered from 1, and an unreadable file yields none |
| LinkVerification.ExtractedFromLines | scripts/verify_links.py:80-97 | every recorded link carries a line number of the file, and its context is a piece of that line |
| LinkVerification.LineLinksFromLine | scripts/verify_links.py:80-97 | scanning a line keeps the earlier links and adds only links numbered with that line whose contexts occur on it |
| LinkVerification.AddPlainCovers | scripts/verify_links.py:86-91 | every bare address of a line ends up contained in some link recorded for that line |
| LinkVerification.AddPlainSkipsCovered | scripts/verify_links.py:89-91 | a bare address is recorded only when no link recorded before it on the same line contains it |
| LinkVerification.PlainUrlsAreWeb | scripts/verify_links.py:87 | every bare address is categorised as external or localhost |
| LinkVerification.RelativeLinksRecordedTwice | scripts/verify_links.py:80-97 | on a line whose markdown links all name local `.md` files, each of those links is recorded twice |
| LinkVerification.CategorizeSound | scripts/verify_links.py:124-141 | only addresses with a web scheme are external, localhost addresses are `http://`, a local `.md` or slashed path is internal, and "other" is exactly what fails all four tests |
| LinkVerification.Clean | scripts/verify_links.py:159 | the cleaned address is a prefix of the address, ends in no `.,;:`, and only those characters were removed |
| LinkVerification.CleanIdempotent | scripts/verify_links.py:159 | cleaning a cleaned address changes nothing |
| LinkVerification.HttpValidIff | scripts/verify_links.py:170-199 | a link is valid exactly when `HEAD` answers, or `HEAD` is refused with 405 or 403 and `GET` answers; other HTTP errors report their code, every other failure reports 0 |
| LinkVerification.PunctuatedNeverCached | scripts/verify_links.py:153-159 | an address ending in `.,;:` is never found in the cache |
| LinkVerification.LinkVerifier.constructor | scripts/verify_links.py:38-57 | the verifier starts with five empty result lists and an empty cache |
| LinkVerification.LinkVerifier.VerifyHttpLink | scripts/verify_links.py:153-199 | the result is the HTTP check of the cleaned address; a miss stores it under the cleaned address and the cache stays sound |
| LinkVerification.PathPartEmptyIff | scripts/verify_links.py:213-216 | the path part is empty exactly for an empty address or one that starts with `#` |
| LinkVerification.InternalValidIff | scripts/verify_links.py:212-233 | an internal link is valid exactly when it is a bare anchor, or its path exists from the file's directory, or (missing there) from the root; "not found" means missing in both |
| LinkVerification.VerdictIff | scripts/verify_links.py:266-304 | a link is broken exactly when it is external and fails the HTTP check, internal-broken exactly when it is internal and fails the path check, skipped exactly when localhost or other |
| LinkVerification.LinkVerifier.VerifyLink | scripts/verify_links.py:261-304 | one link's record is appended to the list its verdict names |
| LinkVerification.LinkVerifier.VerifyFileLinks | scripts/verify_links.py:258-304 | a file's links are filed in order |
| LinkVerification.CollectLinks | scripts/verify_links.py:241-249 | the extraction phase keeps the files with at least one link, in order, with their links |
| LinkVerification.LinkVerifier.VerifyScans | scripts/verify_links.py:256-304 | the checking phase files every link of every collected file and counts them |
| LinkVerification.LinkVerifier.VerifyAllLinks | scripts/verify_links.py:235-306 | the lists grow by every checked link in order, `processed` equals `total_links`, and the lists' total grows by exactly that many |
| LinkVerification.LinkCountChecked | scripts/verify_links.py:251 | `total_links` is the number of links then checked |
| LinkVerification.TotalOfAddAll | scripts/verify_links.py:322 | each checked link lands in exactly one list, so the report's total is the number of links checked |
| LinkVerification.AddAllMembers | scripts/verify_links.py:276-304 | a record is in a list exactly when a checked link with that verdict produced it |
| LinkVerification.ExitCode | scripts/verify_links.py:666-672 | the exit is 1 exactly when the broken or the internal-broken list is non-empty, else 0 |
| LinkVerification.RunMain | scripts/verify_links.py:634-672 | a fresh verifier's lists after the run, and the exit they give |
| LinkVerification.MainFailsIff | scripts/verify_links.py:666-672 | the run fails exactly when some checked link of some file is broken or internal-broken |
| AacIacRatio.PositionsSound | scripts/fix_aac_iac_ratio.py:32-37 | every reported match position really starts a whole-word match, and the matches do not overlap |
| AacIacRatio.PositionsFind | scripts/fix_aac_iac_ratio.py:32-37 | a whole-word match anywhere from a position on means the scan from there reports one |
| AacIacRatio.CountZeroIff | scripts/fix_aac_iac_ratio.py:32-37 | a term is counted zero times exactly when it matches nowhere |
| AacIacRatio.LastIndex | scripts/fix_aac_iac_ratio.py:52 | `rfind` gives -1 when the character is absent, and otherwise an occurrence with none after it |
| AacIacRatio.LastIndexAtLeast | scripts/fix_aac_iac_ratio.py:52 | the last occurrence is no earlier than any occurrence |
| AacIacRatio.InCodeBlockIff | scripts/fix_aac_iac_ratio.py:40-59 | a position is in code exactly when an odd number of fences precede it or a backtick occurs among the hundred characters before it |
| AacIacRatio.InCodeBlockCases | scripts/fix_aac_iac_ratio.py:43-59 | the test is the fence parity or the last backtick being under a hundred characters back |
| AacIacRatio.TickWithinPrefix | scripts/fix_aac_iac_ratio.py:43 | a backtick in the window before a position is one in the text before it |
| AacIacRatio.RecentBacktick | scripts/fix_aac_iac_ratio.py:52-57 | the last backtick is under a hundred characters from the end exactly when some backtick is |
| AacIacRatio.LowerSlice | scripts/fix_aac_iac_ratio.py:66 | lowering a window and then taking a piece of it is taking that piece of the lowered text |
| AacIacRatio.ToolNearbyPreserves | scripts/fix_aac_iac_ratio.py:62-85 | a tool name, in any case, within a hundred characters either side keeps the mention |
| AacIacRatio.ToolNearby | scripts/fix_aac_iac_ratio.py:64-83 | a tool name lying inside the window is found in the lowered context |
| AacIacRatio.TitleStartsCapital | scripts/fix_aac_iac_ratio.py:106 | a title-cased match starts with a capital, so the title test adds nothing to the first-letter test |
| AacIacRatio.CasePreserved | scripts/fix_aac_iac_ratio.py:103-109 | the replacement always spells the phrase, starts with a capital exactly when the match does, and is all capitals exactly when the match is |
| AacIacRatio.UpperForm | scripts/fix_aac_iac_ratio.py:105 | the all-capitals replacement is all capitals and spells the phrase |
| AacIacRatio.TitleForm | scripts/fix_aac_iac_ratio.py:107 | the title replacement starts with a capital, is not all capitals, and spells the phrase |
| AacIacRatio.LowerForm | scripts/fix_aac_iac_ratio.py:109 | the lower-case replacement starts with no capital and spells the phrase |
| AacIacRatio.Step | scripts/fix_aac_iac_ratio.py:101-112 | handling one match leaves the text before it untouched |
| AacIacRatio.StepIff | scripts/fix_aac_iac_ratio.py:101-112 | a match is replaced exactly when its context does not preserve it, and otherwise the text is unchanged |
| AacIacRatio.StepUnfold | scripts/fix_aac_iac_ratio.py:111 | a replaced match is cut out and the replacement put in its place |
| AacIacRatio.FitsInit | scripts/fix_aac_iac_ratio.py:100 | after the last match is handled the earlier matches still lie inside the text |
| AacIacRatio.MatchesFit | scripts/fix_aac_iac_ratio.py:98 | the matches found before a pass all lie inside the text |
| AacIacRatio.RewriteStep | scripts/fix_aac_iac_ratio.py:100-112 | handling matches from the last to the first leaves the earlier ones where they were |
| AacIacRatio.RewriteCount | scripts/fix_aac_iac_ratio.py:100-112 | each match adds at most one to the count, and a pass that replaces nothing leaves the text as it was |
| AacIacRatio.ReplacedCount | scripts/fix_aac_iac_ratio.py:88-125 | the count is at most the number of mentions found, and no replacement gives the text back unchanged |
| AacIacRatio.ReplacePass | scripts/fix_aac_iac_ratio.py:98-112 | the loop over the matches, last first, gives the pass's text and count |
| AacIacRatio.ReplaceIacWithAac | scripts/fix_aac_iac_ratio.py:88-125 | the method gives the text and count of the phrase pass, followed by the abbreviation pass when aggressive |
| AacIacRatio.FixFile | scripts/fix_aac_iac_ratio.py:151-202 | no mention gives `no_iac`; twenty or more phrase mentions per other mention give `already_compliant`; otherwise `fixed` exactly when something was replaced; only a fixed real run writes, and it writes the replaced text |
| AacIacRatio.DryRunEstimate | scripts/fix_aac_iac_ratio.py:186-192 | a dry run that replaced something estimates the ratio with the replacements taken off the total, never below one |
| ArchitectBot.FallbackSections | scripts/architect_bot.py:18-48 | the fallback outline has five sections, each with lines, opened by the quoted issue body under "Issue Overview" |
| ArchitectBot.FallbackDocumentQuotesBody | scripts/architect_bot.py:18-22 | a document built from the fallback outline shows the quoted issue body right after its preamble, under the "Issue Overview" heading |
| ArchitectBot.FallbackNoPlaceholder | scripts/architect_bot.py:21-48 | no fallback section falls back to the placeholder: each keeps its own lines |
| ArchitectBot.BeforeLastSpace | scripts/architect_bot.py:57 | the text before the last space is a prefix followed by that space, with no later space, or the whole text when it has no space |
| ArchitectBot.TrimmedIssueBody | scripts/architect_bot.py:51-58 | a stripped body within the limit is kept; a longer one keeps the part of its first `maxLength` characters before their last space, or all of them when they hold no space, followed by the marker |
| ArchitectBot.JsonList | scripts/architect_bot.py:61-66 | the loop visits exactly a list's items, nothing for `None`, and the value itself for anything else; the result is empty exactly for `None` or an empty list |
| ArchitectBot.JsonListIdempotent | scripts/architect_bot.py:61-66 | listing the list of a value again changes nothing |
| ArchitectBot.Or | scripts/architect_bot.py:102 | `a or b` is truthy exactly when a present `a` or `b` is, and a falsy result is always `b` |
| ArchitectBot.FieldFallback | scripts/architect_bot.py:102-103 | a field falls back from the first key to the second key to the default, and is trimmed |
| ArchitectBot.PartLines | scripts/architect_bot.py:90 | every collected part is trimmed and non-blank |
| ArchitectBot.MessageContentStripped | scripts/architect_bot.py:69-95 | whatever the payload, the extracted text neither starts nor ends with white space |
| ArchitectBot.MessageContentLines | scripts/architect_bot.py:80-90 | when no part spans lines, the extracted lines are exactly the trimmed non-blank parts |
| ArchitectBot.CollectParts | scripts/architect_bot.py:81-89 | the loop collects a dictionary's `text` or else its `content`, a string as it is, and nothing for anything else |
| ArchitectBot.ExtractMessageContent | scripts/architect_bot.py:69-95 | the method gives the message's content |
| ArchitectBot.PillarLineShape | scripts/architect_bot.py:100-109 | a dictionary pillar's line is its bold title, followed by `: ` and the details exactly when there are some, and any other pillar is bulleted as its `str()` |
| ArchitectBot.FormatPillars | scripts/architect_bot.py:98-110 | one line per pillar, in order |
| ArchitectBot.PillarKeyFocus | scripts/architect_bot.py:102 | a pillar with neither a truthy title nor a truthy name is titled "Key focus" |
| ArchitectBot.SimpleLine | scripts/architect_bot.py:115-123 | a blank item gives no line; otherwise a numbered line is its position and the trimmed text, and a bulleted one starts with a list marker and ends with the text |
| ArchitectBot.FormatSimpleList | scripts/architect_bot.py:113-124 | the method gives the item lines |
| ArchitectBot.ListLine | scripts/architect_bot.py:116-123 | one step of the loop gives that item's line |
| ArchitectBot.SimpleListCount | scripts/architect_bot.py:113-124 | there is one line per non-blank item |
| ArchitectBot.NumberedAtIff | scripts/architect_bot.py:119-120 | the numbered line at position `k` is the item's trimmed text after the number `k + 1` |
| ArchitectBot.NumberedLines | scripts/architect_bot.py:115-120 | a numbered line carries the item's own position in the input, so the numbers of skipped items are missing rather than reused |
| ArchitectBot.BulletMarked | scripts/architect_bot.py:122-123 | every bulleted line starts with a list marker: the item's own, or the added `- ` |
| ArchitectBot.RiskParts | scripts/architect_bot.py:134-138 | a risk's parts are its non-empty description, mitigation and owner, labelled and in that order |
| ArchitectBot.RiskLines | scripts/architect_bot.py:129-144 | a risk gives at most one `- ` line: a dictionary when one of its parts is present, and anything else when its text is not blank |
| ArchitectBot.FormatRisks | scripts/architect_bot.py:127-145 | the method gives the lines of the risks, in order |
| ArchitectBot.RisksBulleted | scripts/architect_bot.py:127-145 | there is at most one line per risk, each a `- ` bullet |
| ValidateAdrs.SplitFrontMatter | scripts/validate_adrs.py:65-78 | a text that does not start with `---` and a newline lacks a header, one without a later `\n---` is unterminated, and otherwise the front matter is the text up to the first closing marker and the body follows it without leading newlines |
| ValidateAdrs.SplitJoin | scripts/validate_adrs.py:65-78 | front matter free of the closing marker comes back out of the file it was written into, with the body |
| ValidateAdrs.OrEmpty | scripts/validate_adrs.py:145 | `or {}` is truthy exactly when its operand is, and a falsy result is always the empty mapping |
| ValidateAdrs.NameInjective | scripts/validate_adrs.py:21-36 | distinct required fields have distinct names |
| ValidateAdrs.MissingKeys | scripts/validate_adrs.py:92-100 | the missing names are sorted and are exactly the fields absent from the front matter |
| ValidateAdrs.NoneMissing | scripts/validate_adrs.py:92-93 | when every field is present none is missing |
| ValidateAdrs.RequiredFieldsOk | scripts/validate_adrs.py:91-113 | the check passes exactly when every field is present, every list field a non-empty list and every scalar field a non-blank string |
| ValidateAdrs.RequiredFieldsMissing | scripts/validate_adrs.py:95-101 | a field is missing exactly when the report is "incomplete", naming the missing scalar and list fields, each sorted |
| ValidateAdrs.MissingReported | scripts/validate_adrs.py:95-101 | a missing field gives the "incomplete" report |
| ValidateAdrs.PresentNotIncomplete | scripts/validate_adrs.py:95-101 | with every field present the report is never "incomplete" |
| ValidateAdrs.RequiredFieldsShape | scripts/validate_adrs.py:103-113 | once every field is present, the report names exactly the list fields, or else the scalar fields, of the wrong shape |
| ValidateAdrs.DigitsAreGroups | scripts/validate_adrs.py:83 | a run of plain digits is a valid digit group with its decimal value |
| ValidateAdrs.UnderscoresBetweenDigits | scripts/validate_adrs.py:83 | `int` reads "2_024" as 2024 and refuses a doubled or trailing underscore |
| ValidateAdrs.ParseIntDigits | scripts/validate_adrs.py:83 | a plain run of decimal digits reads as its value |
| ValidateAdrs.ParseIntStrips | scripts/validate_adrs.py:83 | white space around the text does not change the integer it reads as |
| ValidateAdrs.ParseDate | scripts/validate_adrs.py:81-88 | a parsed date is a real calendar date |
| ValidateAdrs.DateOf | scripts/validate_adrs.py:84 | `date(year, month, day)` gives only real calendar dates |
| ValidateAdrs.Pad | scripts/validate_adrs.py:179 | zero-padding reaches the width, or keeps a longer text as it is |
| ValidateAdrs.LeadingZero | scripts/validate_adrs.py:83 | a leading zero does not change a digit string's value |
| ValidateAdrs.PadValue | scripts/validate_adrs.py:83 | padding with zeros keeps a digit string's value |
| ValidateAdrs.PaddedDigits | scripts/validate_adrs.py:179 | a padded decimal number is a non-empty run of digits with no hyphen |
| ValidateAdrs.PaddedNumber | scripts/validate_adrs.py:83 | a padded decimal number reads back as that number |
| ValidateAdrs.SplitAt | scripts/validate_adrs.py:83 | splitting at the first separator gives the part before it, then the split of the rest |
| ValidateAdrs.FormatDateParts | scripts/validate_adrs.py:179 | a date written as `%Y-%m-%d` splits at its two hyphens into the padded numbers |
| ValidateAdrs.ParseFormatDate | scripts/validate_adrs.py:81-88 | a date written as `YYYY-MM-DD` parses back to the same date |
| ValidateAdrs.DatesOf | scripts/validate_adrs.py:169-185 | the three dates parse, `last_reviewed` is not before `date`, and `next_review_due` is after `last_reviewed` |
| ValidateAdrs.Ordered | scripts/validate_adrs.py:177-185 | accepted dates are ordered as required |
| ValidateAdrs.PathEntryError | scripts/validate_adrs.py:119-128 | an entry is accepted exactly when it is a string, not absolute, and names a file that exists |
| ValidateAdrs.PathsOf | scripts/validate_adrs.py:116-130 | the paths are accepted exactly when every entry is, in order, and otherwise the error is that of the first bad entry |
| ValidateAdrs.NormalisePaths | scripts/validate_adrs.py:116-130 | the loop that stops at the first bad entry gives that outcome |
| ValidateAdrs.TrailingDigits | scripts/validate_adrs.py:195 | the digits at the end of a text: all digits, preceded by a non-digit or nothing |
| ValidateAdrs.BacklogKeyIff | scripts/validate_adrs.py:195-201 | the scan accepts exactly the texts that `^[A-Z][A-Z0-9_-]+-\d+` matches in full |
| ValidateAdrs.BacklogEntryError | scripts/validate_adrs.py:196-204 | a backlog entry is accepted exactly when it is a string whose stripped text is a `KEY-1234` reference |
| ValidateAdrs.CheckBacklog | scripts/validate_adrs.py:196-204 | the loop stops at the first entry that is rejected |
| ValidateAdrs.PeopleError | scripts/validate_adrs.py:206-212 | the people lists pass exactly when no decider and no reviewer is blank once trimmed |
| ValidateAdrs.ValidateRecord | scripts/validate_adrs.py:142-231 | the loop body's guards in order give the file's record or its first error |
| ValidateAdrs.ValidateLinks | scripts/validate_adrs.py:187-212 | the path, backlog and people guards give the record or their first error |
| ValidateAdrs.RecordConforms | scripts/validate_adrs.py:142-231 | a record that passes every check satisfies all of them, and keeps its file name and body |
| ValidateAdrs.LinkedConforms | scripts/validate_adrs.py:187-231 | a record built after the link guards satisfies every check and keeps its name and body |
| ValidateAdrs.AssembledConforms | scripts/validate_adrs.py:214-231 | the record assembled from checked fields satisfies every check |
| ValidateAdrs.IdentityPresent | scripts/validate_adrs.py:151-167 | an accepted record's identifier is `ADR-` and four digits, starts its file name, and its status is allowed |
| ValidateAdrs.TitlePresent | scripts/validate_adrs.py:109-113 | an accepted record's title is not blank |
| ValidateAdrs.PeoplePresent | scripts/validate_adrs.py:206-212 | an accepted record has deciders and reviewers, none blank |
| ValidateAdrs.LinksPresent | scripts/validate_adrs.py:187-204 | an accepted record's chapters and diagrams are present relative paths, and its backlog items are `KEY-1234` references |
| ValidateAdrs.AdrFiles | scripts/validate_adrs.py:141 | the ADR files are exactly the markdown files of the directory, sorted |
| ValidateAdrs.LoadAdrRecords | scripts/validate_adrs.py:133-236 | the method gives the outcome of the directory check, the file loop and the empty check |
| ValidateAdrs.LoadFiles | scripts/validate_adrs.py:141-231 | the loop gives every file's record in order, or the first error |
| ValidateAdrs.LoadedRecordsConform | scripts/validate_adrs.py:133-236 | a successful load holds one conforming record per ADR file, in file-name order, and at least one |
| ValidateAdrs.EnsureReferences | scripts/validate_adrs.py:253-264 | the check fails exactly when some referenced identifier, the samples aside, has no record, and then lists exactly those identifiers, sorted |
| ValidateAdrs.ExitCode | scripts/validate_adrs.py:267-280 | exit status 0 exactly when the records load and every referenced identifier outside the samples has a record, and 1 otherwise |
| BookBuild.TrimChaptersOrder | generate_book.py:54-55 | an explicit chapter list keeps its non-blank names, trimmed, in the order given, and none of the kept names is empty or untrimmed |
| BookBuild.Select | generate_book.py:51-62 | more than one choice among `--all`, `--sample` and explicit chapters is refused; otherwise explicit chapters come first, then the sample, then the full book |
| BookBuild.CliDefaultsToFullBook | generate_book.py:226 | without `--sample` and explicit chapters the command line builds the full book |
| BookBuild.CliSingleChoice | generate_book.py:194-211 | when the mutually exclusive group lets only one of `--sample` and `--chapters` through and `--all` is absent, the selection is never refused |
| BookBuild.ChapterListCache.constructor | generate_book.py:29 | the cache starts empty |
| BookBuild.ChapterListCache.FullChapterList | generate_book.py:32-40 | a cached list is returned unchanged; otherwise a successful navigation lookup is returned and cached, and a failed one is reported and leaves the cache empty |
| BookBuild.ChapterListCache.DetermineChapterList | generate_book.py:43-62 | a refused selection is an error, explicit chapters and the sample never consult the navigation or the cache, and only a full build reads the navigation or the cache |
| BookBuild.ResolveChapterPaths | generate_book.py:65-76 | the method resolves the names as the resolution function does |
| BookBuild.ResolvedPaths | generate_book.py:65-76 | resolution succeeds exactly when every name's file exists, with one path per name in order under `docs/`, and otherwise names the first missing file |
| BookBuild.DropBlankFront | generate_book.py:90-91 | leading blank lines are removed and nothing else: the rest is a suffix that starts with a non-blank line |
| BookBuild.DropBlankBack | generate_book.py:93-94 | trailing blank lines are removed and nothing else: the rest is a prefix that ends with a non-blank line |
| BookBuild.SanitisePartMarkdown | generate_book.py:79-96 | the method gives the sanitised text |
| BookBuild.DropLatexHelpers | generate_book.py:85-88 | every line not starting with a LaTeX helper prefix is kept, in order |
| BookBuild.PopBlankFront | generate_book.py:90-91 | the popping loop removes the leading blank lines |
| BookBuild.PopBlankBack | generate_book.py:93-94 | the popping loop removes the trailing blank lines |
| BookBuild.SanitisedShape | generate_book.py:79-96 | the sanitised lines are non-helper lines without line breaks, and neither the first nor the last is blank |
| BookBuild.SanitiseIdempotent | generate_book.py:79-96 | sanitising an already sanitised part changes nothing |
| BookBuild.WithCover | generate_book.py:119-121 | the result holds the same chapters plus the cover once when it exists and is not listed yet; the cover is listed exactly when it was already or it exists; the chapters keep their order at the end |
| BookBuild.PrepareStep | generate_book.py:107-117 | one more chapter path adds only its own prepared path and written file |
| BookBuild.PrepareChapter | generate_book.py:108-117 | a part file is sanitised and written to the temporary directory unless blank, and another path is kept as it is |
| BookBuild.PrepareNonLatexChapterPaths | generate_book.py:99-123 | the prepared paths are the kept and copied chapters in order with the cover in front when due, and the written files are those of the non-blank parts |
| BookBuild.NoPartsKept | generate_book.py:107-117 | without part files the list is unchanged and nothing is written |
| BookBuild.PreparedOrigins | generate_book.py:107-121 | every prepared chapter is an original non-part path or the temporary copy of a part with content |
| AdrCatalogue.FormatList | scripts/generate_adr_catalogue.py:17-18 | no entries give an empty cell, and one entry gives itself |
| AdrCatalogue.CountSkipsPlainText | scripts/generate_adr_catalogue.py:17-18 | text free of `<` holds no `<br>` of its own, so counting starts after it |
| AdrCatalogue.FormatListSeparators | scripts/generate_adr_catalogue.py:17-18 | there is one `<br>` between each pair of entries when no entry holds a `<` |
| AdrCatalogue.SummariseRecords | scripts/generate_adr_catalogue.py:21-38 | the table is built line by line and joined by newlines |
| AdrCatalogue.JoinAvoids | scripts/generate_adr_catalogue.py:38 | parts free of a character, joined by a separator free of it, are free of it |
| AdrCatalogue.FormatDateSingleLine | scripts/generate_adr_catalogue.py:35 | a formatted date holds no newline |
| AdrCatalogue.RowSingleLine | scripts/generate_adr_catalogue.py:28-37 | a summary row holds no newline |
| AdrCatalogue.HeaderSingleLine | scripts/generate_adr_catalogue.py:23 | the table header holds no newline |
| AdrCatalogue.SeparatorSingleLine | scripts/generate_adr_catalogue.py:24 | the separator row holds no newline |
| AdrCatalogue.SummaryTable | scripts/generate_adr_catalogue.py:21-38 | read back line by line, the table is the header, the separator and one row per record in record order |
| AdrCatalogue.SummaryPart | scripts/generate_adr_catalogue.py:44-47 | the summary paragraph fails exactly when the summary is truthy and not a string |
| AdrCatalogue.DetailedSection | scripts/generate_adr_catalogue.py:41-95 | the method gives the section's text |
| AdrCatalogue.SummaryBlock | scripts/generate_adr_catalogue.py:45-47 | the `if summary:` block gives the summary paragraph |
| AdrCatalogue.HooksBlock | scripts/generate_adr_catalogue.py:77-84 | the `if automation:` block gives the hook lines |
| AdrCatalogue.NotesBlock | scripts/generate_adr_catalogue.py:86-93 | the `if history:` block gives the change-log lines |
| AdrCatalogue.DetailOpening | scripts/generate_adr_catalogue.py:42-58 | the heading comes first, and the summary paragraph appears exactly when the summary is truthy |
| AdrCatalogue.ScalarNoteIsBullet | scripts/generate_adr_catalogue.py:87-93 | a single change note is shown as a bullet and ends the section |
| AdrCatalogue.ScalarHookIsBare | scripts/generate_adr_catalogue.py:78-84 | a single automation hook is shown as it is, without a bullet, and ends the section when there are no notes |
| AdrCatalogue.SortById | scripts/generate_adr_catalogue.py:101 | the records are sorted by `adr_id` and are a permutation of the input |
| AdrCatalogue.Spaced | scripts/generate_adr_catalogue.py:117-119 | each section is followed by a blank line |
| AdrCatalogue.SpacedSnoc | scripts/generate_adr_catalogue.py:117-119 | one more section adds itself and a blank line at the end |
| AdrCatalogue.RenderCatalogue | scripts/generate_adr_catalogue.py:98-126 | the method gives the catalogue |
| AdrCatalogue.AppendSections | scripts/generate_adr_catalogue.py:117-119 | the loop appends each record's section and a blank line, or gives the first section's error |
| AdrCatalogue.AppendStep | scripts/generate_adr_catalogue.py:117-119 | one step appends the next section, or its error is the result |
| AdrCatalogue.DetailTextFails | scripts/generate_adr_catalogue.py:41-95 | a section fails exactly when its summary does |
| AdrCatalogue.SectionsFail | scripts/generate_adr_catalogue.py:101-119 | the sections cannot all be rendered exactly when some record has a truthy `summary` that is not a string |
| AdrCatalogue.CatalogueFails | scripts/generate_adr_catalogue.py:98-126 | rendering fails exactly when some record has a truthy `summary` that is not a string |
| AdrCatalogue.LinesLayout | scripts/generate_adr_catalogue.py:103-124 | the lines are the preamble with the summary table, then each section followed by a blank line, then the footer |
| AdrCatalogue.PageEnding | scripts/generate_adr_catalogue.py:126 | the page is its lines joined by newlines, ending with the footer and exactly one newline |
| AdrCatalogue.FooterEnding | scripts/generate_adr_catalogue.py:121-124 | the footer ends with `*`, so the strip stops there |
| AdrCatalogue.CatalogueSections | scripts/generate_adr_catalogue.py:98-126 | a rendered catalogue is the page of the records in `adr_id` order, with one section per record |
| DiagramComplexity.FirstPrefix | scripts/analyze_diagram_complexity.py:205-228 | the elif chain stops at the first type whose prefix the text starts with, and no earlier type matches |
| DiagramComplexity.OrderPosition | scripts/analyze_diagram_complexity.py:205-228 | every type is tried once: the type at position `k` stands at position `k` |
| DiagramComplexity.TypeNamedIff | scripts/analyze_diagram_complexity.py:205-228 | the type at position `k` is named exactly when its prefix is the first to match |
| DiagramComplexity.DetectIff | scripts/analyze_diagram_complexity.py:200-228 | the type at position `k` is detected on the lowered, stripped content exactly when its prefix is the first to match |
| DiagramComplexity.DetectUnknown | scripts/analyze_diagram_complexity.py:227-228 | content is of unknown type exactly when it starts with none of the prefixes |
| DiagramComplexity.GraphNeedsSpace | scripts/analyze_diagram_complexity.py:205-206 | the bare word `graph`, without the space, is not recognised as a graph |
| DiagramComplexity.GenericCountBounds | scripts/analyze_diagram_complexity.py:187-198 | the generic count is the counted lines less three, and zero exactly when there are three or fewer |
| DiagramComplexity.MindmapSkips | scripts/analyze_diagram_complexity.py:119-122 | blank lines, comments and the `mindmap` keyword add no node |
| DiagramComplexity.MindmapCountsNodes | scripts/analyze_diagram_complexity.py:113-125 | a `mindmap` keyword line followed by node lines counts every node |
| DiagramComplexity.CountMindmapElements | scripts/analyze_diagram_complexity.py:113-125 | the loop counts the node lines |
| DiagramComplexity.CountGanttElements | scripts/analyze_diagram_complexity.py:127-141 | the count is the section lines by pattern plus the task lines |
| DiagramComplexity.CountGenericElements | scripts/analyze_diagram_complexity.py:187-198 | the loop, then `max(0, elements - 3)`, gives the generic count |
| DiagramComplexity.CountElements | scripts/analyze_diagram_complexity.py:30-55 | the method dispatches on the diagram type to its counter, and to the generic counter otherwise |
| DiagramComplexity.Analyse | scripts/analyze_diagram_complexity.py:230-260 | an unreadable or blank file fails, the unreadable one as a read failure; otherwise the result has the file's path and detected type, and is complex exactly when its count is above the threshold |
| DiagramComplexity.RecordConsistent | scripts/analyze_diagram_complexity.py:259 | storing one more result keeps the results consistent with their paths |
| DiagramComplexity.Outcomes | scripts/analyze_diagram_complexity.py:266-267 | there is one outcome per file, in order, each the analysis of that file |
| DiagramComplexity.OutcomesSnoc | scripts/analyze_diagram_complexity.py:266-267 | one more file adds its own outcome at the end |
| DiagramComplexity.ReplaySnoc | scripts/analyze_diagram_complexity.py:266-267 | one more outcome is recorded after the earlier ones |
| DiagramComplexity.ReplayStores | scripts/analyze_diagram_complexity.py:259-267 | recording storable outcomes from nothing keeps, under each path, the one outcome stored for it, and stores nothing else |
| DiagramComplexity.OutcomesStorable | scripts/analyze_diagram_complexity.py:262-267 | the outcomes of distinct files are storable |
| DiagramComplexity.Analyzer.constructor | scripts/analyze_diagram_complexity.py:26-28 | a new analyser has the given threshold and no results |
| DiagramComplexity.Analyzer.AnalyzeFile | scripts/analyze_diagram_complexity.py:230-260 | a failure leaves the results alone, and a result is stored under its path |
| DiagramComplexity.Analyzer.AnalyzeAll | scripts/analyze_diagram_complexity.py:262-267 | every file is analysed in turn and its outcome recorded |
| DiagramComplexity.Analyzer.GenerateReport | scripts/analyze_diagram_complexity.py:269-350 | the method gives the report of the results |
| DiagramComplexity.TypeStatistics | scripts/analyze_diagram_complexity.py:279-284 | the loop gives the statistics of the rows |
| DiagramComplexity.Rows | scripts/analyze_diagram_complexity.py:275-276 | the rows are the results in insertion order, one per path |
| DiagramComplexity.TypeCountPositive | scripts/analyze_diagram_complexity.py:280-282 | a row of a type makes that type's count positive |
| DiagramComplexity.StatsCount | scripts/analyze_diagram_complexity.py:279-284 | a type has statistics exactly when some row has it; they count its rows, and its largest count is at least that of each of its rows |
| DiagramComplexity.ResultsSize | scripts/analyze_diagram_complexity.py:259 | consistent results have one key per path |
| DiagramComplexity.RowsThreshold | scripts/analyze_diagram_complexity.py:255 | every stored row is complex exactly when its count is above the threshold |
| DiagramComplexity.ReportCounts | scripts/analyze_diagram_complexity.py:271-294 | with results, the complex and the simple diagrams share out all of them between them |
| DiagramComplexity.ReportComplexRows | scripts/analyze_diagram_complexity.py:308-322 | the report lists as complex exactly the rows above the threshold, each once, by descending element count |
| DiagramComplexity.PermutedDistinctPaths | scripts/analyze_diagram_complexity.py:316 | sorting a listing without repeated paths keeps the paths distinct |
| DiagramComplexity.ExitOfOutcomes | scripts/analyze_diagram_complexity.py:406-407 | over stored outcomes the exit status is 1 exactly when one of them is complex |
| DiagramComplexity.ExitIff | scripts/analyze_diagram_complexity.py:398-407 | over the results of distinct files the exit status is 1 exactly when one of those files holds a complex diagram |
| DiagramComplexity.ExitOfSorted | scripts/analyze_diagram_complexity.py:264-267 | the exit status over the sorted listing is the one over the listing |
| DiagramComplexity.ComplexCountPositive | scripts/analyze_diagram_complexity.py:406-407 | consistent results count a complex diagram exactly when the exit status is 1 |
| DiagramComplexity.Run | scripts/analyze_diagram_complexity.py:353-407 | without the directory the status is 1 with no report; otherwise the sorted listing is analysed and reported on, and the status is 1 exactly when some file holds a complex diagram |
| DiagramComplexity.ComplexResults | scripts/analyze_diagram_complexity.py:406 | the complex count is the number of complex rows |
| DocsNumbering.SuffixOf | scripts/validate_docs_numbering.py:19 | the optional group `([a-z]?)` takes at most the first character, and only a lowercase ASCII letter |
| DocsNumbering.TailStart | scripts/validate_docs_numbering.py:19 | a tail `(?:_.*)?\.md` starts with neither a digit nor a lowercase letter |
| DocsNumbering.MatchAfterDigitsIs | scripts/validate_docs_numbering.py:19 | after the digits come the suffix and a valid tail, so the suffix group takes exactly the suffix |
| DocsNumbering.NumberedNameAt | scripts/validate_docs_numbering.py:19 | once the digit run is known, the match gives its value and the suffix |
| DocsNumbering.NumberedNameComplete | scripts/validate_docs_numbering.py:19 | every name made of digits, an optional lowercase letter and a valid tail matches, with that number and suffix |
| DocsNumbering.NumberedNameSound | scripts/validate_docs_numbering.py:19 | every name that matches is digits, then the suffix, then a valid tail |
| DocsNumbering.SplitAfterDigits | scripts/validate_docs_numbering.py:19 | a matching name splits into its digits, its suffix and a valid tail |
| DocsNumbering.NumberedChaptersMembers | scripts/validate_docs_numbering.py:34-44 | exactly the regular files with a matching name are collected |
| DocsNumbering.FindNumberedChapters | scripts/validate_docs_numbering.py:34-44 | the loop collects the matching regular files in listing order |
| DocsNumbering.IdentifierInjective | scripts/validate_docs_numbering.py:28-31 | entries with a one-letter-or-empty suffix are told apart by their identifiers |
| DocsNumbering.Numbers | scripts/validate_docs_numbering.py:49 | the numbers of the entries, in order |
| DocsNumbering.CheckContiguousNumbers | scripts/validate_docs_numbering.py:47-62 | the loop, with its counter resynchronised after each gap, gives the contiguity issues |
| DocsNumbering.GapsEmptyIff | scripts/validate_docs_numbering.py:54-61 | no gap is reported exactly when the sorted numbers are consecutive |
| DocsNumbering.GapsMeaning | scripts/validate_docs_numbering.py:56-60 | every gap issue names a number that is absent, the next one present, and every number between them is absent |
| DocsNumbering.ConsecutiveValues | scripts/validate_docs_numbering.py:54-61 | consecutive numbers are the first one plus their position |
| DocsNumbering.ConsecutiveIffCovers | scripts/validate_docs_numbering.py:54-61 | a strictly increasing list is consecutive exactly when it holds every value between its ends |
| DocsNumbering.NoChaptersIff | scripts/validate_docs_numbering.py:50-52 | an empty listing gives exactly the one "no chapters" issue, and only an empty one does |
| DocsNumbering.ContiguousIff | scripts/validate_docs_numbering.py:47-62 | with a chapter present, there is no issue exactly when every number between the smallest and the largest is used |
| DocsNumbering.Suffixes | scripts/validate_docs_numbering.py:73 | the suffixes of a group, in order |
| DocsNumbering.ScanEntryOk | scripts/validate_docs_numbering.py:86-106 | each entry of the suffix loop keeps the loop's invariant |
| DocsNumbering.ScanSuffixesOk | scripts/validate_docs_numbering.py:86-106 | the suffix loop keeps its invariant over the whole group |
| DocsNumbering.MissingPositionsMembers | scripts/validate_docs_numbering.py:120-126 | a position is reported missing exactly when it is expected, absent from the run, and not the base position under a base file |
| DocsNumbering.AcceptedIncreasing | scripts/validate_docs_numbering.py:108-112 | the accepted positions are strictly increasing, and hold 0 when there is a base file |
| DocsNumbering.MissingNonEmpty | scripts/validate_docs_numbering.py:118-127 | an increasing run that holds 0 under a base file, but is not 0..max, misses some position |
| DocsNumbering.RunIssuesMeaning | scripts/validate_docs_numbering.py:114-134 | the comparison adds an issue exactly when the accepted run is not 0..max, and the issue lists exactly the positions below the maximum that no file takes, never an empty list |
| DocsNumbering.SuffixRunChecked | scripts/validate_docs_numbering.py:82-134 | for a number with at most one unlettered file, the issues are those of the suffix loop, followed by one listing the missing positions exactly when the run is not 0..max |
| DocsNumbering.NeverNotContiguous | scripts/validate_docs_numbering.py:131-134 | the "not contiguous" message is never produced |
| DocsNumbering.NoNotContiguousIn | scripts/validate_docs_numbering.py:71-134 | no group's issues hold the "not contiguous" message |
| DocsNumbering.ScanFacts | scripts/validate_docs_numbering.py:86-112 | the suffix loop raises only loop issues, and its accepted positions are increasing and hold 0 under a base file |
| DocsNumbering.AcceptedLetters | scripts/validate_docs_numbering.py:90-106 | the accepted letters are exactly the valid suffixes of the group, each once, with `a` excluded under a base file |
| DocsNumbering.GroupByNumber | scripts/validate_docs_numbering.py:67-69 | grouping holds exactly the numbers present, each with its entries in order |
| DocsNumbering.GroupOfAbsent | scripts/validate_docs_numbering.py:67-69 | a number that no entry has has no group |
| DocsNumbering.ScanGroup | scripts/validate_docs_numbering.py:86-106 | the suffix loop gives the issues, the seen letters and the accepted positions |
| DocsNumbering.FindMissing | scripts/validate_docs_numbering.py:119-126 | the loop collects exactly the missing positions |
| DocsNumbering.CheckGroup | scripts/validate_docs_numbering.py:72-134 | the checks for one number give that group's issues |
| DocsNumbering.CheckSuffixRules | scripts/validate_docs_numbering.py:65-135 | the method gives the suffix issues of the groups in ascending order of number |
| DocsNumbering.CheckGroups | scripts/validate_docs_numbering.py:71-134 | the loop over the sorted numbers gives each group's issues in turn |
| DocsNumbering.CheckNextGroup | scripts/validate_docs_numbering.py:72-134 | one pass of the loop appends the issues of its number |
| DocsNumbering.RunMain | scripts/validate_docs_numbering.py:138-155 | exit status 1 when `docs/` is missing or either check reports an issue, and 0 otherwise |
| DocNumberingCheck.MatchAfterDigitsIs | scripts/check_doc_numbering.py:11 | after the digits come letters, `_` and a valid tail, so the match gives the number and the letters lowercased |
| DocNumberingCheck.MatchNameComplete | scripts/check_doc_numbering.py:11 | every name made of digits, letters in any case, `_` and a tail ending in `.md` in any case matches, with that number and the letters lowercased |
| DocNumberingCheck.MatchNameSound | scripts/check_doc_numbering.py:11 | every name that matches is digits, letters, `_` and a valid tail |
| DocNumberingCheck.Regroup | scripts/check_doc_numbering.py:11 | the pieces of a match put back together give the name |
| DocNumberingCheck.MatchAfterDigitsSound | scripts/check_doc_numbering.py:11 | a match after the digit run is letters, `_` and a valid tail |
| DocNumberingCheck.MatchedSuffixIsLower | scripts/check_doc_numbering.py:23 | the suffix of a match is made of lowercase ASCII letters |
| DocNumberingCheck.Numbers | scripts/check_doc_numbering.py:87 | the numbers of the files, in order |
| DocNumberingCheck.GroupOfAbsent | scripts/check_doc_numbering.py:14-26 | a number no file has has no files |
| DocNumberingCheck.AddFile | scripts/check_doc_numbering.py:24 | adding one file appends its number to the key order when it is new, and extends that number's list only |
| DocNumberingCheck.CollectNumberedFiles | scripts/check_doc_numbering.py:14-26 | the dictionary's keys, in first-seen order, are exactly the matched numbers, and each maps to its files in listing order |
| DocNumberingCheck.MatchedSnoc | scripts/check_doc_numbering.py:17-24 | a name that does not match adds nothing, and one that does adds its file |
| DocNumberingCheck.Append | scripts/check_doc_numbering.py:24 | appending a file keeps the dictionary and its key order in step with the files seen so far |
| DocNumberingCheck.FindNumericGaps | scripts/check_doc_numbering.py:29-34 | the loop over adjacent pairs gives the gaps |
| DocNumberingCheck.NoGapsIff | scripts/check_doc_numbering.py:29-34 | on sorted distinct numbers there is no gap exactly when each number is one more than the one before |
| DocNumberingCheck.GapsMembers | scripts/check_doc_numbering.py:29-34 | the gaps are exactly the adjacent pairs that differ by more than one |
| DocNumberingCheck.GapIsReal | scripts/check_doc_numbering.py:29-34 | each gap joins two present numbers more than one apart, and every number between them is missing |
| DocNumberingCheck.KeyInjective | scripts/check_doc_numbering.py:42 | within one number, equal keys mean equal suffixes |
| DocNumberingCheck.Suffixes | scripts/check_doc_numbering.py:57 | the suffixes of a group, in order |
| DocNumberingCheck.SuffixesAppend | scripts/check_doc_numbering.py:41 | a new file adds its suffix at the end |
| DocNumberingCheck.FirstWith | scripts/check_doc_numbering.py:43-49 | the file `seen` remembers for a suffix is the first file with it |
| DocNumberingCheck.FirstWithAppend | scripts/check_doc_numbering.py:43-49 | a later file does not change which file is remembered |
| DocNumberingCheck.DuplicatesCount | scripts/check_doc_numbering.py:39-49 | one message per repeat: the messages and the distinct suffixes together account for every file |
| DocNumberingCheck.GroupDuplicates | scripts/check_doc_numbering.py:40-49 | the inner loop gives one message per repeated key, naming the first file with it |
| DocNumberingCheck.VisitFile | scripts/check_doc_numbering.py:42-49 | one pass of the inner loop keeps `seen` holding each key's first file and the messages in step |
| DocNumberingCheck.FindNumericDuplicates | scripts/check_doc_numbering.py:37-50 | the messages of every number, in the dictionary's order |
| DocNumberingCheck.Codes | scripts/check_doc_numbering.py:69 | the letter codes of a group, in order |
| DocNumberingCheck.CheckLetterRun | scripts/check_doc_numbering.py:68-76 | the loop with its resynchronising expected code gives the label messages |
| DocNumberingCheck.CheckSuffixSequences | scripts/check_doc_numbering.py:53-78 | the method gives the duplicate message and the label messages, or the `TypeError` of `ord` when a suffix has several letters |
| DocNumberingCheck.NoLettersNoErrors | scripts/check_doc_numbering.py:62-63 | with no letters there are no sequence errors at all |
| DocNumberingCheck.RaisesIff | scripts/check_doc_numbering.py:65-69 | the check raises exactly when some file of the number has a suffix of several letters |
| DocNumberingCheck.CodesDistinct | scripts/check_doc_numbering.py:57 | one-letter suffixes have distinct codes exactly when they are distinct |
| DocNumberingCheck.DuplicateSuffixIff | scripts/check_doc_numbering.py:59-60 | the duplicate message appears exactly when two files of the number share a letter suffix |
| DocNumberingCheck.LabelErrorsAreMissingLabels | scripts/check_doc_numbering.py:68-76 | the loop reports only missing labels |
| DocNumberingCheck.LabelErrorAtPrefix | scripts/check_doc_numbering.py:68-76 | a message about an earlier letter does not depend on the letters after it |
| DocNumberingCheck.LabelErrorsMembers | scripts/check_doc_numbering.py:68-76 | the messages are exactly the positions whose letter is not the one expected |
| DocNumberingCheck.LabelErrorsEmptyIff | scripts/check_doc_numbering.py:68-76 | there is no message exactly when the letters run without a hole from the start |
| DocNumberingCheck.MissingLabelIsMissing | scripts/check_doc_numbering.py:65-76 | on sorted distinct letters each message names a present letter and an absent expected letter below it; with a base file the first letter is never reported |
| DocNumberingCheck.CheckAllSuffixes | scripts/check_doc_numbering.py:100-101 | the loop over the dictionary gives every number's sequence errors in order, or the error of the first check that raises |
| DocNumberingCheck.SuffixErrorsStayFailed | scripts/check_doc_numbering.py:100-101 | once a suffix check raises, the run raises whatever numbers come after |
| DocNumberingCheck.RunMain | scripts/check_doc_numbering.py:81-114 | the method gives the outcome of `main` |
| DocNumberingCheck.MainExitIff | scripts/check_doc_numbering.py:81-110 | the run exits 0 exactly when nothing matched or no check reported anything |
| DocNumberingCheck.MainCrashIff | scripts/check_doc_numbering.py:65-69 | the run raises exactly when some matched file has a suffix of several letters |
| DocNumberingCheck.SuffixErrorsOverRaisesIff | scripts/check_doc_numbering.py:100-101 | the suffix checks over some numbers raise exactly when one of their groups holds a suffix of several letters |
| DocNumberingCheck.FixedSuffixErrors | scripts/check_doc_numbering.py:53-78 | the corrected check reports a suffix of several letters instead of raising, and agrees with the script wherever it does not raise |
| DocNumberingCheck.FixedSuffixErrorsOverAgree | scripts/check_doc_numbering.py:100-101 | where the script's checks do not raise, the corrected ones report the same messages |
| DocNumberingCheck.FixedSuffixErrorsOverReports | scripts/check_doc_numbering.py:100-101 | a number with a suffix of several letters gets its message from the corrected checks |
| DocNumberingCheck.FixedMainIff | scripts/check_doc_numbering.py:81-110 | the corrected run never raises, agrees with the script wherever the script does not raise, and exits 1 where the script would raise |
| DocNumberingCheck.LongSuffixCrashes | scripts/check_doc_numbering.py:65-69 | a name such as `01ab_x.md` makes the script raise and the corrected run exit 1 |
| Environment.DictGet | scripts/verify_environment.py:148 | `.get` succeeds exactly on a dictionary and gives `None` for a missing key or a stored `None` |
| Environment.DictGetOr | scripts/verify_environment.py:129 | `.get` with a default succeeds exactly on a dictionary and gives the default for a missing key |
| Environment.Items | scripts/verify_environment.py:130 | `.items()` succeeds exactly on a dictionary and gives its entries in order |
| Environment.OrEmpty | scripts/verify_environment.py:148 | `v or {}` is truthy exactly when its operand is, and a falsy result is always the empty dictionary |
| Environment.FrontMatterLines | scripts/verify_environment.py:44-48 | the collected lines are the longest prefix with no closing `---` line, stopped by that line or by the end |
| Environment.CollectFrontMatter | scripts/verify_environment.py:44-48 | the loop with its `break` collects exactly that prefix |
| Environment.FrontMatterUnique | scripts/verify_environment.py:44-48 | any prefix that has those three properties is that prefix |
| Environment.LoadFrontMatter | scripts/verify_environment.py:36-53 | loading fails exactly when the file is missing, the first line is not `---` or the front matter is empty, with the message for the missing file; otherwise it gives the parsed front matter, or `{}` when that is falsy |
| Environment.LoadFrontMatterFile | scripts/verify_environment.py:36-53 | the loader with its loop gives that outcome |
| Environment.DropLeading | scripts/verify_environment.py:57 | `lstrip("v")` gives the suffix after every leading `v`, which does not itself start with one |
| Environment.ParseVersion | scripts/verify_environment.py:56-61 | parsing fails exactly when the stripped text without its leading `v`s is not a version, and the error names the raw text |
| Environment.DigitsEnd | scripts/verify_environment.py:82 | the run of digits from a position ends at the first non-digit |
| Environment.DottedEnd | scripts/verify_environment.py:82 | the greedy `(?:\.\d+)+` tail is made of dots followed by digits and cannot be extended, and it is non-empty when a dot and a digit follow |
| Environment.FirstVersionAt | scripts/verify_environment.py:82 | the search finds the leftmost position where `\d+(?:\.\d+)+` matches, or reports that it matches nowhere |
| Environment.InlineVersion | scripts/verify_environment.py:81-83 | without a pattern the result is the whole output when nothing matches, and otherwise a dotted number |
| Environment.MatchIsDotted | scripts/verify_environment.py:82 | where the pattern matches, the greedy match is a non-empty dotted number |
| Environment.DottedNumberOf | scripts/verify_environment.py:82 | digits followed by a dotted tail form a dotted number |
| Environment.FirstPandocAt | scripts/verify_environment.py:160 | the search finds the leftmost position where `pandoc\s+(\S+)` matches, or reports that it matches nowhere |
| Environment.PandocVersion | scripts/verify_environment.py:85-86 | the targeted search gives "" exactly when the pattern never matches, and otherwise a word without white space |
| Environment.RunVersionCommand | scripts/verify_environment.py:64-86 | a command that is missing or fails gives ""; for pandoc the result is "" exactly when the combined stripped output never has `pandoc` followed by white space and a word, and is otherwise a word without white space; for the other tools it is the whole stripped output when no dotted version occurs, and a dotted number otherwise |
| Environment.CompareVersions | scripts/verify_environment.py:89-102 | an empty version is not found; a declared value that is not a string raises; the comparison succeeds exactly when both sides parse to versions with the same key |
| Environment.ToolChecks | scripts/verify_environment.py:148-174 | the four rows are built exactly when the toolchain is a dictionary |
| Environment.ToolIssue | scripts/verify_environment.py:176-185 | a row with nothing declared gives the "no expected version" issue; otherwise it fails exactly when the comparison fails, and gives at most one issue |
| Environment.VerifyToolVersions | scripts/verify_environment.py:147-187 | the method gives the issues of the four rows in order |
| Environment.CheckTools | scripts/verify_environment.py:176-185 | the loop over the rows gives the issues of every row, in order |
| Environment.CheckTool | scripts/verify_environment.py:177-185 | one pass of the loop gives that row's issue |
| Environment.ToolIssuesStep | scripts/verify_environment.py:176-185 | each row's issues are appended after those of the rows before it |
| Environment.ToolIssuesGrow | scripts/verify_environment.py:176-185 | the loop keeps every earlier issue and adds at most one per row |
| Environment.UndeclaredRows | scripts/verify_environment.py:177-179 | rows with nothing declared give one issue each, whatever is installed |
| Environment.FourUndeclared | scripts/verify_environment.py:176-187 | four undeclared rows give exactly their four issues |
| Environment.NoneDeclared | scripts/verify_environment.py:147-187 | front matter without a toolchain gives exactly the four "no expected version" issues for Python, Pandoc, Node.js and Mermaid CLI |
| Environment.SplitPin | scripts/verify_environment.py:118 | `split("==", 1)` cuts the text at the first `==`: the parts joined by `==` give it back and the first part holds no `==` |
| Environment.ClassifyCases | scripts/verify_environment.py:111-119 | a line is skipped exactly when it strips to nothing or a comment, is unpinned exactly when it holds no `==`, and is otherwise a pin of its stripped name and version |
| Environment.Kinds | scripts/verify_environment.py:110 | each line is read on its own, in order |
| Environment.LoadRequirementsVersions | scripts/verify_environment.py:105-121 | the loop gives the outcome of reading every line |
| Environment.ReadLine | scripts/verify_environment.py:111-119 | one pass of the loop reads its line as the classification says |
| Environment.FirstUnpinned | scripts/verify_environment.py:114-117 | the first unpinned line from a position on: no line before it is unpinned |
| Environment.PinsErrIff | scripts/verify_environment.py:109-121 | loading fails exactly when some line is unpinned, with the message for the first such line |
| Environment.PinsLookup | scripts/verify_environment.py:119 | a later pin of a name overrides an earlier one: the loaded version is that of its last pin line |
| Environment.LastPinCons | scripts/verify_environment.py:119 | the last pin of a name is the one in the rest of the file, or the first line's own pin when the rest has none |
| Environment.PinIssue | scripts/verify_environment.py:199-208 | a declared dependency gives at most one issue, and none exactly when requirements.txt pins it to the declared version |
| Environment.ExtrasSpec | scripts/verify_environment.py:210 | the extra names are sorted, free of repetition, and exactly the names not declared |
| Environment.ExtrasEmptyIff | scripts/verify_environment.py:210-211 | there are no extra names exactly when every name is declared |
| Environment.ExtraNames | scripts/verify_environment.py:210 | the extra names are exactly the names not declared |
| Environment.ExtrasIssue | scripts/verify_environment.py:211-215 | the closing issue appears exactly when there is an extra name |
| Environment.VerifyPythonDependencies | scripts/verify_environment.py:190-217 | the method gives the python dependency issues |
| Environment.CheckPins | scripts/verify_environment.py:198-208 | the loop gives the issues of every declared dependency, in order |
| Environment.CheckPin | scripts/verify_environment.py:199-208 | one pass of the loop gives that dependency's issue |
| Environment.PinIssuesAcc | scripts/verify_environment.py:198-208 | the issues found so far stay in front of those still to come |
| Environment.PinIssuesShape | scripts/verify_environment.py:198-208 | there is at most one issue per declared dependency, and none exactly when each is pinned as declared |
| Environment.PythonIssues | scripts/verify_environment.py:190-217 | with dependencies declared, there is at most one issue per dependency plus one, and the closing issue appears exactly when requirements.txt pins a name that is not declared |
| Environment.PackageJsonVersions | scripts/verify_environment.py:124-130 | a missing package.json raises the "missing" error; otherwise the result is the `devDependencies` entries, empty when the key is absent, and a non-dictionary document or `devDependencies` value fails as in Python |
| Environment.LockVersion | scripts/verify_environment.py:133-144 | a missing lock file raises the "missing" error; a `packages` dictionary without `node_modules/<name>` raises the "missing the entry" error; otherwise the result is the stripped `str()` of the entry's `version`, "" when it has none |
| Environment.StripTwice | scripts/verify_environment.py:144 | stripping twice is stripping once |
| Environment.VerifyNodeDependencies | scripts/verify_environment.py:220-254 | the method gives the node dependency issues |
| Environment.CheckNodePins | scripts/verify_environment.py:228-245 | the loop gives the issues of every declared dependency, in order |
| Environment.CheckNodePin | scripts/verify_environment.py:229-245 | one pass of the loop gives that dependency's issue |
| Environment.LockOnlyWhenPinned | scripts/verify_environment.py:228-245 | the lock file is read only for a dependency that package.json pins as declared: any other dependency gives one issue whatever the lock records, and a pinned one gives none exactly when the lock records the declared version |
| Environment.NullCountsAsMissing | scripts/verify_environment.py:229-234 | a dependency that package.json lacks or lists as null gives one "missing" issue |
| Environment.AgreeingPinIsClean | scripts/verify_environment.py:228-245 | a dependency that package.json pins as declared and that the lock file records with the same version gives no issue, and its lock version is exactly that version |
| Environment.RunMain | scripts/verify_environment.py:257-279 | exit status 0 exactly when the run raises nothing and finds no failure, and 1 otherwise; the failures are those of the three verifiers in order |
| Environment.MainSucceedsIff | scripts/verify_environment.py:257-271 | the run succeeds exactly when the front matter loads and none of the three verifiers raises or reports an issue, so front matter that declares nothing always fails |
| ChapterLengths.RemoveHeadings | scripts/analyze_chapter_lengths.py:31 | deleting heading matches never makes the text longer |
| ChapterLengths.RemoveImages | scripts/analyze_chapter_lengths.py:34 | deleting image matches never makes the text longer |
| ChapterLengths.LinkMatch | scripts/analyze_chapter_lengths.py:37 | a link match spans at least its four delimiters and lies within the text |
| ChapterLengths.RemoveLinks | scripts/analyze_chapter_lengths.py:37 | replacing links by their text never makes the text longer |
| DiagramElements.ClassMatch | scripts/validate_diagram_elements.py:121 | a `class` match spans at least `class`, a blank and one character, and its group is a non-empty run of word characters |
| DiagramElements.InsideFrontMatter | scripts/validate_diagram_elements.py:35-40 | inside front matter the lines up to the closing `---` are dropped |
| DiagramElements.KeptAt | scripts/validate_diagram_elements.py:33-41 | one step of the scan: a `---` line flips the front-matter flag and is dropped, front matter, comments and blank lines are dropped, and other lines are kept |
| DiagramBranding.LineOf | scripts/validate_diagram_branding.py:98 | a position's line number counts from 1 |
| DiagramBranding.HitsAt | scripts/validate_diagram_branding.py:95-102 | one step of `finditer`: a whole-word match is reported and the scan resumes after it, and otherwise it moves one character on |
| DiagramBranding.Validator.constructor | scripts/validate_diagram_branding.py:72-73 | a new validator has the given spellings and no issues |
| LinkVerification.Add | scripts/verify_links.py:278-304 | appending a link to one list of the results leaves every other list as it was |
| PresentationGuidelines.TextAtSound | scripts/validate_presentation_guidelines.py:41-92 | every text warning for a slide carries its number and is justified by that slide |
| PresentationGuidelines.TextAtComplete | scripts/validate_presentation_guidelines.py:41-92 | every warning a slide justifies is among that slide's warnings |
| PresentationGuidelines.IssuesAtSound | scripts/validate_presentation_guidelines.py:111-129 | every critical issue for a slide carries its number and is justified by that slide |
| PresentationGuidelines.IssuesAtComplete | scripts/validate_presentation_guidelines.py:111-129 | every critical issue a slide justifies is among that slide's issues |
| PresentationGuidelines.DiagramWarningSlide | scripts/validate_presentation_guidelines.py:130-164 | every diagram warning for a slide carries its number, and "no diagram" is only for a chapter without a path |
| PresentationGuidelines.DuplicatesSnoc | scripts/validate_presentation_guidelines.py:177-186 | one more title is reported, numbered after the earlier titles, exactly when an earlier title is the same |
| PresentationGuidelines.DuplicatesSlides | scripts/validate_presentation_guidelines.py:181 | duplicate numbers run from 1 up to the count of titles |
| FigureCaptions.CaptionLetter | scripts/validate_figure_captions.py:31-36 | a matched caption starts with `*`, then `F` or `f`, then `igure` |
| FigureCaptions.ProperIff | scripts/validate_figure_captions.py:20-39 | a caption fails exactly when it is spelled with a lowercase `f` |
| FigureCaptions.FilterImplied | scripts/validate_figure_captions.py:70-71 | the preliminary test on `*` and `igure` lets every failing caption through |
| FigureCaptions.CaptionSpelling | scripts/validate_figure_captions.py:31-39 | `*figure` and a caption number fail, and `*Figure` and one pass |
| FigureCaptions.CheckFile | scripts/validate_figure_captions.py:42-76 | the method gives the file's issues |
| FigureCaptions.FileIssuesFlagged | scripts/validate_figure_captions.py:57-72 | every issue is a lowercase caption, and the issues come in file order |
| FigureCaptions.TallyFile | scripts/validate_figure_captions.py:108-111 | one file adds its issues to the total and is counted when it has any |
| FigureCaptions.CountFilesWithIssues | scripts/validate_figure_captions.py:107-111 | the loop counts the checked files that have issues |
| FigureCaptions.CheckedIssues | scripts/validate_figure_captions.py:96-113 | after dropping archived files, some file is left with issues exactly when a checked file has one |
| FigureCaptions.Run | scripts/validate_figure_captions.py:79-127 | the exit code is 1 when the docs directory is missing or some checked file has an issue, and 0 otherwise, also when no file is left |
| FencedScan.IssuesSnoc | scripts/validate_heading_capitalization.py:64-78 | one more line adds only its own issue, rstripped and numbered by its position, and counts as a fence when it is one |
| FencedScan.BlockSnoc | scripts/validate_heading_capitalization.py:68-69 | a fence line flips the in-block flag, and any other line keeps it |
| FencedScan.InBlockOdd | scripts/validate_heading_capitalization.py:67-74 | a line is inside a block exactly when an odd number of fences precede it |
| FencedScan.ScanLines | scripts/validate_heading_capitalization.py:59-78 | the loop gives the rejected lines outside blocks |
| FencedScan.ScanLine | scripts/validate_heading_capitalization.py:65-78 | one pass of the loop body keeps the issues and the flag in step with the lines read |
| FencedScan.IssuesIff | scripts/validate_heading_capitalization.py:64-78 | an issue names line `n` exactly when that line is reported, and carries the line rstripped |
| FencedScan.IssuesOrdered | scripts/validate_heading_capitalization.py:64-78 | the issues are in file order, at most one per line, each within the file |
| FencedScan.BlockUnchanged | scripts/validate_heading_capitalization.py:68-69 | lines without a fence leave the flag as it was |
| FencedScan.FencedBodySkipped | scripts/validate_heading_capitalization.py:72-74 | after a fence that opens a block, no line is reported until the next fence, whatever the check says about it |
| HeadingCapitalization.Core | scripts/validate_heading_capitalization.py:31 | `$` lets the match end before one final newline: the core is the line or the line without that newline |
| HeadingCapitalization.GapText | scripts/validate_heading_capitalization.py:31 | the text after the white-space run is non-empty and holds no newline |
| HeadingCapitalization.HeadingText | scripts/validate_heading_capitalization.py:31-36 | a matched heading starts with `#`, and its text is non-empty and holds no newline |
| HeadingCapitalization.ProperIff | scripts/validate_heading_capitalization.py:20-46 | a heading fails exactly when its text starts with a lowercase letter |
| HeadingCapitalization.ExemptNotLower | scripts/validate_heading_capitalization.py:39 | no exempt special character is a lowercase letter |
| HeadingCapitalization.NonHeadingPasses | scripts/validate_heading_capitalization.py:33-34 | a line that does not start with `#` is never a heading and always passes |
| HeadingCapitalization.LetterHeading | scripts/validate_heading_capitalization.py:43-44 | a heading whose text starts with a letter passes exactly when the letter is uppercase |
| HeadingCapitalization.LowercaseHeadingFails | scripts/validate_heading_capitalization.py:31-44 | hash marks, a space and a word starting with a lowercase letter form a failing heading |
| HeadingCapitalization.CheckFile | scripts/validate_heading_capitalization.py:49-82 | the method gives the file's issues |
| HeadingCapitalization.FileIssuesFlagged | scripts/validate_heading_capitalization.py:64-78 | every issue is a failing heading, and the issues come in file order |
| HeadingCapitalization.TallyFile | scripts/validate_heading_capitalization.py:114-117 | one file adds its issues to the total and is counted when it has any |
| HeadingCapitalization.CountFilesWithIssues | scripts/validate_heading_capitalization.py:113-117 | the loop counts the files that have issues |
| HeadingCapitalization.Run | scripts/validate_heading_capitalization.py:85-133 | the exit code is 1 when the docs directory is missing or some file has an issue, and 0 otherwise, also when there is no markdown file |
| HeadingCase.RemoveFenced | scripts/check_heading_case.py:30 | removing fenced blocks never makes the text longer |
| HeadingCase.FenceInTail | scripts/check_heading_case.py:30 | a fence in `a + b`, where `a` holds no fence and does not end in a backtick, lies in `b` |
| HeadingCase.FenceInHead | scripts/check_heading_case.py:30 | a fence that ends inside the first part lies in the first part |
| HeadingCase.FenceAcross | scripts/check_heading_case.py:30 | a fence across the join means the first part ends in a backtick |
| HeadingCase.BeforeFirstFence | scripts/check_heading_case.py:30 | what precedes the first fence holds no fence and does not end in a backtick |
| HeadingCase.FenceOneEarlier | scripts/check_heading_case.py:30 | a backtick right before a fence starts a fence itself |
| HeadingCase.RemoveFencedComplete | scripts/check_heading_case.py:30 | deleting the fenced blocks leaves no complete fenced block behind |
| HeadingCase.RemoveFencedAt | scripts/check_heading_case.py:30 | the first block is deleted between its opening and its closing fence, and the scan goes on after it |
| HeadingCase.JoinedWithoutFence | scripts/check_heading_case.py:30 | text without fences in front of text without a complete block has no complete block |
| HeadingCase.NoFenceKept | scripts/check_heading_case.py:30 | text without any fence is left as it is |
| HeadingCase.RemoveInline | scripts/check_heading_case.py:32 | removing inline code never makes the text longer |
| HeadingCase.PlainPrefix | scripts/check_heading_case.py:32 | backtick-free text in front is kept as it is, and the rest is processed on its own |
| HeadingCase.NoBacktickKept | scripts/check_heading_case.py:32 | text without backticks is left as it is |
| HeadingCase.SpanRemoved | scripts/check_heading_case.py:32 | a code span is deleted along with its backticks |
| HeadingCase.InlineSpanRemoved | scripts/check_heading_case.py:32 | a code span after backtick-free text is deleted along with its backticks |
| HeadingCase.ScannedLines | scripts/check_heading_case.py:25-35 | no scanned line holds a newline |
| HeadingCase.Heading | scripts/check_heading_case.py:37-40 | a heading's level is one to six hash marks at the start of the line |
| HeadingCase.WithoutAttributes | scripts/check_heading_case.py:44 | dropping the attribute block keeps a prefix of the heading text |
| HeadingCase.AttributesDropped | scripts/check_heading_case.py:42-44 | a trailing ` {attributes}` block after the words of a heading is dropped |
| HeadingCase.ViolationIff | scripts/check_heading_case.py:37-48 | a line is a violation exactly when it is a heading whose text, without its attribute block, starts with a lowercase letter, and the violation reports the level and the text with its attributes |
| HeadingCase.DeepHeadingIgnored | scripts/check_heading_case.py:37 | a heading of seven or more hash marks is never a violation |
| HeadingCase.ViolationsSnoc | scripts/check_heading_case.py:35-48 | one more line adds only its own violation, numbered by its position |
| HeadingCase.ViolationsIff | scripts/check_heading_case.py:34-50 | a violation names line `n` exactly when that line's heading is a violation |
| HeadingCase.CheckLine | scripts/check_heading_case.py:36-48 | one pass of the line loop adds that line's violation |
| HeadingCase.CheckHeadingCase | scripts/check_heading_case.py:15-50 | the method gives the violations of the file's lines once code is removed |
| HeadingCase.CountViolations | scripts/check_heading_case.py:68-81 | the total is zero exactly when no file has a violation |
| HeadingCase.Run | scripts/check_heading_case.py:53-92 | the exit code is 1 when the docs directory is missing or holds no markdown file, and otherwise 0 exactly when no file has a violation |
| IssueBot.IssueUrl | scripts/issue_bot_base.py:21-26 | the issue link is empty exactly when the repository is unknown, and otherwise it is the repository's issue page |
| IssueBot.ConsSlug | scripts/issue_bot_base.py:31 | a slug character, or a hyphen not followed by another, put in front keeps slug characters and single hyphens |
| IssueBot.Hyphenate | scripts/issue_bot_base.py:31 | every maximal run of characters other than `a-z0-9` becomes one hyphen: the result has only slug characters and no double hyphen, is empty only for the empty text and keeps a leading slug character |
| IssueBot.HyphenateFixed | scripts/issue_bot_base.py:31 | text with only slug characters and single hyphens comes back unchanged |
| IssueBot.SliceKeepsSlug | scripts/issue_bot_base.py:33 | a slice of a slug keeps its slug characters and single hyphens |
| IssueBot.StripHyphens | scripts/issue_bot_base.py:31 | stripping hyphens leaves text that neither starts nor ends with one |
| IssueBot.StripHyphensKeeps | scripts/issue_bot_base.py:31 | stripping hyphens keeps slug characters and single hyphens |
| IssueBot.CutSlug | scripts/issue_bot_base.py:32-33 | a slug over the limit is cut to a prefix within the limit and loses its trailing hyphens, and a shorter one stays |
| IssueBot.FallbackValid | scripts/issue_bot_base.py:34 | the fallback `issue` is a valid slug |
| IssueBot.SlugifyValid | scripts/issue_bot_base.py:29-34 | every slug is valid and within the limit, unless it is the fallback |
| IssueBot.SlugifyFixed | scripts/issue_bot_base.py:29-34 | a valid slug within the limit is its own slug |
| IssueBot.SlugifyIdempotent | scripts/issue_bot_base.py:29-34 | slugifying twice is slugifying once, whenever the fallback fits the limit |
| IssueBot.SourceLines | scripts/issue_bot_base.py:42 | after normalising the line endings no line holds a carriage return or a line feed |
| IssueBot.QuoteLine | scripts/issue_bot_base.py:43 | quoting a line adds no line break |
| IssueBot.Blockquote | scripts/issue_bot_base.py:39-40 | blank text becomes the fixed placeholder |
| IssueBot.BlockquoteLines | scripts/issue_bot_base.py:37-44 | the quote of a non-blank text has one line per source line: `>` exactly for the blank ones, and `> ` with the trimmed text for the others |
| IssueBot.QuotedEach | scripts/issue_bot_base.py:43 | each source line is quoted on its own, with no line break inside |
| IssueBot.QuoteLineShape | scripts/issue_bot_base.py:43 | a quoted line is the bare `>` exactly when the line is blank, and otherwise `> ` with the trimmed text |
| IssueBot.LoadIssueContext | scripts/issue_bot_base.py:47-66 | a missing or empty issue number is an error; the title defaults and is trimmed, a missing or placeholder body becomes empty and any other body is kept, and the repository defaults to empty |
| IssueBot.BlankTitleIsEmpty | scripts/issue_bot_base.py:53 | a title of spaces is not replaced by the default: it is trimmed to nothing |
| IssueBot.BuildDocument | scripts/issue_bot_base.py:69-96 | the method builds the document |
| IssueBot.AppendSection | scripts/issue_bot_base.py:88-94 | one section adds an empty line, its heading and its body or the placeholder |
| IssueBot.JoinedOpening | scripts/issue_bot_base.py:96 | lines that start with a visible heading and a third line ending visibly keep both through the join and the strip |
| IssueBot.DocumentOpening | scripts/issue_bot_base.py:78-82 | the document opens with its heading, an empty line and the generation line |
| IssueBot.DocumentEnding | scripts/issue_bot_base.py:96 | the document ends with exactly one newline after a visible character |
| IssueBot.SectionBlock | scripts/issue_bot_base.py:84-94 | each section has its own block of lines after the preamble and the earlier sections: an empty line, its heading, then its body or the placeholder |
| IssueBot.FileName | scripts/issue_bot_base.py:110 | the file name is the issue number, a hyphen, a valid slug of the title and `.md` |
| MermaidPatterns.Skip | scripts/analyze_diagram_complexity.py:62 | a greedy run ends at the first character that fails its test |
| MermaidPatterns.KeywordAt | scripts/analyze_diagram_complexity.py:160 | an alternation takes the first keyword that occurs, and no earlier one occurs |
| MermaidPatterns.KeywordLineEnd | scripts/analyze_diagram_complexity.py:66 | a `^\s*keyword` match starts at a line start and is not empty |
| MermaidPatterns.KeywordLineMatches | scripts/analyze_diagram_complexity.py:66 | a keyword at the start of a line, after indentation and followed by white space, is a match |
| MermaidPatterns.SkipTo | scripts/analyze_diagram_complexity.py:62 | a run that stops at a given position is the run that the greedy match takes |
| MermaidPatterns.KeywordLineNeedsKeyword | scripts/analyze_diagram_complexity.py:160-164 | content in which no keyword occurs has no keyword line |
| MermaidPatterns.NodeEnd | scripts/analyze_diagram_complexity.py:62 | a node match starts with a capital letter and ends with a shape bracket |
| MermaidPatterns.NodesNeedBrackets | scripts/analyze_diagram_complexity.py:62-63 | content without a shape bracket has no node |
| MermaidPatterns.ArrowEnd | scripts/analyze_diagram_complexity.py:80 | an arrow match starts with a dash and is not empty |
| MermaidPatterns.ClassRelationEnd | scripts/analyze_diagram_complexity.py:94 | a class relation is three characters and starts with `-` or `.` |
| MermaidPatterns.EntityEnd | scripts/analyze_diagram_complexity.py:104 | an entity match starts at a line start and ends with `{` |
| MermaidPatterns.ErRelationEnd | scripts/analyze_diagram_complexity.py:108 | a relationship is five or six characters and starts with `\|` or `}` |
| MermaidPatterns.SliceEnd | scripts/analyze_diagram_complexity.py:146 | a slice match starts at a line start and ends with `:` |
| MermaidPatterns.NumberEnd | scripts/analyze_diagram_complexity.py:152 | a number match is not empty |
| MermaidPatterns.PointEnd | scripts/analyze_diagram_complexity.py:152 | a point match starts with `:` and ends with `]` |
| MermaidPatterns.RequirementRelationEnd | scripts/analyze_diagram_complexity.py:168 | a requirement relation starts with white space and is not empty |
| MermaidPatterns.CountsBounded | scripts/analyze_diagram_complexity.py:57-185 | every count is a count of non-empty, non-overlapping matches, so none exceeds a small multiple of the length |
| MermaidPatterns.SubgraphCounted | scripts/analyze_diagram_complexity.py:66-67 | a `subgraph` line adds to the graph count |
| MermaidPatterns.SlicesNeedQuotes | scripts/analyze_diagram_complexity.py:146 | text without a quote has no pie slice |
| MermaidPatterns.PointsNeedColons | scripts/analyze_diagram_complexity.py:152 | text without a colon has no quadrant point |
| MermaidPatterns.ArrowsNeedDashes | scripts/analyze_diagram_complexity.py:80-81 | text without a dash has no sequence arrow |
| Navigation.TargetsIff | scripts/navigation.py:48-63 | the targets of a subtree are exactly its string leaves |
| Navigation.ItemTargetsIff | scripts/navigation.py:55-58 | the targets of a list are the string leaves of its items |
| Navigation.EntryTargetsIff | scripts/navigation.py:60-63 | the targets of a dictionary are the string leaves of its values |
| Navigation.ItemTargetsAppend | scripts/navigation.py:55-58 | the targets of a list are those of its first part followed by those of the rest |
| Navigation.StringItemsAreTargets | scripts/navigation.py:51-58 | every string item of a list is one of its targets |
| Navigation.ScalarsHaveNoTargets | scripts/navigation.py:48-63 | a scalar other than a string has no targets |
| Navigation.MarkdownIff | scripts/navigation.py:66-69 | a target is markdown exactly when its last part ends in `.md`, in any case, after at least one character |
| Navigation.SectionFiles | scripts/navigation.py:87-97 | an entry contributes exactly the markdown targets under it when it is a one-key `Part ...` or `Appendices` section with a list, and nothing otherwise |
| Navigation.BookFilesMembers | scripts/navigation.py:82-102 | the book files are exactly the markdown targets under the book sections |
| Navigation.GetBookBuildFiles | scripts/navigation.py:82-102 | the method gives the book files, and an error when there are none |
| Navigation.WhitepaperChapterFiles | scripts/navigation.py:105-109 | the whitepaper chapters are the book files whose stem does not start with `part_`, and an error when there are no book files |
| Navigation.AllNavigationTargets | scripts/navigation.py:112-116 | every target of the whole navigation is listed and nothing else, and every top-level string is among them |
| Navigation.LoadNavigation | scripts/navigation.py:19-45 | the navigation loads exactly when the configuration exists, parses to a mapping and has a list under `nav`, and then it is that list |
| Presentation.LimitWordsShort | generate_presentation.py:45-50 | a text of at most the limit's words, the empty text among them, comes back exactly as it was |
| Presentation.JoinExtendLast | generate_presentation.py:53-55 | appending to a joined list appends to its last element |
| Presentation.DotsWord | generate_presentation.py:55 | "..." is a word of its own |
| Presentation.ExtendedWords | generate_presentation.py:53-55 | joining the first words and appending "..." gives those words, the last with "..." attached |
| Presentation.LimitWordsLong | generate_presentation.py:52-57 | a longer text keeps its first words up to the limit, the last of them followed by "..." |
| Presentation.LimitWordsAtMost | generate_presentation.py:43-57 | with a limit of at least one, the result never has more words than the limit |
| Presentation.LimitWordsIdempotent | generate_presentation.py:43-57 | limiting twice is limiting once |
| Presentation.LineType | generate_presentation.py:93-139 | a line either announces one of the fifteen named types or none, never "other" |
| Presentation.KeywordType | generate_presentation.py:95-139 | the first known prefix of a trimmed, lowered line names a type other than "other" |
| Presentation.FirstType | generate_presentation.py:91-139 | a diagram is "other" exactly when none of its lines announces a type |
| Presentation.HeadLines | generate_presentation.py:89 | the type is decided by at most the first three lines |
| Presentation.FlowchartIff | generate_presentation.py:95-97 | a line announces a flowchart exactly when it starts with `graph ` or `flowchart `, the space included |
| Presentation.FilesOfTypeSnoc | generate_presentation.py:141 | one more file is appended to its own type's list only |
| Presentation.EveryTypeListed | generate_presentation.py:61-78 | every type has a list among the sixteen |
| Presentation.AnalyzeMermaidDiagramTypes | generate_presentation.py:59-146 | every readable file is filed under its type, in listing order, with a list for each of the sixteen types, and a missing directory leaves them all empty |
| Presentation.NoFilesFiled | generate_presentation.py:61-78 | the sixteen empty lists file no file |
| Presentation.FileUnderType | generate_presentation.py:87-144 | a readable file is appended to its type's list, and an unreadable one changes nothing |
| Presentation.AnalysisStep | generate_presentation.py:86-144 | filing one more file keeps every list equal to the files of its type |
| Presentation.MissingSnoc | generate_presentation.py:161-165 | one more type lands in exactly one of the two lists, at its end |
| Presentation.GetMissingDiagramTypes | generate_presentation.py:148-171 | the method gives the essential types without files and those with files, each in essential order |
| Presentation.SplitByPresence | generate_presentation.py:161-165 | the loop over the types gives the missing and available lists |
| Presentation.MissingPartition | generate_presentation.py:153-165 | each essential type is reported once, missing or available, and nothing else is reported |
| Presentation.FilesOfTypeEmpty | generate_presentation.py:141 | a type has no files exactly when no readable file is of that type |
| Presentation.MissingIffNoFile | generate_presentation.py:148-171 | an essential type is missing exactly when no readable file has it |
| Presentation.ValidateChapterDiagrams | generate_presentation.py:173-224 | no docs directory gives the empty result; otherwise the census of the sorted markdown files |
| Presentation.TallyChapter | generate_presentation.py:188-222 | skipped files are ignored, and the others are listed by whether they show a diagram |
| Presentation.CensusStep | generate_presentation.py:187-222 | one more chapter updates the census by itself alone |
| Presentation.WithStep | generate_presentation.py:211-216 | a chapter with a diagram adds its entry and one to the count |
| Presentation.WithoutStep | generate_presentation.py:217-222 | a chapter without a diagram adds its name |
| Presentation.CensusAccounts | generate_presentation.py:187-222 | every counted chapter is listed once, with or without diagrams: the total is the sum of the two lists, the count the first list's length, and the skipped files are not counted |
| Presentation.CensusWithout | generate_presentation.py:211-222 | a chapter without a diagram is listed by name, and one with a diagram by its entry |
| Presentation.KindNamesDistinct | generate_presentation.py:256-305 | no kind is shown as unknown, and distinct kinds have distinct names |
| Presentation.KindOf | generate_presentation.py:253-305 | a diagram is an architecture diagram exactly when no line names a kind, and otherwise it has the kind of some line |
| Presentation.DetectKind | generate_presentation.py:256-305 | the loop stops at the first line with a known prefix |
| Presentation.ExplanationAt | generate_presentation.py:313-327 | an explanation found next to a reference has at most 18 words |
| Presentation.ContextExplanation | generate_presentation.py:310-327 | an explanation found in the chapter has at most 18 words |
| Presentation.FindExplanation | generate_presentation.py:311-327 | the loop finds the explanation at the first referencing line that has one |
| Presentation.KapitelFrom | generate_presentation.py:332 | a found chapter number is a non-empty run of digits |
| Presentation.ChooseExplanation | generate_presentation.py:330-341 | the method chooses the explanation from the context or the fallback |
| Presentation.ExtractDiagramMetadata | generate_presentation.py:226-343 | the method gives the diagram's metadata |
| Presentation.MetadataFacts | generate_presentation.py:235-343 | for a diagram path the source names the `.mmd` file, the explanation has at most 18 words, and the kind stays unknown exactly when the source cannot be read |
| Presentation.MetadataWithoutPath | generate_presentation.py:235-236 | without a path nothing is known about a diagram |
| Presentation.MmdNameOfStem | generate_presentation.py:240 | a rendered `<stem>.png` with no other `.png` has its source in `<stem>.mmd` |
| Presentation.MmdNameCons | generate_presentation.py:240 | the first character of a stem without `.png` survives the renaming |
| Presentation.PngNotAtFront | generate_presentation.py:240 | `<stem>.png` for a non-empty stem does not start with `.png` |
| Presentation.Title | generate_presentation.py:352-357 | the title is the trimmed text after the first `# ` line, or the placeholder when there is none |
| Presentation.FindTitle | generate_presentation.py:354-357 | the loop finds that title |
| Presentation.FirstDiagram | generate_presentation.py:362-374 | the diagram is the target of the first image line whose target is a `.png` file, and there is none exactly when no line has one |
| Presentation.FindDiagram | generate_presentation.py:362-374 | the loop finds that diagram |
| Presentation.DocsPathPng | generate_presentation.py:370 | a `.png` target keeps its extension under `docs/` |
| Presentation.SectionPoint | generate_presentation.py:394-412 | a section gives at most one key point, of at most 20 words |
| Presentation.PointOfSection | generate_presentation.py:396-412 | the loop over the section's lines gives that point |
| Presentation.Close | generate_presentation.py:394-412 | closing a section keeps the points and adds at most one, and none when there is no section |
| Presentation.FoldAppend | generate_presentation.py:382-417 | the line loop over two parts is the loop over the first and then the second |
| Presentation.CodeLinesIgnored | generate_presentation.py:386-390 | inside a fence, lines that do not close it change nothing |
| Presentation.FoldCons | generate_presentation.py:382-417 | the loop takes the lines one at a time, from the first |
| Presentation.FencedBlockIgnored | generate_presentation.py:386-390 | a fenced block contributes nothing to the key points |
| Presentation.NoHeadingNoSection | generate_presentation.py:392-417 | without section headings there is never a current section |
| Presentation.NoSectionsNoPoints | generate_presentation.py:376-436 | key points come only from `## ` sections: a chapter without one has none |
| Presentation.FoldShort | generate_presentation.py:382-436 | every collected point has at most 20 words |
| Presentation.Padded | generate_presentation.py:439-448 | one to four points are padded to five with the general points; none or five and more stay |
| Presentation.PaddedWords | generate_presentation.py:439-448 | the added points have at most 20 words |
| Presentation.PadKeyPoints | generate_presentation.py:439-448 | the padding loop gives the padded points |
| Presentation.CollectKeyPoints | generate_presentation.py:376-436 | the key-point loop, with its final section, gives the points of the chapter |
| Presentation.ReadChapterContent | generate_presentation.py:345-459 | the method gives the chapter's slide, or none when the file cannot be read |
| Presentation.KeyPointCount | generate_presentation.py:438-452 | a slide has no key point or between five and ten: one to four are padded to five, and more than ten are cut to ten |
| Presentation.KeyPointWords | generate_presentation.py:376-452 | every key point on a slide has at most 20 words |
| Presentation.SlideDiagram | generate_presentation.py:359-374 | a slide's diagram is the chapter's first `.png` diagram under `docs/`, with its metadata beside it |
| StructurizrManifest.FormatsAscending | scripts/update_structurizr_manifest.py:38-39 | the formats come out in strictly ascending order: sorted, and no format twice |
| StructurizrManifest.FormatsMembers | scripts/update_structurizr_manifest.py:38-39 | a format is listed exactly when some comma-separated fragment of the option strips to it and is not empty |
| StructurizrManifest.FormatsTrimmed | scripts/update_structurizr_manifest.py:38-39 | every listed format is non-empty and free of surrounding white space and of commas |
| StructurizrManifest.NormaliseIdempotent | scripts/update_structurizr_manifest.py:38-39 | normalising the comma-joined result again gives it back unchanged |
| StructurizrManifest.NormaliseEmpty | scripts/update_structurizr_manifest.py:38-39 | an empty option names no format |
| StructurizrManifest.NormaliseFixed | scripts/update_structurizr_manifest.py:38-39 | an ascending list of trimmed, non-empty formats without commas is its own normalisation |
| StructurizrManifest.Entries | scripts/update_structurizr_manifest.py:60-66 | the manifest's keys are paired with its values in order |
| StructurizrManifest.BuildManifest | scripts/update_structurizr_manifest.py:50-66 | a missing workspace is an error, and otherwise the manifest lists the normalised formats |
| StructurizrManifest.ManifestObject | scripts/update_structurizr_manifest.py:60-66 | the JSON object has exactly the five keys, in this order |
| StructurizrManifest.ObjectFormats | scripts/update_structurizr_manifest.py:63 | the object lists the formats under `export_formats` |
| VerifySources.SkipSpaceIsLStrip | scripts/verify_sources.py:59 | skipping blanks is removing leading white space |
| VerifySources.StartsWithWordIff | scripts/verify_sources.py:59 | matching a word under `re.IGNORECASE` at the start is the lowered prefix being that word |
| VerifySources.AfterMarkerSuffix | scripts/verify_sources.py:59 | what follows the optional `##\s+` marker is a suffix of the line |
| VerifySources.SourcesAtShift | scripts/verify_sources.py:69 | looking for "sources" one character later is looking in the rest of the line |
| VerifySources.SourcesAtFront | scripts/verify_sources.py:69 | `[Ss]ources` at the front is an `S` in either case followed by "ources" |
| VerifySources.MentionsSourcesIff | scripts/verify_sources.py:69 | a line mentions sources exactly when `[Ss]ources` occurs at some index |
| VerifySources.ItemTextIsStripped | scripts/verify_sources.py:76-78 | the item's text is the line without its marker, stripped |
| VerifySources.SkipBlankPrefix | scripts/verify_sources.py:59 | leading blanks are skipped up to the first non-blank |
| VerifySources.PlainHeading | scripts/verify_sources.py:59 | "Source" or "Sources" in any case, followed by blanks, is a sources heading |
| VerifySources.PlainHeadingRest | scripts/verify_sources.py:59 | the part of the pattern after the marker accepts the word and its blanks |
| VerifySources.StartsWithWordAppend | scripts/verify_sources.py:59 | a case-insensitive prefix stays one when more text follows |
| VerifySources.MarkedHeading | scripts/verify_sources.py:59 | the same heading after `##` and blanks is a sources heading |
| VerifySources.HeadingAfterMarker | scripts/verify_sources.py:59 | a line whose text after the marker is a heading is a heading |
| VerifySources.MarkerSkipped | scripts/verify_sources.py:59 | `##` and blanks in front of a line that starts with no blank are skipped |
| VerifySources.HeadingMentionsSource | scripts/verify_sources.py:59-69 | a sources heading always holds "source" in some case |
| VerifySources.WordInSuffix | scripts/verify_sources.py:59 | a word at the front of a suffix occurs, lowered, in the lowered line |
| VerifySources.ItemLineIff | scripts/verify_sources.py:74-78 | the item lines are exactly the `-` or `*` list items, and an item's text is the item without its marker, stripped |
| VerifySources.ListItemIsNoHeading | scripts/verify_sources.py:57-76 | a list item is never a heading, a subheading or another section, so the earlier branches never take it |
| VerifySources.KindAt | scripts/verify_sources.py:57-76 | each line is read on its own, in order |
| VerifySources.InSectionIff | scripts/verify_sources.py:54-71 | the scan is inside a section exactly when a heading came and no other section followed it |
| VerifySources.LinkAt | scripts/verify_sources.py:107 | a markdown link found at a position ends after it and inside the text |
| VerifySources.LinkAtShape | scripts/verify_sources.py:107 | a link target is not empty and holds no `)` |
| VerifySources.MarkdownLinksShape | scripts/verify_sources.py:107 | every link target found is not empty and holds no `)` |
| VerifySources.MarkdownLinksEmptyIff | scripts/verify_sources.py:107 | no link is found exactly when none starts at any position |
| VerifySources.SchemeAt | scripts/verify_sources.py:113 | the scheme `https?://` is 7 or 8 characters long, inside the text, or absent |
| VerifySources.UrlEnd | scripts/verify_sources.py:113 | a plain URL found at a position runs past its scheme and ends inside the text |
| VerifySources.UrlEndShape | scripts/verify_sources.py:113 | a plain URL is its scheme followed by characters that are neither blank nor `)` nor `]` |
| VerifySources.PlainUrlsShape | scripts/verify_sources.py:113 | every plain URL found is an http or https URL |
| VerifySources.PlainUrlsEmptyIff | scripts/verify_sources.py:113 | no plain URL is found exactly when none starts at any position |
| VerifySources.ExtractUrlsAreHttp | scripts/verify_sources.py:102-116 | every extracted URL is an http or https URL |
| VerifySources.UrlsEmptyIff | scripts/verify_sources.py:102-116 | a citation has no URL exactly when no plain URL starts anywhere and no link targets http(s) |
| VerifySources.GroupAt | scripts/verify_sources.py:121 | the greedy group `[\d-]{10,17}` takes 10 to 17 digits and hyphens, stops at 17 or where they end, and is absent when fewer than ten are there |
| VerifySources.TryRuns | scripts/verify_sources.py:121 | backtracking over the separator run `[:\s-]*` keeps the longest run that leaves a group, or finds none |
| VerifySources.RunGroup | scripts/verify_sources.py:121 | the group after a separator run is 10 to 17 digits and hyphens |
| VerifySources.SepRun | scripts/verify_sources.py:121 | the separator run ends inside the text |
| VerifySources.TryRunsIff | scripts/verify_sources.py:121 | the backtracking finds a group exactly when some split of the separators leaves one |
| VerifySources.IsbnAtIff | scripts/verify_sources.py:121 | the pattern as written matches at a position exactly when a label there is followed by a run and a group |
| VerifySources.EditionIsbnAtIff | scripts/verify_sources.py:118-124 | the corrected pattern matches at a position exactly when a label there is followed, with or without an edition marker, by a run and a group |
| VerifySources.AttemptAtIff | scripts/verify_sources.py:121 | one attempt at a position succeeds exactly when a label, a run and a group are there |
| VerifySources.SearchIsbnShape | scripts/verify_sources.py:121-123 | a found ISBN is 10 to 17 digits and hyphens |
| VerifySources.SearchIsbnNoneIff | scripts/verify_sources.py:121-124 | the search finds nothing exactly when no position has a label followed by a group |
| VerifySources.EditionMarkerDefeatsPattern | scripts/verify_sources.py:121 | at `ISBN-13: ...` the pattern as written has no group: the run takes the hyphen and "13" is too short |
| VerifySources.EditionLabelledIsbnMissed | scripts/verify_sources.py:118-124 | a text whose only label reads like "ISBN-13: 978-0-123-45678-9" gives no ISBN under the pattern as written |
| VerifySources.EditionLabelledIsbnFound | tests/test_source_verification.py:79-94 | with the edition marker allowed, a group after "ISBN-13:" or "ISBN-10:" is always found |
| VerifySources.DigitsOf | scripts/verify_sources.py:215 | the digits of a group are digits only |
| VerifySources.KeptOfIsbnChars | scripts/verify_sources.py:215 | in a group of digits and hyphens, removing separators leaves its digits |
| VerifySources.ExtractedIsbnValidIff | scripts/verify_sources.py:212-232 | an extracted group is valid exactly when it has 10 or 13 digits, so an ISBN-10 ending in X is never accepted from a citation |
| VerifySources.IsbnIgnoresSeparators | scripts/verify_sources.py:215 | a hyphen or white space anywhere in an ISBN does not change the verdict |
| VerifySources.DigitsVerdict | scripts/verify_sources.py:217-232 | plain digits are a valid ISBN-10 at ten, a valid ISBN-13 at thirteen, and a wrong length otherwise |
| VerifySources.AnyWordIff | scripts/verify_sources.py:132-134 | some keyword is in the text exactly when one of them occurs at some index |
| VerifySources.ClassifyRules | scripts/verify_sources.py:126-137 | any URL makes a URL source, and otherwise an ISBN makes a book |
| VerifySources.ClassifyUrlSource | scripts/verify_sources.py:126-129 | a citation is a URL source exactly when a plain URL starts in it or a markdown link targets http(s) |
| VerifySources.ClassifyBook | scripts/verify_sources.py:130-131 | a citation is a book exactly when it has no URL and "ISBN" in it is followed by a group (corrected pattern, see Findings) |
| VerifySources.PrefixTaken | scripts/verify_sources.py:57-95 | whether a line is taken does not depend on the lines after it |
| VerifySources.EntriesMembers | scripts/verify_sources.py:57-95 | every citation is the item at its line inside a section, and every such item is a citation |
| VerifySources.EntriesOrdered | scripts/verify_sources.py:86-95 | the citations come in line order, each with its own 1-based line number |
| VerifySources.NoHeadingNoEntries | scripts/verify_sources.py:57-95 | a file without a sources heading has no citations |
| VerifySources.EntriesSnoc | scripts/verify_sources.py:57-95 | one more line moves the section flag by its kind, and an item inside a section adds its citation |
| VerifySources.Cite | scripts/verify_sources.py:78-93 | the entry stored for an item carries its file, line, text, URLs, ISBN (corrected pattern, see Findings) and kind |
| VerifySources.ExtractSourcesFromFile | scripts/verify_sources.py:46-100 | the method gives the citations of the file's lines, and none when it cannot be read; ISBNs use the corrected pattern, see Findings |
| VerifySources.ScanLines | scripts/verify_sources.py:57-95 | the line loop gives the citations of the section items in order |
| VerifySources.CheckUrl | scripts/verify_sources.py:145-210 | local and template URLs are skipped as valid; any other URL is judged by the request |
| VerifySources.AnyUrlValidAdd | scripts/verify_sources.py:262 | one more URL makes the citation valid when it was already or the new URL is valid |
| VerifySources.SkippedUrlVerifies | scripts/verify_sources.py:244-262 | a citation with a local or template URL is verified whatever the network says |
| VerifySources.SourceOutcomeRules | scripts/verify_sources.py:234-283 | a citation needs a manual check exactly when it has no URL and no ISBN; it is broken exactly when it has one of them and every URL and the ISBN fail; it is verified otherwise |
| VerifySources.Outcomes | scripts/verify_sources.py:304-308 | each citation gets its own result, in order |
| VerifySources.BucketsPartition | scripts/verify_sources.py:310-316 | every result lands in exactly one bucket, so the three counts add up to the total |
| VerifySources.BucketMeaning | scripts/verify_sources.py:310-316 | skipped are the citations without identifiers, valid the verified ones, broken the rest |
| VerifySources.ChapterFiles | scripts/verify_sources.py:290-291 | the chapter files are exactly the markdown files named `NN_`, in sorted order |
| VerifySources.SourcesOfFilesSnoc | scripts/verify_sources.py:296-298 | each file adds its citations after those of the files before it |
| VerifySources.FileSourcesFile | scripts/verify_sources.py:87 | every citation of a file carries that file's name |
| VerifySources.SourcesOfFilesFrom | scripts/verify_sources.py:296-298 | every gathered citation comes from one of the files read |
| VerifySources.ScannedFromChapters | scripts/verify_sources.py:290-298 | every scanned citation comes from a chapter file of the listing |
| VerifySources.SourceVerifier.VerifyUrl | scripts/verify_sources.py:139-210 | a cached result is returned as it is, any other result is computed and cached, and the cache gains exactly that URL |
| VerifySources.SourceVerifier.CheckUrls | scripts/verify_sources.py:244-262 | the URL loop checks every URL, caches each, and finds whether any is valid |
| VerifySources.SourceVerifier.VerifySource | scripts/verify_sources.py:234-283 | the method gives the citation's outcome and caches its URLs |
| VerifySources.SourceVerifier.CollectSources | scripts/verify_sources.py:296-298 | the gathering loop appends the citations of every file |
| VerifySources.SourceVerifier.SortIntoBuckets | scripts/verify_sources.py:304-316 | every gathered citation goes to the bucket its outcome says, in order |
| VerifySources.SourceVerifier.Place | scripts/verify_sources.py:310-316 | one result goes to the one bucket it belongs to |
| VerifySources.SourceVerifier.ScanRepository | scripts/verify_sources.py:285-321 | the chapter files' citations are appended, every gathered citation is sorted into its bucket, and the buckets grow by the number of citations |
| VerifySources.KeysUpdate | scripts/verify_sources.py:148 | caching a URL adds it to the cached keys |
| VerifySources.OutcomesSnoc | scripts/verify_sources.py:304-308 | one more citation adds its outcome at the end |
| VerifySources.SourceVerifier.constructor | scripts/verify_sources.py:36-44 | a new verifier has an empty cache and four empty lists |
| Whitepapers.WordRunsFrom | generate_whitepapers.py:38 | from a position on, no run of word characters is counted exactly when no word character follows |
| Whitepapers.WordCountZero | generate_whitepapers.py:38 | the word count is zero exactly when the text holds no word character |
| Whitepapers.FirstTitleIff | generate_whitepapers.py:44-48 | a title is found exactly when some line starts with `# `, and then it is the trimmed text of the first such line |
| Whitepapers.Capitalize | generate_whitepapers.py:56 | capitalising keeps a word's length and adds no white space |
| Whitepapers.ReplaceRemoves | generate_whitepapers.py:54 | replacing every underscore by a space leaves no underscore |
| Whitepapers.CapitalizedWords | generate_whitepapers.py:56 | capitalised words are still words |
| Whitepapers.FileTitleWords | generate_whitepapers.py:51-56 | the fallback title's words are the capitalised words of the file name without `.md`, with underscores read as spaces |
| Whitepapers.ImageTarget | generate_whitepapers.py:64-66 | a found target is the shortest text between `](` and the next `)`; none is found only when no `)` follows any `](` |
| Whitepapers.HeadingsAreSkipped | generate_whitepapers.py:78-84 | every `## ` heading is among the lines the paragraph pass skips |
| Whitepapers.CondensedShape | generate_whitepapers.py:92-112 | the condensed content is one to three stripped lines of the chapter, or the single fallback sentence |
| Whitepapers.HeadersShape | generate_whitepapers.py:116-124 | a chapter has one to six section headers |
| Whitepapers.ContentShape | generate_whitepapers.py:27-126 | a chapter is read unless its stripped text is shorter than ten characters, and then it has the content and header shapes above |
| Whitepapers.CondensedLengths | generate_whitepapers.py:92-106 | substantial paragraphs are over 30 characters, and the any-text lines at least 20 |
| Whitepapers.FilterStep | generate_whitepapers.py:74-75 | the filtered stripped lines grow by the next line's stripped text exactly when it passes |
| Whitepapers.FindTitle | generate_whitepapers.py:44-48 | the title loop stops at the first `# ` line and gives that title |
| Whitepapers.FindDiagram | generate_whitepapers.py:61-67 | the diagram loop gives the target of the first image line under `images/` whose syntax matches |
| Whitepapers.ParagraphStep | generate_whitepapers.py:86-94 | one more line is kept as a paragraph exactly when it is one and fewer than three are kept |
| Whitepapers.HeadingStep | generate_whitepapers.py:82-83 | one more line adds a section header exactly when it is a `## ` line |
| Whitepapers.KeptParagraphsFiltered | generate_whitepapers.py:74-94 | the line-by-line pass keeps the first three paragraphs |
| Whitepapers.KeptHeadingsFiltered | generate_whitepapers.py:74-84 | the line-by-line pass collects every section header |
| Whitepapers.CollectParagraphs | generate_whitepapers.py:74-94 | the first pass gives the first three paragraphs and every section header |
| Whitepapers.TakeSettled | generate_whitepapers.py:105-108 | once enough lines are taken, the later lines no longer change the result |
| Whitepapers.AnyTextStep | generate_whitepapers.py:99-108 | one more line is taken while fewer than two are kept, and a third candidate ends the pass |
| Whitepapers.CollectAnyText | generate_whitepapers.py:97-108 | the second pass gives up to two lines of any substantial text |
| Whitepapers.ReadChapterContent | generate_whitepapers.py:27-126 | the method gives the chapter data |
| Whitepapers.ReadingMinutesBounds | generate_whitepapers.py:266-270 | the reading time is at least three minutes, enough for the words at 220 a minute, and no more than needed beyond three |
| Whitepapers.ReadingLabelPlural | generate_whitepapers.py:271 | the reading label is always plural, since the time is at least three minutes |
| WhitepaperRun.UntilFence | generate_whitepapers.py:161-164 | the front matter is never longer than the lines after the opening fence |
| WhitepaperRun.UntilFenceStops | generate_whitepapers.py:161-164 | the front matter is the lines before the first closing fence, or all of them when there is none |
| WhitepaperRun.Metadata | generate_whitepapers.py:151-166 | the requirements metadata is truthy or the empty dictionary |
| WhitepaperRun.DictGet | generate_whitepapers.py:176 | `.get` succeeds exactly on a dictionary, and gives the default for a missing key |
| WhitepaperRun.Iterate | generate_whitepapers.py:175 | a list is iterated item by item, an empty string or dictionary yields nothing, and anything else raises |
| WhitepaperRun.Or | generate_whitepapers.py:180 | `x or y` is truthy exactly when `x` or `y` is, and a falsy result is always `y` |
| WhitepaperRun.CanonicalEntry | generate_whitepapers.py:175-189 | a chapter without a file name is skipped; otherwise its label falls back to the title and then to its position, and it has a title and an area and is not supplemental |
| WhitepaperRun.SupplementalEntry | generate_whitepapers.py:202-217 | a chapter without a file name is skipped; otherwise it is supplemental with a stripped description, a label and an area, and its title as given |
| WhitepaperRun.UpdateKeeps | generate_whitepapers.py:183 | a dictionary update keeps the keys unique and adds nothing but the new entry |
| WhitepaperRun.MappingShape | generate_whitepapers.py:169-218 | a mapping has unique keys, and each entry's metadata has the shape its entry function gives |
| WhitepaperRun.CanonicalMappingShape | generate_whitepapers.py:169-190 | the canonical mapping has unique file names, each with a label, a title and an area, none supplemental |
| WhitepaperRun.SupplementalMappingShape | generate_whitepapers.py:192-218 | the supplemental mapping has unique file names, each supplemental with a label and an area |
| WhitepaperRun.MappingStep | generate_whitepapers.py:175-189 | one step of a mapping loop: an error ends it, a new entry updates it, and no entry leaves it |
| WhitepaperRun.MappingErrSticks | generate_whitepapers.py:175-189 | an error part-way through the chapters is the error of the whole mapping |
| WhitepaperRun.GetChapterMapping | generate_whitepapers.py:169-190 | the canonical loop, counting positions from 1, gives the canonical mapping |
| WhitepaperRun.GetSupplementalChapters | generate_whitepapers.py:192-218 | the supplemental loop gives the supplemental mapping |
| WhitepaperRun.Merged | generate_whitepapers.py:220-236 | the merged mapping starts with the canonical entries in their order |
| WhitepaperRun.MergedLookup | generate_whitepapers.py:220-236 | a merged file keeps its canonical metadata when it has one and its supplemental metadata otherwise, and the merged files are the files of either mapping |
| WhitepaperRun.MergedUnique | generate_whitepapers.py:220-236 | merging keeps the file names unique |
| WhitepaperRun.CopyStep | generate_whitepapers.py:224-225 | copying one more canonical entry appends it |
| WhitepaperRun.MergeStep | generate_whitepapers.py:229-233 | one more supplemental entry is skipped when its file is mapped already, and added otherwise |
| WhitepaperRun.GetAllChapterMapping | generate_whitepapers.py:220-236 | the two loops give the merged mapping |
| WhitepaperRun.BeforeLastDot | generate_whitepapers.py:417 | the name before the last dot is never longer than the file name |
| WhitepaperRun.OutputNameOfStem | generate_whitepapers.py:449 | a markdown file whose stem holds no `.md` becomes `<stem>_whitepaper.html` |
| WhitepaperRun.ReadableIff | generate_whitepapers.py:432-436 | a file gives chapter data exactly when it is readable |
| WhitepaperRun.FileOutcome | generate_whitepapers.py:411-463 | a file is skipped exactly when it is not mapped, a skip is never a missing supplemental chapter, and a generated file counts by its metadata's supplemental flag |
| WhitepaperRun.Scan | generate_whitepapers.py:411-463 | after the first loop the generated count is the canonical plus the supplemental count, and every docs file is counted exactly once |
| WhitepaperRun.ScanStep | generate_whitepapers.py:411-463 | one more file records only its own outcome, and is processed exactly when it is mapped |
| WhitepaperRun.ReportStep | generate_whitepapers.py:467-474 | one more missing entry is skipped when supplemental and an error otherwise |
| WhitepaperRun.ProcessMapped | generate_whitepapers.py:428-463 | the body for one mapped file records that file's outcome |
| WhitepaperRun.ScanDocs | generate_whitepapers.py:411-463 | the first loop gives the scan summary and the set of processed files |
| WhitepaperRun.ReportMissingFiles | generate_whitepapers.py:466-474 | the second loop reports every mapped file no docs file provided |
| WhitepaperRun.GenerateWhitepapers | generate_whitepapers.py:375-513 | the method gives the outcome of the whole generation |
| WhitepaperRun.ReportMissingFacts | generate_whitepapers.py:466-474 | the second loop reports one entry per missing file and leaves the counters alone |
| WhitepaperRun.ScanFacts | generate_whitepapers.py:456-460 | the canonical counter counts the files generated as canonical chapters, and no error means no file failed |
| WhitepaperRun.UnreportedIsProcessed | generate_whitepapers.py:466-474 | when every missing entry is supplemental, each mapped entry was processed or is supplemental |
| WhitepaperRun.CanonicalFilesGenerated | generate_whitepapers.py:411-474 | when no file failed and every missing entry is supplemental, every canonical file was generated as canonical |
| WhitepaperRun.GeneratedCanonicalIsCanonical | generate_whitepapers.py:457-460 | a file generated as a canonical chapter is a canonical file |
| WhitepaperRun.MergedRunComplete | generate_whitepapers.py:411-474 | in a run over the merged mapping with no error, every canonical chapter was generated as canonical, so the canonical counter equals the canonical mapping's size |
| WhitepaperRun.SuccessIff | generate_whitepapers.py:512 | the run succeeds exactly when it reports no error and generates at least one whitepaper |
| WhitepaperRun.RunAccounts | generate_whitepapers.py:411-474 | every docs file and every unprocessed mapped entry is reported exactly once |
| SimpleYaml.CommentStartIsFirst | tests/utils/simple_yaml.py:61-70 | the cut falls at the first `#` outside a quoted run, and no earlier position starts a comment |
| SimpleYaml.StripComments | tests/utils/simple_yaml.py:56-72 | the result is a prefix of the line: the text before the first unquoted `#`, with trailing white space removed |
| SimpleYaml.LeadingSpaces | tests/utils/simple_yaml.py:50 | the indent counts the leading spaces only, so a tab ends it |
| SimpleYaml.TokenOf | tests/utils/simple_yaml.py:44-52 | a blank line or a lone `---` gives no token; any other line gives non-empty stripped content |
| SimpleYaml.TokensAreStripped | tests/utils/simple_yaml.py:41-53 | every token is non-empty stripped text other than `---` |
| SimpleYaml.TokensOfSnoc | tests/utils/simple_yaml.py:43-52 | each line adds its own tokens after those of the lines before it |
| SimpleYaml.Tokenise | tests/utils/simple_yaml.py:41-53 | the loop gives the tokens of the lines in order |
| SimpleYaml.SplitKeyValueCases | tests/utils/simple_yaml.py:139-146 | no colon means no key and the whole text as value; a final colon gives the stripped key and an empty value; otherwise the text splits at its first colon and both sides are stripped |
| SimpleYaml.DigitRunFrom | tests/utils/simple_yaml.py:186-189 | a run of digits with single underscores between them, as Python's `int` accepts, ends on a digit |
| SimpleYaml.DigitPartEnd | tests/utils/simple_yaml.py:186-189 | a digit part holds only digits and underscores |
| SimpleYaml.WithoutUnderscores | tests/utils/simple_yaml.py:189 | dropping the underscores of a digit part leaves only digits |
| SimpleYaml.ParseValueCases | tests/utils/simple_yaml.py:159-191 | the empty text is `""`, the keywords in any case are booleans and `None`, a string result is the evaluated collection, the text itself or the text inside its quotes, and numbers come only from number syntax or an inline collection |
| SimpleYaml.DigitRunOfDigits | tests/utils/simple_yaml.py:189 | a run of plain digits is consumed to its end |
| SimpleYaml.WithoutUnderscoresOfDigits | tests/utils/simple_yaml.py:189 | plain digits need no underscore removal |
| SimpleYaml.ParseValueOfNat | tests/utils/simple_yaml.py:186-189 | writing a natural number in decimal and reading it back gives the same integer |
| SimpleYaml.ParseValueOfQuoted | tests/utils/simple_yaml.py:181-182 | any text between double quotes reads back as that text |
| SimpleYaml.ParseValueOfKeyword | tests/utils/simple_yaml.py:162-168 | true, false, null, none and ~ are recognised whatever their letter case |
| SimpleYaml.EmptyKeyOpensContainer | tests/utils/simple_yaml.py:115-156 | a key with nothing after its colon gets a new empty container that the key refers to and that goes on top of the stack; it is a list exactly when the next token is more indented and starts with `- `, and every other cell stays |
| SimpleYaml.Initial | tests/utils/simple_yaml.py:76-77 | the parser starts from a well-formed state: the root mapping alone on the stack |
| SimpleYaml.Alloc | tests/utils/simple_yaml.py:105-112 | a container value gets a new cell of its own, since later lines may extend it; any other value stays inline |
| SimpleYaml.Append | tests/utils/simple_yaml.py:94 | appending to a list changes no other cell count |
| SimpleYaml.SetKey | tests/utils/simple_yaml.py:123 | setting a key changes no other cell count |
| SimpleYaml.PopTo | tests/utils/simple_yaml.py:84-86 | popping keeps a prefix of the stack: the root, or a top frame opened at a smaller indent, with every dropped frame opened at the line's indent or more |
| SimpleYaml.PopToKeepsSmaller | tests/utils/simple_yaml.py:84-86 | on a stack sorted by indent, popping keeps exactly the frames opened at a smaller indent |
| SimpleYaml.StackSorted | tests/utils/simple_yaml.py:84-86 | the frames of a well-formed stack are sorted by indent |
| SimpleYaml.ListItemResult | tests/utils/simple_yaml.py:88-90 | a list item fails exactly when its parent is not a list, with the list error |
| SimpleYaml.KeyLineResult | tests/utils/simple_yaml.py:115-122 | a key line fails exactly when its parent is not a mapping, with the mapping error |
| SimpleYaml.HandleErrors | tests/utils/simple_yaml.py:88-135 | the three errors of the parser: a list item under a non-list, a key under a non-mapping, a bare value under a mapping; every other token is accepted |
| SimpleYaml.PopToValid | tests/utils/simple_yaml.py:84-86 | popping keeps the state well formed and leaves a parent the token's frames can be pushed on |
| SimpleYaml.Run | tests/utils/simple_yaml.py:80-135 | every prefix of the tokens that parses leaves a well-formed state |
| SimpleYaml.After | tests/utils/simple_yaml.py:80-135 | handling one more token keeps the state well formed, and an earlier error stops the parse |
| SimpleYaml.RunFrom | tests/utils/simple_yaml.py:80-135 | the state after a token is the step from the state before it |
| SimpleYaml.ParseSpec | tests/utils/simple_yaml.py:75-136 | a successful parse gives a mapping |
| SimpleYaml.HandleKeepsValid | tests/utils/simple_yaml.py:88-135 | handling a token keeps the containers and the stack well formed |
| SimpleYaml.StepKeepsValid | tests/utils/simple_yaml.py:83-135 | a pass of the loop keeps the state well formed |
| SimpleYaml.StepOfKeyLine | tests/utils/simple_yaml.py:115-126 | a token that is not a list item and holds a colon is handled as a key line |
| SimpleYaml.KeyLineScalar | tests/utils/simple_yaml.py:115-126 | a `key: scalar` line under a mapping sets the key and pushes nothing |
| SimpleYaml.FlatStep | tests/utils/simple_yaml.py:115-126 | one `key: scalar` line assigns its key in the root mapping and leaves the stack alone |
| SimpleYaml.RunOfFlat | tests/utils/simple_yaml.py:80-126 | a prefix of `key: scalar` lines leaves the root mapping assigning each key in turn |
| SimpleYaml.FlatMapping | tests/utils/simple_yaml.py:75-136 | a document of `key: scalar` lines parses to the mapping that assigns each key in turn, a later key overriding an earlier one |
| SimpleYaml.ErrorIsFinal | tests/utils/simple_yaml.py:80-136 | once a token fails, the parse fails with that token's error |
| SimpleYaml.PopFrames | tests/utils/simple_yaml.py:84-85 | the pop loop keeps exactly the frames that popping should keep |
| SimpleYaml.HandleToken | tests/utils/simple_yaml.py:81-135 | one pass of the loop gives the state after that token |
| SimpleYaml.Parse | tests/utils/simple_yaml.py:75-136 | the loop gives the parse of the tokens |
| SimpleYaml.SafeLoad | tests/utils/simple_yaml.py:30-38 | no tokens give `None`; a parse that succeeds gives its mapping; a parser error becomes a `YAMLError` with its message |

## Left out

- DiagramBranding: the file list (`get_diagram_files`: the argument, `--staged` through `git diff`, the `docs/images/*.mmd` glob and the missing-file and missing-directory exits) is a parameter; the wording of the messages and the printed report are not modelled.
- DiagramBranding.WordAt: IGNORECASE is modelled as ASCII and Latin-1 lower-casing, so the extra Unicode case partners Python accepts (such as U+017F for `s`) are not matched, and `\b` uses the Latin-1 `\w` class of `Str.IsWordChar`.
- PresentationGuidelines: the data file's JSON parsing, the file-existence test for diagrams (a parameter), the report's fixed text, time stamp, section headings (`replace('_', ' ').title()`), message wording, printing and the output file are not modelled; fields of the wrong JSON type (a non-string title, non-string metadata values) are outside the model, which types every field as a string.
- LinkVerification: the file list (`find_all_files`: the four globs, the excluded directories and the sorting) is a parameter; the HTTP requests and path resolution are parameters (`World`), so the timeout, headers, redirects and `resolve()` are outside the model; the `time.sleep(0.1)` rate limit, progress and verbose printing, and the Markdown, HTML and JSON reports (apart from their total) are not modelled.
- LinkVerification.PlainMatchAt: `\s` is `Str.IsSpace`, the `str.isspace` set that Python's Unicode `\s` also uses; decoding with `errors='ignore'` happens before the model, which receives the decoded text.
- Str.IsDigit: only the ASCII digits `0`..`9`; Python's `str.isdigit()` and the `\d` class also accept the other Unicode decimal digits (Arabic-Indic, fullwidth and so on), so text made of those is read as non-digits.
- Str.IsUpper: ASCII and Latin-1 upper-case letters only; beyond U+00FF (Greek, Cyrillic and the rest) Python's `str.isupper()` can be true where the model says false.
- Str.IsLower: ASCII and Latin-1 lower-case letters only, so `# ωmega` is not a lower-case start for the heading checks, though it is one for check_heading_case.py:47.
- Str.IsAlpha: is `IsUpper || IsLower`, so letters without case (`日本語`) and letters beyond Latin-1 are not alphabetic. In Python `# 日本語` fails `is_heading_properly_capitalized` (validate_heading_capitalization.py:43-44), yet `HeadingCapitalization.ProperIff` passes it.
- Str.IsWordChar: the `\w` class over ASCII and Latin-1 only; the Unicode letters and digits beyond U+00FF that Python's `\w` accepts are non-word characters here. This moves the `\b` boundaries and the slug characters in the same way.
- Str.LowerChar: lower-cases only ASCII and Latin-1 upper-case letters, by adding 32. Python's `str.lower()` and `re.IGNORECASE` also fold other scripts and special cases, such as U+212A KELVIN SIGN to `k`: `slugify("K")` gives `k` in Python and `issue` in `IssueBot.Slugify`.
- Str.Lower: character by character with `LowerChar`, so it inherits its ASCII and Latin-1 limit; the doc-numbering IGNORECASE matches (`DocNumberingCheck`, `DocsNumbering`) and the case-insensitive searches of the branding, ratio and overview modules are limited to the same range.
- Str.UpperAscii: upper-cases `a`..`z` only, so `Whitepapers.Capitalize` leaves a first letter beyond ASCII (`é`, `ω`) unchanged, where Python's `str.capitalize()` would upper-case it.
- ValidateAdrs.ParseInt: accepts only ASCII digits with single underscores between them, as `int()` does for ASCII text; the other Unicode decimal digits that `int()` also accepts make the date `BadDate` in the model.
- ValidateAdrs.PathsOf: paths are kept as written. `_normalise_paths` (validate_adrs.py:116-130) joins each entry to the repository root and calls `resolve()`, so `docs/./a.md` and `docs/a.md` are the same file there, symbolic links are followed, and the presence test (the parameter `present`) is that of the resolved path.
- ValidateAdrs.PathEntryError: a `related_*` entry that is not a string (a number, a mapping) becomes the error value `NotAPath`. In the source, `Path(entry)` (validate_adrs.py:119) raises `TypeError` for it and the script stops with a traceback rather than an `AdrValidationError`.
- ValidateAdrs.RequiredFieldsError: front matter that parses to something other than a mapping (a list, a string, a number) is read as having no fields and is reported `Incomplete`. In Python, `key in front_matter` on a list or a string tests membership or a substring, and a later `front_matter[key]` then raises `TypeError` (validate_adrs.py:90-114).
- AdrCatalogue.SummaryRow: the linked chapters and diagrams are printed as the strings `PathsOf` kept, not as `path.relative_to(REPO_ROOT).as_posix()` (generate_adr_catalogue.py:26, 64-67). So `docs/./a.md` prints as written rather than as `docs/a.md`, and a path outside the repository, for which `relative_to` raises `ValueError`, does not crash the model.
- AdrCatalogue.DetailLines: the same as `SummaryRow` for the bullet lists of linked chapters and diagrams.
- StructurizrManifest.BuildManifest: the workspace path and the export directory are taken as strings already in the form `as_posix()` gives (update_structurizr_manifest.py:61-64); the separator conversion and the collapsing of `.` and empty parts by `pathlib.Path` are outside the model.
- HeadingCapitalization.FileIssues: an unreadable file yields no issues. When a read error such as a `UnicodeDecodeError` happens part-way through the file, the source's `except Exception` (validate_heading_capitalization.py:62-82) returns the issues found on the lines read before it; the model treats the content as all or nothing.
- FigureCaptions.FileIssues: the same all-or-nothing reading as `HeadingCapitalization.FileIssues` for `check_file` in validate_figure_captions.py:55-76.
- SimpleYaml.LiteralEval: `ast.literal_eval` is a parameter, so what the loader makes of a quoted or bracketed scalar is whatever the caller supplies; Python's literal grammar is not modelled.
- Parsers and file reads: `yaml.safe_load`, `json.load`/`json.loads` and every file read are parameters or values supplied to the functions (`parse`, `yaml`, `World`, `Env`, `Option<string>` for a file that may not open), so their failure modes are only the error values the callers handle.
- VerifySources.SourceVerifier: the HTTP probe is a deterministic parameter (`probe`), so the URL cache's invariant `Valid()` (every cached answer is the probe's answer) cannot be broken by a flaky server; time-outs, retries, the rate limit and the thread pool of the source are not modelled.
- BookBuild.ChapterListCache: the cached list is returned without looking at the file system again, as in the source; a cache that should be invalidated when the files change is outside both.
- Values.VFloat: a float keeps the text it was written with; arithmetic, rounding and Python's `repr` of floats (`1.0` for `1.`, exponent forms) are not modelled, and only the zero test (`FloatTextIsZero`) is used.
- Values.PyStr: `str()` of a list or a mapping uses a simplified `repr` of the strings nested in it. The text always goes in single quotes with no escaping, whereas Python switches to double quotes for a string holding `'` and escapes backslashes, newlines and non-printable characters.
- AacIacRatio: the command line, the printed report and the file writes are not modelled. The ratio test is `aac >= 20 * total` on whole numbers, which is the float comparison `aac / total >= 20` without rounding. The three patterns are modelled as the match positions of `Positions`, which are proved to be matches (`PositionsSound`) and to include every match found from a position (`PositionsFind`); Unicode case folding beyond Latin-1 is left out as for `Str.LowerChar`.
- Environment: the printed messages and their layout are not modelled. `yaml.safe_load` and `json.load`, `packaging.version.Version` (the parameter `parse`) and the subprocess calls that read tool versions (`Probes`) are parameters. Equality of YAML values is structural equality of `Value`. A `packages` entry of `package-lock.json` that is not a mapping is the error the source would raise. Mapping keys are strings only.
- Navigation and BookBuild: the command-line front ends (`argparse`, printing, exit codes of the `__main__` blocks) are not modelled, beyond the functions they call.
- IssueBot, StructurizrManifest, WhitepaperRun and BookBuild: the clock (`datetime.now` for the generated-at stamps and the whitepaper's published date, `datetime.date.today` for the EPUB metadata) is a parameter or is left out with the text it stamps.
- WhitepaperRun: `create_whitepaper_html` renders a fixed HTML template around the extracted content; the template text is not modelled, and whether the rendered page is non-empty is the parameter `rendered`.
- BookBuild: `build_epub_from_chapters` (the pandoc invocation and its arguments), `validate_epub_file` and the EPUB file input and output are not modelled; the model stops at the list of chapter files and their prepared text.
- Presentation: generate_presentation.py defines `limit_words` twice with the same body (lines 43-57 and 503-517); the model has the one definition `Presentation.LimitWords`, which both bindings compute.
- PreziApp.TargetInverts: slide coordinates and zoom are reals; JavaScript double rounding of `-x + 240` is not modelled, so the read-back holds for the model only (in doubles x = 0.1 reads back as 0.09999999999999432).
- ChapterDetail, BookPreview, ChaptersOverview and PreziApp: rendering (JSX, CSS, animation timing), the Markdown renderer and `fetch` are not modelled. The fetched chapter text is a parameter, and the Prezi canvas's zoom animation is the viewport target it ends on.

## Findings

| source | as written | input that shows it | evidently intended | confidence | as-written member | corrected member |
|---|---|---|---|---|---|---|
| scripts/verify_sources.py:118-124 | `_extract_isbn` searches for `ISBN[:\s-]*([\d-]{10,17})`, so an edition label such as `-13:` between "ISBN" and the number stops the match at the `1`, which leaves no run of ten digits and dashes; tests/test_source_verification.py:79-94 expects the number to be found | `ISBN-13: 978-0-123-45678-9` | the edition marker (`-10`/`-13`) is allowed after "ISBN" and the hyphenated group that follows is returned | not executed | VerifySources.EditionLabelledIsbnMissed | VerifySources.EditionLabelledIsbnFound |
| scripts/check_doc_numbering.py:65-69 | the suffix group `([a-z]*)` can match several letters, and `ord(letter)` raises `TypeError` on a string longer than one character, so the script crashes instead of reporting | a file named `01ab_x.md` in `docs/` | a multi-letter suffix is reported as a numbering error and the script exits 1 | not executed | DocNumberingCheck.LongSuffixCrashes | DocNumberingCheck.FixedMainIff |
| presentations/prezi/src/App.tsx:28-106 | `animateTo` is recreated on every render and listed in the dependencies of the effect that starts the deck, so each key press that changes `current` re-runs that effect, which sets the index back to the slide named by `?id` or to the first | a deck of two slides, no `?id=` query, one ArrowRight press | the start effect runs once per loaded deck, and ArrowRight shows the next slide | not executed | PreziApp.ArrowRightSnapsBack | PreziApp.ArrowRightAdvances |
