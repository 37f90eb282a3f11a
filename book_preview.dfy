/**
 * The book preview page: a table of contents, one chapter shown at a time,
 * and previous/next buttons that move the `currentChapter` counter one step
 * without leaving the table.
 */
module BookPreview {
  import opened Str

  /** `chapters.length`: the preview's table has 23 chapters. */
  const ChapterCount: int := 23

  /** The id shown for the chapter at a position: its 1-based number on two digits. */
  function ChapterId(index: nat): (id: string)
    requires index < ChapterCount
    ensures |id| == 2 && AllDigits(id) && DigitsValue(id) == index + 1
  {
    TwoDigits(index + 1)
  }

  /** The ids of two positions differ, so the table lists each chapter once. */
  lemma ChapterIdsDistinct(i: nat, j: nat)
    requires i < ChapterCount && j < ChapterCount && i != j
    ensures ChapterId(i) != ChapterId(j)
  {
  }

  /** `goToPreviousChapter`: one down unless at the first chapter. */
  function PreviousOf(current: int): int
  {
    if current > 0 then current - 1 else current
  }

  /** `goToNextChapter`: one up unless at the last chapter. */
  function NextOf(current: int): int
  {
    if current < ChapterCount - 1 then current + 1 else current
  }

  /** The previous button is disabled at the first chapter. */
  predicate PreviousDisabled(current: int) { current == 0 }

  /** The next button is disabled at the last chapter. */
  predicate NextDisabled(current: int) { current == ChapterCount - 1 }

  /**
   * Within the table a button is disabled exactly when its handler would leave
   * the counter where it is, and the handlers keep the counter in the table.
   */
  lemma DisabledIffNoMove(current: int)
    requires 0 <= current < ChapterCount
    ensures PreviousDisabled(current) <==> PreviousOf(current) == current
    ensures NextDisabled(current) <==> NextOf(current) == current
    ensures 0 <= PreviousOf(current) < ChapterCount && 0 <= NextOf(current) < ChapterCount
  {
  }

  /** Going forward and then back, or back and then forward, from an enabled button returns to the chapter. */
  lemma StepsUndo(current: int)
    requires 0 <= current < ChapterCount
    ensures !NextDisabled(current) ==> PreviousOf(NextOf(current)) == current
    ensures !PreviousDisabled(current) ==> NextOf(PreviousOf(current)) == current
  {
  }

  /** `n` presses of the next button from the first chapter reach chapter `min(n, 22)`. */
  function Forward(current: int, n: nat): int
  {
    if n == 0 then current else NextOf(Forward(current, n - 1))
  }

  lemma {:induction false} ForwardReaches(n: nat)
    ensures Forward(0, n) == if n < ChapterCount then n else ChapterCount - 1
  {
    if n > 0 {
      ForwardReaches(n - 1);
    }
  }

  /** The page's state: the position of the chapter shown. */
  class Preview {
    var currentChapter: int

    ghost predicate Valid()
      reads this
    {
      0 <= currentChapter < ChapterCount
    }

    /** `useState(0)`: the first chapter is shown. */
    constructor ()
      ensures Valid() && currentChapter == 0
    {
      currentChapter := 0;
    }

    method GoToPreviousChapter()
      requires Valid()
      modifies this
      ensures Valid() && currentChapter == PreviousOf(old(currentChapter))
    {
      if currentChapter > 0 {
        currentChapter := currentChapter - 1;
      }
    }

    method GoToNextChapter()
      requires Valid()
      modifies this
      ensures Valid() && currentChapter == NextOf(old(currentChapter))
    {
      if currentChapter < ChapterCount - 1 {
        currentChapter := currentChapter + 1;
      }
    }

    /** A click in the table of contents, which offers only the positions of the table. */
    method SelectChapter(index: int)
      requires 0 <= index < ChapterCount
      modifies this
      ensures Valid() && currentChapter == index
    {
      currentChapter := index;
    }

    /** `{currentChapter + 1} av {chapters.length} kapitel`. */
    function Position(): (r: (int, int))
      reads this
      requires Valid()
      ensures 1 <= r.0 <= r.1 == ChapterCount
    {
      (currentChapter + 1, ChapterCount)
    }

    /** The id of the chapter shown, for its heading and its `docs/` file name. */
    function ShownId(): (id: string)
      reads this
      requires Valid()
      ensures AllDigits(id) && DigitsValue(id) == Position().0
    {
      ChapterId(currentChapter)
    }
  }
}
