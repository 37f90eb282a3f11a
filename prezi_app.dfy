/**
 * The zooming presentation canvas: it loads the slides, starts at the slide
 * named by the `?id=` query (or the first), moves one slide per arrow key
 * without leaving the deck, pans and zooms the viewport onto the current
 * slide and highlights that slide's node.
 */
module PreziApp {
  import opened Wrappers
  import Seqs

  /** A slide of `slides.json`; coordinates are JavaScript numbers, modelled as reals. */
  datatype Slide = Slide(id: string, title: string, mdPath: string, x: real, y: real, zoom: Option<real>)

  datatype Viewport = Viewport(x: real, y: real, zoom: real)

  datatype Key = ArrowRight | ArrowLeft | OtherKey

  /** `animateTo(slide)`: the viewport that brings the slide to the point (240, 160), at its zoom or 1. */
  function Target(slide: Slide): (v: Viewport)
    ensures v.zoom == slide.zoom.GetOr(1.0)
  {
    Viewport(-slide.x + 240.0, -slide.y + 160.0, slide.zoom.GetOr(1.0))
  }

  /** The slide's position can be read back from the viewport aimed at it. */
  lemma TargetInverts(slide: Slide)
    ensures 240.0 - Target(slide).x == slide.x && 160.0 - Target(slide).y == slide.y
  {
  }

  function HasId(queryId: string): Slide -> bool
  {
    (s: Slide) => s.id == queryId
  }

  /**
   * The start index: 0 unless the query id is present and non-empty (an empty
   * string is falsy) and some slide has it, then the first such slide.
   */
  function StartIndex(slides: seq<Slide>, queryId: Option<string>): (r: nat)
    ensures |slides| > 0 ==> r < |slides|
    ensures r > 0 ==> queryId.Some? && r < |slides| && slides[r].id == queryId.value
  {
    match queryId {
      case Some(q) =>
        if q == "" then 0
        else
          var k := Seqs.FirstIndex(slides, HasId(q));
          if k < |slides| then k else 0
      case None => 0
    }
  }

  /** Both directions: a non-empty query id found in the deck starts at its first slide, anything else at 0. */
  lemma StartIndexIff(slides: seq<Slide>, queryId: Option<string>, k: nat)
    requires k < |slides|
    ensures StartIndex(slides, queryId) == k <==>
              if queryId.Some? && queryId.value != "" && exists j :: 0 <= j < |slides| && slides[j].id == queryId.value
              then slides[k].id == queryId.value && forall j :: 0 <= j < k ==> slides[j].id != queryId.value
              else k == 0
  {
    if queryId.Some? && queryId.value != "" {
      var q := queryId.value;
      Seqs.FirstIndexIff(slides, HasId(q), k);
      if exists j :: 0 <= j < |slides| && slides[j].id == q {
        var j :| 0 <= j < |slides| && slides[j].id == q;
        assert Seqs.FirstIndex(slides, HasId(q)) <= j;
      }
    }
  }

  /** The key handler's index update on a deck of `n` slides. */
  function Step(i: int, n: int, key: Key): int
  {
    match key {
      case ArrowRight => if i + 1 < n - 1 then i + 1 else n - 1
      case ArrowLeft => if i - 1 > 0 then i - 1 else 0
      case OtherKey => i
    }
  }

  /** Every step stays in the deck and moves at most one slide; the arrows are undone by their opposites away from the ends. */
  lemma StepInDeck(i: int, n: int, key: Key)
    requires 0 <= i < n
    ensures 0 <= Step(i, n, key) < n
    ensures -1 <= Step(i, n, key) - i <= 1
    ensures key == ArrowRight ==> (Step(i, n, key) == i <==> i == n - 1)
    ensures key == ArrowLeft ==> (Step(i, n, key) == i <==> i == 0)
    ensures i < n - 1 ==> Step(Step(i, n, ArrowRight), n, ArrowLeft) == i
    ensures i > 0 ==> Step(Step(i, n, ArrowLeft), n, ArrowRight) == i
  {
  }

  /** A node of the canvas: the slide's id and position, and whether it is drawn highlighted. */
  datatype Node = Node(id: string, x: real, y: real, highlighted: bool)

  /** `slides[current]?.id`. */
  function ActiveId(slides: seq<Slide>, current: int): Option<string>
  {
    if 0 <= current < |slides| then Some(slides[current].id) else None
  }

  function NodeOf(activeId: Option<string>): Slide -> Node
  {
    (s: Slide) => Node(s.id, s.x, s.y, activeId == Some(s.id))
  }

  /** The `nodes` memo: one node per slide, in order, highlighted when it carries the current slide's id. */
  function Nodes(slides: seq<Slide>, current: int): (r: seq<Node>)
    ensures |r| == |slides|
    ensures forall k :: 0 <= k < |r| ==> r[k].id == slides[k].id && r[k].x == slides[k].x && r[k].y == slides[k].y
    ensures forall k :: 0 <= k < |r| ==> (r[k].highlighted <==> 0 <= current < |slides| && slides[k].id == slides[current].id)
  {
    var r := Seqs.Map(slides, NodeOf(ActiveId(slides, current)));
    forall k | 0 <= k < |r| ensures r[k] == NodeOf(ActiveId(slides, current))(slides[k]) {
      Seqs.MapAt(slides, NodeOf(ActiveId(slides, current)), k);
    }
    r
  }

  predicate DistinctIds(slides: seq<Slide>)
  {
    forall i, j :: 0 <= i < j < |slides| ==> slides[i].id != slides[j].id
  }

  /** With distinct ids exactly the current slide's node is highlighted. */
  lemma OneHighlighted(slides: seq<Slide>, current: int)
    requires DistinctIds(slides) && 0 <= current < |slides|
    ensures forall k :: 0 <= k < |slides| ==> (Nodes(slides, current)[k].highlighted <==> k == current)
  {
  }

  /** The canvas's state: the deck, the `current` state, the `idxRef` counter and the last viewport aimed at. */
  class Canvas {
    const queryId: Option<string>
    var slides: seq<Slide>
    var current: int
    var idx: int
    var viewport: Option<Viewport>

    /** `current` mirrors `idxRef`, which stays in the deck once it has slides. */
    ghost predicate Valid()
      reads this
    {
      current == idx && (if |slides| == 0 then idx == 0 else 0 <= idx < |slides|)
    }

    /** The canvas before `slides.json` arrives. */
    constructor (queryId: Option<string>)
      ensures Valid() && this.queryId == queryId
      ensures slides == [] && current == 0 && idx == 0 && viewport == None
    {
      this.queryId := queryId;
      slides := [];
      current := 0;
      idx := 0;
      viewport := None;
    }

    /** The start effect: on a non-empty deck, go to the start slide and aim the viewport at it. */
    method Start()
      requires Valid()
      modifies this
      ensures Valid() && slides == old(slides)
      ensures |slides| == 0 ==> idx == old(idx) && viewport == old(viewport)
      ensures |slides| > 0 ==> idx == StartIndex(slides, queryId) && viewport == Some(Target(slides[idx]))
    {
      if |slides| == 0 {
        return;
      }
      var start := StartIndex(slides, queryId);
      idx := start;
      current := start;
      viewport := Some(Target(slides[start]));
    }

    /**
     * The fetch of `slides.json`, given its parsed content or `None` when the
     * response is not ok or cannot be parsed; a failure leaves the deck as it was.
     */
    method Load(data: Option<seq<Slide>>)
      requires Valid()
      modifies this
      ensures Valid()
      ensures slides == (if data.Some? then data.value else old(slides))
      ensures |slides| > 0 ==> idx == StartIndex(slides, queryId) && viewport == Some(Target(slides[idx]))
      ensures |slides| == 0 ==> idx == 0 && viewport == old(viewport)
    {
      if data.Some? {
        slides := data.value;
        idx := 0;
        current := 0;
      }
      Start();
    }

    /** The key handler the arrows are meant to drive: one step, then aim at the new slide. */
    method OnKeyDown(key: Key)
      requires Valid()
      modifies this
      ensures Valid() && slides == old(slides)
      ensures |slides| == 0 ==> idx == old(idx) && viewport == old(viewport)
      ensures |slides| > 0 ==> idx == Step(old(idx), |slides|, key)
      ensures |slides| > 0 && key != OtherKey ==> viewport == Some(Target(slides[idx]))
      ensures key == OtherKey ==> viewport == old(viewport)
    {
      if |slides| == 0 {
        return;
      }
      StepInDeck(idx, |slides|, key);
      if key != OtherKey {
        idx := Step(idx, |slides|, key);
        current := idx;
        viewport := Some(Target(slides[idx]));
      }
    }

    /**
     * The key handler and the renders it causes as the page is written: the
     * start effect lists `animateTo` among its dependencies, and `animateTo`
     * is a new function on every render, so a render caused by a changed
     * `current` runs the start effect again.
     */
    method OnKeyDownAsWritten(key: Key)
      requires Valid()
      modifies this
      ensures Valid() && slides == old(slides)
      ensures |slides| > 0 && Step(old(idx), |slides|, key) != old(current) ==> idx == StartIndex(slides, queryId)
      ensures |slides| > 0 && Step(old(idx), |slides|, key) == old(current) ==> idx == old(idx)
    {
      var before := current;
      OnKeyDown(key);
      if current != before {
        Start();
      }
    }
  }

  /** As written: on a deck of two slides without a query, the right arrow snaps back to the first slide. */
  method ArrowRightSnapsBack(slides: seq<Slide>) returns (canvas: Canvas)
    requires |slides| >= 2
    ensures canvas.slides == slides && canvas.current == 0
  {
    canvas := new Canvas(None);
    canvas.Load(Some(slides));
    canvas.OnKeyDownAsWritten(ArrowRight);
  }

  /** As intended: the same press moves to the second slide and aims at it. */
  method ArrowRightAdvances(slides: seq<Slide>) returns (canvas: Canvas)
    requires |slides| >= 2
    ensures canvas.slides == slides && canvas.current == 1 && canvas.viewport == Some(Target(slides[1]))
  {
    canvas := new Canvas(None);
    canvas.Load(Some(slides));
    canvas.OnKeyDown(ArrowRight);
  }
}
