/**
  workflow_scripts/summary_to_ppt.py: `run_conversion_to_ppt` turns the styled
  paragraphs of a Word summary into slides. A `Heading 1` paragraph makes a
  title slide, a `Heading 2` paragraph opens a content slide, and body
  paragraphs become bullet items of the open content slide, seven at most per
  slide, further items going to continuation slides titled `<heading> (續)`.
  Documents and slides are values; the pptx layouts are those of the default
  template, in which every slide creation succeeds.
*/
module SummaryToPpt {
  import opened Common
  import opened Text

  const MaxItemsPerSlide: nat := 7
  const ContinuedSuffix: string := " (續)"

  /** A Word paragraph: its text, its style name and its left indent in EMU (0 when unset). */
  datatype WordPara = WordPara(text: string, style: string, leftIndent: int)

  /** A bullet on a content slide: the stripped paragraph text and its outline level. */
  datatype Item = Item(text: string, level: nat)

  datatype Slide = TitleSlide(title: string) | ContentSlide(title: string, items: seq<Item>)

  /** Python's `round` on the exact quotient `n / d`: nearest integer, ties to even. */
  function RoundHalfEven(n: int, d: int): (r: int)
    requires d > 0
    ensures -d <= 2 * (n - r * d) <= d
    ensures 2 * (n - r * d) == d ==> r % 2 == 0
    ensures 2 * (n - r * d) == -d ==> r % 2 == 0
  {
    var q, m := n / d, n % d;
    assert n - q * d == m && 0 <= m < d;
    assert n - (q + 1) * d == m - d;
    if 2 * m < d then q
    else if 2 * m > d then q + 1
    else if q % 2 == 0 then q else q + 1
  }

  /**
    `get_indent_level`: `round((inches - 0.1) / 0.4)` clamped to 0..8, with the
    inch values written in EMU (914400 per inch), so the quotient is
    `(leftIndent - 91440) / 365760`.
  */
  function IndentLevel(leftIndent: int): (level: nat)
    ensures level <= 8
  {
    var raw := RoundHalfEven(leftIndent - 91440, 365760);
    if raw < 0 then 0 else if raw > 8 then 8 else raw
  }

  lemma {:induction false} MulMono(k: int, m: int, d: int)
    requires m <= k && d >= 0
    ensures m * d <= k * d
    decreases k - m
  {
    if m < k {
      MulMono(k, m + 1, d);
      assert (m + 1) * d == m * d + d;
    }
  }

  lemma MulStep(m: int, d: int)
    ensures (m + 1) * d == m * d + d
  {
  }

  /** Rounding the exact quotient is monotone. */
  lemma RoundMonotone(a: int, b: int, d: int)
    requires d > 0 && a <= b
    ensures RoundHalfEven(a, d) <= RoundHalfEven(b, d)
  {
    var ra, rb := RoundHalfEven(a, d), RoundHalfEven(b, d);
    if rb < ra {
      MulMono(ra, rb + 1, d);
      MulStep(rb, d);
    }
  }

  /** A deeper indent never gives a shallower level. */
  lemma IndentLevelMonotone(a: int, b: int)
    requires a <= b
    ensures IndentLevel(a) <= IndentLevel(b)
  {
    RoundMonotone(a - 91440, b - 91440, 365760);
  }

  /** An indent of exactly 0.1 + 0.4·k inches gives level k. */
  lemma IndentLevelExact(k: nat)
    requires k <= 8
    ensures IndentLevel(91440 + 365760 * k) == k
  {
    assert (91440 + 365760 * k) - 91440 == k * 365760;
    assert RoundHalfEven(k * 365760, 365760) == k;
  }

  /** A content slide still open for items: its title, the heading it continues and its items so far. */
  datatype Open = Open(title: string, heading: string, items: seq<Item>)

  /**
    The loop state: the slides no longer receiving items, and the open content
    slide (`current_h2_slide` with its placeholder), if any. The source's item
    counter is the open slide's number of items.
  */
  datatype Pager = Pager(closed: seq<Slide>, open: Option<Open>)

  /** All slides of the presentation so far, in order. */
  function Slides(pg: Pager): seq<Slide> {
    match pg.open
    case None => pg.closed
    case Some(o) => pg.closed + [ContentSlide(o.title, o.items)]
  }

  predicate IsHeading1(p: WordPara) {
    StartsWith(p.style, "Heading 1")
  }

  predicate IsHeading2(p: WordPara) {
    !IsHeading1(p) && StartsWith(p.style, "Heading 2")
  }

  /** One iteration of the paragraph loop. */
  function Step(pg: Pager, p: WordPara): Pager {
    var t := Strip(p.text);
    if t == [] then pg
    else if IsHeading1(p) then Pager(Slides(pg) + [TitleSlide(t)], None)
    else if IsHeading2(p) then Pager(Slides(pg), Some(Open(t, t, [])))
    else match pg.open
      case None => pg
      case Some(o) =>
        var item := Item(t, IndentLevel(p.leftIndent));
        if |o.items| >= MaxItemsPerSlide then
          Pager(Slides(pg), Some(Open(o.heading + ContinuedSuffix, o.heading, [item])))
        else
          Pager(pg.closed, Some(o.(items := o.items + [item])))
  }

  /** The loop over all paragraphs. */
  function Run(ps: seq<WordPara>): Pager {
    if ps == [] then Pager([], None) else Step(Run(ps[..|ps| - 1]), ps[|ps| - 1])
  }

  /**
    `run_conversion_to_ppt`. `paras` is `None` when the Word file cannot be
    opened; `saveFails` stands for an exception of `prs.save`. Returns the
    slides built and whether the function returned `True`.
  */
  method ConvertToPpt(paras: Option<seq<WordPara>>, saveFails: bool) returns (slides: seq<Slide>, ok: bool)
    ensures paras.None? ==> slides == [] && !ok
    ensures paras.Some? ==> slides == Slides(Run(paras.value))
    ensures ok <==> slides != [] && !saveFails
  {
    if paras.None? {
      return [], false;
    }
    var ps := paras.value;
    slides := [];
    var current := false;
    var heading := "";
    var count := 0;
    var i := 0;
    while i < |ps|
      invariant 0 <= i <= |ps|
      invariant Mirrors(slides, current, heading, count, Run(ps[..i]))
    {
      assert ps[..i + 1][..i] == ps[..i];
      assert Run(ps[..i + 1]) == Step(Run(ps[..i]), ps[i]);
      slides, current, heading, count := PlaceParagraph(slides, current, heading, count, ps[i], Run(ps[..i]));
      i := i + 1;
    }
    assert ps[..i] == ps;
    ok := slides != [] && !saveFails;
  }

  /**
    The loop variables of `run_conversion_to_ppt` (`prs.slides`, whether
    `current_h2_slide` is set, `current_h2_title_for_slide` and
    `content_item_count_on_current_slide`) describe the pager `pg`.
  */
  ghost predicate Mirrors(slides: seq<Slide>, current: bool, heading: string, count: nat, pg: Pager) {
    && slides == Slides(pg)
    && (current <==> pg.open.Some?)
    && (current ==> count == |pg.open.value.items| && heading == pg.open.value.heading)
  }

  /** One iteration of the paragraph loop on the loop variables. */
  method PlaceParagraph(slides: seq<Slide>, current: bool, heading: string, count: nat, p: WordPara, ghost pg: Pager)
    returns (slides': seq<Slide>, current': bool, heading': string, count': nat)
    requires Mirrors(slides, current, heading, count, pg)
    ensures Mirrors(slides', current', heading', count', Step(pg, p))
  {
    slides', current', heading', count' := slides, current, heading, count;
    var t := Strip(p.text);
    if t == [] {
    } else if IsHeading1(p) {
      slides' := slides + [TitleSlide(t)];
      current', count', heading' := false, 0, "";
    } else if IsHeading2(p) {
      slides' := slides + [ContentSlide(t, [])];
      current', count', heading' := true, 0, t;
    } else if current {
      var item := Item(t, IndentLevel(p.leftIndent));
      if count >= MaxItemsPerSlide {
        slides' := slides + [ContentSlide(heading + ContinuedSuffix, [item])];
        count' := 1;
      } else {
        ghost var o := pg.open.value;
        assert slides == pg.closed + [ContentSlide(o.title, o.items)];
        var last := slides[|slides| - 1];
        slides' := slides[..|slides| - 1] + [ContentSlide(last.title, last.items + [item])];
        assert slides[..|slides| - 1] == pg.closed;
        count' := count + 1;
      }
    }
  }

  /** The open slide never holds more than seven items, nor does any earlier content slide. */
  ghost predicate WithinLimit(pg: Pager) {
    (forall k :: 0 <= k < |Slides(pg)| && Slides(pg)[k].ContentSlide? ==> |Slides(pg)[k].items| <= MaxItemsPerSlide) &&
    (pg.open.Some? ==> pg.open.value.title == pg.open.value.heading ||
                       pg.open.value.title == pg.open.value.heading + ContinuedSuffix)
  }

  lemma StepWithinLimit(pg: Pager, p: WordPara)
    requires WithinLimit(pg)
    ensures WithinLimit(Step(pg, p))
  {
    var s := Slides(pg);
    var n := Step(pg, p);
    if pg.open.Some? && !IsHeading1(p) && !IsHeading2(p) && Strip(p.text) != [] {
      var o := pg.open.value;
      if |o.items| < MaxItemsPerSlide {
        assert Slides(n)[..|pg.closed|] == pg.closed == s[..|pg.closed|];
        assert |s[|pg.closed|].items| <= MaxItemsPerSlide;
      }
    }
  }

  /** No content slide holds more than seven items, and open slides are titled by their heading or its continuation. */
  lemma {:induction false} RunWithinLimit(ps: seq<WordPara>)
    ensures WithinLimit(Run(ps))
  {
    if ps != [] {
      RunWithinLimit(ps[..|ps| - 1]);
      StepWithinLimit(Run(ps[..|ps| - 1]), ps[|ps| - 1]);
    }
  }

  /** The eighth item under one heading opens a continuation slide titled `<heading> (續)` holding just that item. */
  lemma EighthItemOpensContinuation(pg: Pager, p: WordPara)
    requires pg.open.Some? && |pg.open.value.items| == MaxItemsPerSlide
    requires Strip(p.text) != [] && !IsHeading1(p) && !IsHeading2(p)
    ensures Slides(Step(pg, p)) ==
      Slides(pg) + [ContentSlide(pg.open.value.heading + ContinuedSuffix, [Item(Strip(p.text), IndentLevel(p.leftIndent))])]
  {
  }

  /** All bullet items of the slides, slide by slide. */
  function Flatten(slides: seq<Slide>): seq<Item> {
    if slides == [] then []
    else
      var last := slides[|slides| - 1];
      Flatten(slides[..|slides| - 1]) + (if last.ContentSlide? then last.items else [])
  }

  lemma {:induction false} FlattenAppend(a: seq<Slide>, b: seq<Slide>)
    ensures Flatten(a + b) == Flatten(a) + Flatten(b)
    decreases |b|
  {
    if b == [] {
      assert a + b == a;
    } else {
      assert (a + b)[..|a + b| - 1] == a + b[..|b| - 1];
      FlattenAppend(a, b[..|b| - 1]);
    }
  }

  /** Whether the latest non-blank heading is a `Heading 2`: the independent account of when body text is kept. */
  predicate UnderHeading2(ps: seq<WordPara>) {
    if ps == [] then false
    else
      var p := ps[|ps| - 1];
      if Strip(p.text) != [] && IsHeading1(p) then false
      else if Strip(p.text) != [] && IsHeading2(p) then true
      else UnderHeading2(ps[..|ps| - 1])
  }

  /** The body paragraphs that follow a `Heading 2` with no `Heading 1` in between, as items, in order. */
  function Attached(ps: seq<WordPara>): seq<Item> {
    if ps == [] then []
    else
      var p := ps[|ps| - 1];
      var before := ps[..|ps| - 1];
      Attached(before) +
        (if Strip(p.text) != [] && !IsHeading1(p) && !IsHeading2(p) && UnderHeading2(before)
         then [Item(Strip(p.text), IndentLevel(p.leftIndent))] else [])
  }

  /** A content slide is open exactly while the latest heading is a `Heading 2`. */
  lemma {:induction false} OpenIffUnderHeading2(ps: seq<WordPara>)
    ensures Run(ps).open.Some? <==> UnderHeading2(ps)
  {
    if ps != [] {
      OpenIffUnderHeading2(ps[..|ps| - 1]);
    }
  }

  /**
    Pagination loses, adds and reorders nothing: the items over all slides are
    exactly the body paragraphs under a `Heading 2`.
  */
  lemma {:induction false} ItemsAreAttachedParagraphs(ps: seq<WordPara>)
    ensures Flatten(Slides(Run(ps))) == Attached(ps)
  {
    if ps != [] {
      var before := ps[..|ps| - 1];
      ItemsAreAttachedParagraphs(before);
      OpenIffUnderHeading2(before);
      AttachedStep(Run(before), ps);
    }
  }

  /** One paragraph keeps the slides' items equal to the attached paragraphs. */
  lemma AttachedStep(pg: Pager, ps: seq<WordPara>)
    requires ps != []
    requires Flatten(Slides(pg)) == Attached(ps[..|ps| - 1])
    requires pg.open.Some? <==> UnderHeading2(ps[..|ps| - 1])
    ensures Flatten(Slides(Step(pg, ps[|ps| - 1]))) == Attached(ps)
  {
    var p := ps[|ps| - 1];
    var before := ps[..|ps| - 1];
    var t := Strip(p.text);
    if t == [] {
      assert Attached(ps) == Attached(before);
    } else if IsHeading1(p) {
      assert Attached(ps) == Attached(before);
      FlattenSnoc(Slides(pg), TitleSlide(t));
    } else if IsHeading2(p) {
      assert Attached(ps) == Attached(before);
      FlattenSnoc(Slides(pg), ContentSlide(t, []));
    } else if pg.open.Some? {
      assert Attached(ps) == Attached(before) + [Item(t, IndentLevel(p.leftIndent))];
      BodyItemStep(pg, p);
    } else {
      assert Attached(ps) == Attached(before);
    }
  }

  lemma FlattenSnoc(a: seq<Slide>, s: Slide)
    ensures Flatten(a + [s]) == Flatten(a) + (if s.ContentSlide? then s.items else [])
  {
    assert (a + [s])[..|a|] == a;
  }

  /** A body paragraph under an open slide adds exactly its item to the flattened slides. */
  lemma BodyItemStep(pg: Pager, p: WordPara)
    requires pg.open.Some? && Strip(p.text) != [] && !IsHeading1(p) && !IsHeading2(p)
    ensures Flatten(Slides(Step(pg, p))) == Flatten(Slides(pg)) + [Item(Strip(p.text), IndentLevel(p.leftIndent))]
  {
    var o := pg.open.value;
    var item := Item(Strip(p.text), IndentLevel(p.leftIndent));
    FlattenSnoc(pg.closed, ContentSlide(o.title, o.items));
    if |o.items| >= MaxItemsPerSlide {
      assert Step(pg, p) == Pager(Slides(pg), Some(Open(o.heading + ContinuedSuffix, o.heading, [item])));
      FlattenSnoc(Slides(pg), ContentSlide(o.heading + ContinuedSuffix, [item]));
    } else {
      assert Step(pg, p) == Pager(pg.closed, Some(o.(items := o.items + [item])));
      FlattenSnoc(pg.closed, ContentSlide(o.title, o.items + [item]));
    }
  }

  /** A non-blank `Heading 1` or `Heading 2` paragraph: the ones that make a slide. */
  predicate IsHeading(p: WordPara) {
    !IsBlank(p.text) && (IsHeading1(p) || IsHeading2(p))
  }

  /** A heading step always leaves a slide; any other step keeps the presentation empty or non-empty as it was. */
  lemma StepKeepsSlides(pg: Pager, p: WordPara)
    ensures IsHeading(p) ==> Slides(Step(pg, p)) != []
    ensures !IsHeading(p) ==> (Slides(Step(pg, p)) != [] <==> Slides(pg) != [])
  {
    StripEmptyIffBlank(p.text);
  }

  /** Some paragraph is a non-blank heading. */
  predicate HasHeading(ps: seq<WordPara>) {
    exists i :: 0 <= i < |ps| && IsHeading(ps[i])
  }

  lemma HasHeadingSnoc(before: seq<WordPara>, p: WordPara)
    ensures HasHeading(before + [p]) <==> HasHeading(before) || IsHeading(p)
  {
    var ps := before + [p];
    if HasHeading(before) {
      var i :| 0 <= i < |before| && IsHeading(before[i]);
      assert ps[i] == before[i];
    }
    if IsHeading(p) {
      assert ps[|before|] == p;
    }
    if HasHeading(ps) && !IsHeading(p) {
      var i :| 0 <= i < |ps| && IsHeading(ps[i]);
      assert before[i] == ps[i];
    }
  }

  lemma SlidesIffHeadingStep(pg: Pager, ps: seq<WordPara>)
    requires ps != []
    requires Slides(pg) != [] <==> HasHeading(ps[..|ps| - 1])
    ensures Slides(Step(pg, ps[|ps| - 1])) != [] <==> HasHeading(ps)
  {
    StepKeepsSlides(pg, ps[|ps| - 1]);
    HasHeadingSnoc(ps[..|ps| - 1], ps[|ps| - 1]);
    assert ps == ps[..|ps| - 1] + [ps[|ps| - 1]];
  }

  /** Some slide is produced, so the conversion can succeed, exactly when a non-blank heading paragraph exists. */
  lemma {:induction false} SlidesIffHeading(ps: seq<WordPara>)
    ensures Slides(Run(ps)) != [] <==> HasHeading(ps)
  {
    if ps != [] {
      SlidesIffHeading(ps[..|ps| - 1]);
      SlidesIffHeadingStep(Run(ps[..|ps| - 1]), ps);
    }
  }
}
