/** The images page (web/src/app/images/page.tsx): two carousels, "Try a
    style on an image" and "Discover something new", each showing one page
    of six entries of a constant list, with left and right buttons that move
    a page index; plus the prompt box whose send button needs text. */
module ImagesPage {

  /** The style names of `imageStyles` (their pictures are left out). */
  const StyleNames: seq<string> := [
    "Camcorder", "Neon fantasy", "Norman Rockwell", "Iconic", "Post-rain sunset", "Flower petals",
    "Cyberpunk", "Watercolor", "Oil painting", "Anime", "Vintage", "Minimalist"
  ]

  /** The prompt texts of `discoverPrompts` (their pictures are left out). */
  const DiscoverTexts: seq<string> := [
    "Turn my apartment into a storybook", "Reimagine my pet as a human",
    "What does my future partner look like?", "Give them a bowl cut", "Me as an emperor",
    "Redecorate my room", "Design a futuristic gadget", "Create motivational poster",
    "Fantasy landscape artwork", "Ocean sunset painting", "City at night neon style",
    "Professional headshot edit"
  ]

  /** `stylesPerPage` and `discoverPerPage`. */
  const PerPage: nat := 6

  datatype Side = Left | Right

  function Min(a: int, b: int): int { if a <= b then a else b }

  function Max(a: int, b: int): int { if a >= b then a else b }

  /** The page index after one scroll of a carousel of `len` entries showing
      `perPage` at once. */
  function Scrolled(i: int, side: Side, len: int, perPage: nat): (j: int)
    // the index only moves in the direction of the button, by at most a page
    ensures side == Right ==> i <= j <= i + perPage
    ensures side == Left ==> i - perPage <= j <= i
    // it never moves past the last full page or before the first one
    ensures side == Right && j != i ==> j <= len - perPage
    ensures side == Left && j != i ==> 0 <= j
    // it moves a whole page unless that would pass the end
    ensures j != i ==> j == i + perPage || j == i - perPage || j == len - perPage || j == 0
  {
    if side == Right && i < len - perPage then Min(i + perPage, len - perPage)
    else if side == Left && i > 0 then Max(i - perPage, 0)
    else i
  }

  /** The page indexes a carousel can show: `[0, len - perPage]`. */
  predicate InBounds(i: int, len: int, perPage: nat)
  {
    0 <= i <= len - perPage
  }

  /** Scrolling either way keeps an in-bounds index in bounds. */
  lemma ScrollStaysInBounds(i: int, side: Side, len: int, perPage: nat)
    requires InBounds(i, len, perPage)
    ensures InBounds(Scrolled(i, side, len, perPage), len, perPage)
  {
  }

  /** The left button's `disabled`. */
  predicate LeftDisabled(i: int)
  {
    i == 0
  }

  /** The right button's `disabled`. */
  predicate RightDisabled(i: int, len: int, perPage: nat)
  {
    i >= len - perPage
  }

  /** From an in-bounds index, a scroll leaves the index where it is exactly
      when the button for that side is disabled. */
  lemma ScrollMovesIffEnabled(i: int, len: int, perPage: nat)
    requires InBounds(i, len, perPage) && perPage > 0
    ensures Scrolled(i, Left, len, perPage) == i <==> LeftDisabled(i)
    ensures Scrolled(i, Right, len, perPage) == i <==> RightDisabled(i, len, perPage)
  {
  }

  /** Scrolling right and then left from the first page comes back to it. */
  lemma RightThenLeft(len: int, perPage: nat)
    requires perPage > 0 && len - perPage <= perPage
    ensures Scrolled(Scrolled(0, Right, len, perPage), Left, len, perPage) == 0
  {
  }

  /** JavaScript's `Array.prototype.slice(start, end)`: negative positions
      count from the end, and both are clamped to the list. */
  function Slice<T>(s: seq<T>, start: int, end: int): (r: seq<T>)
    ensures |r| <= |s|
    ensures 0 <= start <= end <= |s| ==> r == s[start..end]
    ensures 0 <= start <= |s| <= end ==> r == s[start..]
  {
    var from := if start < 0 then Max(|s| + start, 0) else Min(start, |s|);
    var to := if end < 0 then Max(|s| + end, 0) else Min(end, |s|);
    if to <= from then [] else s[from..to]
  }

  /** `visibleStyles` and `visibleDiscover`: the page starting at `i`. */
  function Visible<T>(items: seq<T>, i: int, perPage: nat): (r: seq<T>)
    ensures InBounds(i, |items|, perPage) ==> |r| == perPage && r == items[i..i + perPage]
    ensures 0 <= i <= |items| ==> r == items[i..Min(i + perPage, |items|)]
  {
    Slice(items, i, i + perPage)
  }

  /** The twelve styles are two pages: the right button moves from the first
      page to the last, which shows the last six styles. */
  lemma StylePages()
    ensures Scrolled(0, Right, |StyleNames|, PerPage) == 6
    ensures Visible(StyleNames, 6, PerPage) == StyleNames[6..]
    ensures RightDisabled(6, |StyleNames|, PerPage)
  {
  }

  /** The page's state: the prompt and, per carousel, its index and the
      direction of its last scroll (1 right, -1 left, 0 before any). */
  class Page {
    var prompt: string
    var styleIndex: int
    var discoverIndex: int
    var styleDirection: int
    var discoverDirection: int

    constructor ()
      ensures prompt == "" && styleIndex == 0 && discoverIndex == 0
      ensures styleDirection == 0 && discoverDirection == 0
      ensures Valid()
    {
      prompt := "";
      styleIndex, discoverIndex := 0, 0;
      styleDirection, discoverDirection := 0, 0;
    }

    /** Both carousels show an in-bounds page. */
    ghost predicate Valid()
      reads this
    {
      InBounds(styleIndex, |StyleNames|, PerPage) && InBounds(discoverIndex, |DiscoverTexts|, PerPage)
    }

    function VisibleStyles(): seq<string>
      reads this
    {
      Visible(StyleNames, styleIndex, PerPage)
    }

    function VisibleDiscover(): seq<string>
      reads this
    {
      Visible(DiscoverTexts, discoverIndex, PerPage)
    }

    /** The prompt's send button is disabled while the prompt is empty
        (white space counts as text here). */
    predicate SendDisabled()
      reads this
    {
      prompt == ""
    }

    method SetPrompt(text: string)
      modifies this
      ensures prompt == text
      ensures styleIndex == old(styleIndex) && discoverIndex == old(discoverIndex)
      ensures styleDirection == old(styleDirection) && discoverDirection == old(discoverDirection)
    {
      prompt := text;
    }

    /** `scrollStyles`: records the direction on every call, even when the
        index stays, and moves the style page; the discover carousel and
        the prompt are untouched. */
    method ScrollStyles(side: Side)
      modifies this
      ensures styleDirection == if side == Right then 1 else -1
      ensures styleIndex == Scrolled(old(styleIndex), side, |StyleNames|, PerPage)
      ensures old(Valid()) ==> Valid()
      ensures discoverIndex == old(discoverIndex) && discoverDirection == old(discoverDirection)
      ensures prompt == old(prompt)
    {
      styleDirection := if side == Right then 1 else -1;
      if side == Right && styleIndex < |StyleNames| - PerPage {
        styleIndex := Min(styleIndex + PerPage, |StyleNames| - PerPage);
      } else if side == Left && styleIndex > 0 {
        styleIndex := Max(styleIndex - PerPage, 0);
      }
    }

    /** `scrollDiscover`: the same for the discover carousel. */
    method ScrollDiscover(side: Side)
      modifies this
      ensures discoverDirection == if side == Right then 1 else -1
      ensures discoverIndex == Scrolled(old(discoverIndex), side, |DiscoverTexts|, PerPage)
      ensures old(Valid()) ==> Valid()
      ensures styleIndex == old(styleIndex) && styleDirection == old(styleDirection)
      ensures prompt == old(prompt)
    {
      discoverDirection := if side == Right then 1 else -1;
      if side == Right && discoverIndex < |DiscoverTexts| - PerPage {
        discoverIndex := Min(discoverIndex + PerPage, |DiscoverTexts| - PerPage);
      } else if side == Left && discoverIndex > 0 {
        discoverIndex := Max(discoverIndex - PerPage, 0);
      }
    }

    /** On a valid page each carousel shows a full page of six. */
    lemma FullPages()
      requires Valid()
      ensures |VisibleStyles()| == PerPage && |VisibleDiscover()| == PerPage
    {
    }
  }
}
