/** The image carousel of `src/pages/Dashboard.jsx`: pages of `imagesPerView` images, cyclic
    next and previous buttons, page dots, and a window width that picks one or two images per
    page. The window width is an input of the resize handler. */
module Dashboard {

  const Images: seq<string> := [
    "/imagenesClub/padel.webp",
    "/imagenesClub/padel2.webp",
    "/imagenesClub/padel.webp",
    "/imagenesClub/padel2.webp"
  ]

  /** Widths below this show one image per page. */
  const NarrowBelow: int := 1279

  /** `Math.ceil(n / k)`. */
  function TotalPages(n: nat, k: nat): nat
    requires k >= 1
  {
    (n + k - 1) / k
  }

  /** The page count is the ceiling: the pages hold all images, and one page fewer would not. */
  lemma TotalPagesCeil(n: nat, k: nat)
    requires k >= 1
    ensures n <= TotalPages(n, k) * k
    ensures n > 0 ==> (TotalPages(n, k) - 1) * k < n
    ensures TotalPages(n, k) == 0 <==> n == 0
  {
    var t := TotalPages(n, k);
    assert t * k <= n + k - 1 < t * k + k;
  }

  /** `(i + 1) % T`. */
  function Next(i: nat, t: nat): nat
    requires t >= 1
  {
    (i + 1) % t
  }

  /** `(i - 1 + T) % T` (the operands are never negative). */
  function Prev(i: nat, t: nat): nat
    requires t >= 1
  {
    (i - 1 + t) % t
  }

  lemma ModWithin(x: nat, t: nat)
    requires 1 <= t && x < 2 * t
    ensures x % t == if x < t then x else x - t
  {
    if t <= x {
      assert x == t + (x - t);
    }
  }

  /** The next page after the last is the first, and otherwise the following one. */
  lemma NextStep(i: nat, t: nat)
    requires 1 <= t && i < t
    ensures Next(i, t) == if i + 1 == t then 0 else i + 1
  {
    ModWithin(i + 1, t);
  }

  /** The page before the first is the last, and otherwise the preceding one. */
  lemma PrevStep(i: nat, t: nat)
    requires 1 <= t && i < t
    ensures Prev(i, t) == if i == 0 then t - 1 else i - 1
  {
    ModWithin(i - 1 + t, t);
  }

  /** Both buttons stay on a page and undo each other. */
  lemma NextPrevInverse(i: nat, t: nat)
    requires 1 <= t && i < t
    ensures Next(i, t) < t && Prev(i, t) < t
    ensures Prev(Next(i, t), t) == i && Next(Prev(i, t), t) == i
  {
    NextStep(i, t);
    PrevStep(i, t);
    NextStep(Prev(i, t), t);
    PrevStep(Next(i, t), t);
  }

  /** `s.slice(a, b)` for `0 <= a <= b`: bounds past the end are cut to the end. */
  function Slice<T>(s: seq<T>, a: nat, b: nat): (r: seq<T>)
    requires a <= b
    ensures |r| <= b - a
  {
    if a >= |s| then [] else if b >= |s| then s[a..] else s[a..b]
  }

  /** `getCurrentImages` on page `i`. */
  function PageImages<T>(s: seq<T>, i: nat, k: nat): seq<T> {
    Slice(s, i * k, i * k + k)
  }

  /** A page before the last holds no more than `k` images, all consecutive, and a page of
      range holds at least one. */
  lemma PageShape<T>(s: seq<T>, i: nat, k: nat)
    requires k >= 1 && i < TotalPages(|s|, k)
    ensures 1 <= |PageImages(s, i, k)| <= k
    ensures forall j :: 0 <= j < |PageImages(s, i, k)| ==> PageImages(s, i, k)[j] == s[i * k + j]
  {
    TotalPagesCeil(|s|, k);
    assert (i + 1) * k <= TotalPages(|s|, k) * k;
  }

  /** Pages `0 .. t-1` one after another. */
  function Pages<T>(s: seq<T>, k: nat, t: nat): seq<T> {
    if t == 0 then [] else Pages(s, k, t - 1) + PageImages(s, t - 1, k)
  }

  lemma {:induction false} PagesPrefix<T>(s: seq<T>, k: nat, t: nat)
    requires k >= 1 && t * k <= |s|
    ensures Pages(s, k, t) == s[..t * k]
  {
    if t > 0 {
      PagesPrefix(s, k, t - 1);
      assert (t - 1) * k + k == t * k;
      assert s[..t * k] == s[..(t - 1) * k] + s[(t - 1) * k..t * k];
    }
  }

  /** Showing every page in turn shows every image exactly once, in order. */
  lemma PagesCover<T>(s: seq<T>, k: nat)
    requires k >= 1
    ensures Pages(s, k, TotalPages(|s|, k)) == s
  {
    var t := TotalPages(|s|, k);
    TotalPagesCeil(|s|, k);
    if t > 0 {
      PagesPrefix(s, k, t - 1);
      assert (t - 1) * k + k == t * k;
      assert s == s[..(t - 1) * k] + s[(t - 1) * k..];
    }
  }

  /** `handleResize`'s choice. */
  function PerView(width: int): (k: nat)
    ensures k == 1 <==> width < NarrowBelow
    ensures k == 1 || k == 2
  {
    if width < NarrowBelow then 1 else 2
  }

  class Carousel {
    var currentIndex: nat
    var imagesPerView: nat

    ghost predicate Valid()
      reads this
    {
      imagesPerView == 1 || imagesPerView == 2
    }

    /** The index names a page that exists. */
    predicate OnPage()
      reads this
      requires Valid()
    {
      currentIndex < Pages()
    }

    function Pages(): (t: nat)
      reads this
      requires Valid()
      ensures t >= 2
    {
      TotalPages(|Images|, imagesPerView)
    }

    /** The images on screen. */
    function CurrentImages(): seq<string>
      reads this
    {
      PageImages(Images, currentIndex, imagesPerView)
    }

    constructor()
      ensures Valid() && OnPage() && currentIndex == 0 && imagesPerView == 2
    {
      currentIndex := 0;
      imagesPerView := 2;
    }

    /** `handleResize` as written: only the page size changes. */
    method HandleResize(width: int)
      modifies this
      ensures Valid() && imagesPerView == PerView(width) && currentIndex == old(currentIndex)
    {
      imagesPerView := PerView(width);
    }

    /** `handleResize` keeping the index on a page: a page index past the new last page moves
        to the last page. */
    method HandleResizeClamped(width: int)
      modifies this
      ensures Valid() && OnPage() && imagesPerView == PerView(width)
      ensures currentIndex == if old(currentIndex) < Pages() then old(currentIndex) else Pages() - 1
    {
      imagesPerView := PerView(width);
      if currentIndex >= TotalPages(|Images|, imagesPerView) {
        currentIndex := TotalPages(|Images|, imagesPerView) - 1;
      }
    }

    /** `nextSlide`. */
    method NextSlide()
      requires Valid()
      modifies this
      ensures Valid() && OnPage() && imagesPerView == old(imagesPerView)
      ensures currentIndex == Next(old(currentIndex), Pages())
    {
      currentIndex := Next(currentIndex, TotalPages(|Images|, imagesPerView));
    }

    /** `prevSlide`. */
    method PrevSlide()
      requires Valid()
      modifies this
      ensures Valid() && OnPage() && imagesPerView == old(imagesPerView)
      ensures currentIndex == Prev(old(currentIndex), Pages())
    {
      currentIndex := Prev(currentIndex, TotalPages(|Images|, imagesPerView));
    }

    /** A page dot. */
    method GoTo(index: nat)
      requires Valid() && index < Pages()
      modifies this
      ensures Valid() && OnPage() && currentIndex == index && imagesPerView == old(imagesPerView)
    {
      currentIndex := index;
    }
  }

  /** On a page that exists the carousel shows between one and `imagesPerView` images. */
  lemma OnPageShowsImages(c: Carousel)
    requires c.Valid() && c.OnPage()
    ensures 1 <= |c.CurrentImages()| <= c.imagesPerView
  {
    PageShape(Images, c.currentIndex, c.imagesPerView);
  }

  /** Narrow the window, go three pages on, widen it again: the index is past the last of the
      two wide pages and the carousel shows no image. */
  method EmptyAfterResize() returns (shown: seq<string>, index: nat, pages: nat)
    ensures index >= pages && shown == []
  {
    var c := new Carousel();
    c.HandleResize(800);
    assert TotalPages(|Images|, 1) == 4;
    NextStep(0, 4);
    NextStep(1, 4);
    NextStep(2, 4);
    c.NextSlide();
    c.NextSlide();
    c.NextSlide();
    assert c.currentIndex == 3;
    c.HandleResize(1400);
    assert TotalPages(|Images|, 2) == 2;
    assert c.CurrentImages() == Slice(Images, 6, 8);
    shown := c.CurrentImages();
    index := c.currentIndex;
    pages := c.Pages();
  }

  /** The same steps with the clamping handler end on the last wide page, which shows images. */
  method ClampedAfterResize() returns (shown: seq<string>, index: nat, pages: nat)
    ensures index == pages - 1 && 1 <= |shown| <= 2
  {
    var c := new Carousel();
    c.HandleResizeClamped(800);
    assert TotalPages(|Images|, 1) == 4;
    assert TotalPages(|Images|, 2) == 2;
    c.NextSlide();
    c.NextSlide();
    c.NextSlide();
    c.HandleResizeClamped(1400);
    OnPageShowsImages(c);
    shown := c.CurrentImages();
    index := c.currentIndex;
    pages := c.Pages();
  }
}
