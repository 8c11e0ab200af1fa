/** The extended slide buffer: the canonical slide list padded on both sides
    so that sliding past either physical end still shows real content. */
module SlideBuffer {

  /** Cards visible at once, which is also the padding put on each side. */
  const VISIBLE_SLIDES: nat := 3

  function Min(a: int, b: int): int
  {
    if a <= b then a else b
  }

  /** How JavaScript's `Array.prototype.slice` resolves one of its arguments:
      a negative value counts back from the end, and the result is clamped
      into `[0, len]`. */
  function RelativeIndex(i: int, len: nat): (r: nat)
    ensures r <= len
    ensures 0 <= i <= len ==> r == i
    ensures -(len as int) <= i < 0 ==> r == len + i
    ensures i < -(len as int) ==> r == 0
    ensures len < i ==> r == len
  {
    if i < 0 then (if len + i < 0 then 0 else len + i)
    else if i < len then i
    else len
  }

  /** `s.slice(begin, end)`: never fails, empty when the resolved bounds cross. */
  function Slice<T>(s: seq<T>, begin: int, end: int): (r: seq<T>)
    ensures |r| <= |s|
    ensures 0 <= begin <= end <= |s| ==> r == s[begin..end]
    ensures 0 <= begin <= |s| <= end ==> r == s[begin..]
    ensures -(|s| as int) <= begin < 0 && |s| <= end ==> r == s[|s| + begin..]
    ensures begin < -(|s| as int) && |s| <= end ==> r == s
    ensures 0 <= end <= begin ==> r == []
    ensures |s| <= begin ==> r == []
  {
    var from := RelativeIndex(begin, |s|);
    var to := RelativeIndex(end, |s|);
    if from < to then s[from..to] else []
  }

  /** The padding actually used on each side: the whole list when it is
      shorter than the window. */
  function Padding<T>(s: seq<T>): nat
  {
    Min(|s|, VISIBLE_SLIDES)
  }

  /** `slides.slice(-VISIBLE_SLIDES)`: the last three slides, or all of them. */
  function LastSlides<T>(s: seq<T>): (r: seq<T>)
    ensures r == s[|s| - Padding(s)..]
  {
    Slice(s, -(VISIBLE_SLIDES as int), |s|)
  }

  /** `slides.slice(0, VISIBLE_SLIDES)`: the first three slides, or all of them. */
  function FirstSlides<T>(s: seq<T>): (r: seq<T>)
    ensures r == s[..Padding(s)]
  {
    Slice(s, 0, VISIBLE_SLIDES)
  }

  /** The memoised `extendedSlides`: head padding, the list, tail padding. */
  function ExtendedSlides<T>(s: seq<T>): (r: seq<T>)
    ensures |r| == |s| + 2 * Padding(s)
    ensures r[..Padding(s)] == s[|s| - Padding(s)..]
    ensures r[Padding(s)..Padding(s) + |s|] == s
    ensures r[Padding(s) + |s|..] == s[..Padding(s)]
  {
    LastSlides(s) + s + FirstSlides(s)
  }

  /** The cards on screen when the track is scrolled to `index`: the card at
      `index` is the leftmost one. */
  function Window<T>(ext: seq<T>, index: nat): (r: seq<T>)
    requires index + VISIBLE_SLIDES <= |ext|
    ensures |r| == VISIBLE_SLIDES
    ensures forall j :: 0 <= j < VISIBLE_SLIDES ==> r[j] == ext[index + j]
  {
    ext[index..index + VISIBLE_SLIDES]
  }

  /** The buffer repeats with period N: every position shows the same slide
      as the position N further on, so it is a stretch of the endless loop
      through the list. */
  lemma ExtendedIsPeriodic<T>(s: seq<T>, i: nat)
    requires i + |s| < |ExtendedSlides(s)|
    ensures ExtendedSlides(s)[i] == ExtendedSlides(s)[i + |s|]
  {
    var ext, n, m := ExtendedSlides(s), |s|, Padding(s);
    if i < m {
      assert ext[i] == ext[..m][i];
      assert ext[i + n] == ext[m..m + n][i + n - m];
    } else {
      assert ext[i] == ext[m..m + n][i - m];
      assert ext[i + n] == ext[m + n..][i - m];
    }
  }

  /** With at least three slides the two boundary resets jump between
      positions that show the same three cards: index N+3 looks like index 3,
      and index 0 looks like index N. */
  lemma BoundaryWindowsAgree<T>(s: seq<T>)
    requires |s| >= VISIBLE_SLIDES
    ensures |ExtendedSlides(s)| == |s| + 2 * VISIBLE_SLIDES
    ensures Window(ExtendedSlides(s), |s| + VISIBLE_SLIDES) == Window(ExtendedSlides(s), VISIBLE_SLIDES)
    ensures Window(ExtendedSlides(s), 0) == Window(ExtendedSlides(s), |s|)
    ensures ExtendedSlides(s)[|s| + VISIBLE_SLIDES] == ExtendedSlides(s)[VISIBLE_SLIDES] == s[0]
    ensures ExtendedSlides(s)[0] == ExtendedSlides(s)[|s|] == s[|s| - VISIBLE_SLIDES]
  {
    var ext, n := ExtendedSlides(s), |s|;
    forall j | 0 <= j < VISIBLE_SLIDES
      ensures Window(ext, n + VISIBLE_SLIDES)[j] == Window(ext, VISIBLE_SLIDES)[j]
      ensures Window(ext, 0)[j] == Window(ext, n)[j]
    {
      ExtendedIsPeriodic(s, VISIBLE_SLIDES + j);
      ExtendedIsPeriodic(s, j);
    }
    assert Window(ext, n + VISIBLE_SLIDES) == Window(ext, VISIBLE_SLIDES);
    assert Window(ext, 0) == Window(ext, n);
    assert ext[VISIBLE_SLIDES] == ext[VISIBLE_SLIDES..VISIBLE_SLIDES + n][0];
    assert ext[n] == ext[VISIBLE_SLIDES..VISIBLE_SLIDES + n][n - VISIBLE_SLIDES];
  }

  /** With one or two slides the buffer is only 3N long, so the three cards
      that should be visible at the tail-reset index N+3 run past its end;
      with a single slide even the initial index 3 is past the last card. */
  lemma ShortListOverrunsWindow<T>(s: seq<T>)
    requires 0 < |s| < VISIBLE_SLIDES
    ensures ExtendedSlides(s) == s + s + s
    ensures |ExtendedSlides(s)| < |s| + VISIBLE_SLIDES + VISIBLE_SLIDES
    ensures |s| == 1 ==> |ExtendedSlides(s)| <= VISIBLE_SLIDES
  {
    assert Padding(s) == |s|;
    assert s[|s| - Padding(s)..] == s;
    assert s[..Padding(s)] == s;
  }
}
