/**
 * `pdrawstring`: single-line glyph placement. The blits become the list of
 * glyphs the function would draw, with their tile and position.
 */
module DrawString {
  import opened Font

  /** One blit: the character, its tile, and where its top-left corner goes. */
  datatype Glyph = Glyph(c: char, tile: nat, x: int, y: int)

  /** Default `maxwidth` of `pdrawstring`. */
  const DefaultMaxWidth: int := 10000

  /** Left edge of the i-th glyph of a run starting at `x`. */
  function GlyphX(fs: FontSize, x: int, i: nat): int
  {
    x + i * fs + i * Spacing(fs)
  }

  /** The i-th glyph is drawn only if its right edge lies strictly left of the absolute coordinate `maxwidth`. */
  predicate Fits(fs: FontSize, x: int, i: nat, maxwidth: int)
  {
    GlyphX(fs, x, i) + fs < maxwidth
  }

  /** Index of the first glyph, from `i` on, that does not fit (or `n` if all of them fit). */
  function FitCount(fs: FontSize, x: int, n: nat, maxwidth: int, i: nat): (k: nat)
    requires i <= n
    ensures i <= k <= n
    ensures forall j :: i <= j < k ==> Fits(fs, x, j, maxwidth)
    ensures k < n ==> !Fits(fs, x, k, maxwidth)
    decreases n - i
  {
    if i == n || !Fits(fs, x, i, maxwidth) then i else FitCount(fs, x, n, maxwidth, i + 1)
  }

  /**
   * The glyphs `pdrawstring(surface, font, x, y, text, maxwidth)` draws: a
   * prefix of the text, in order, each at its advance-spaced position on row
   * `y`, stopping at the first glyph that would cross `maxwidth`.
   */
  method Draw(fs: FontSize, x: int, y: int, text: string, maxwidth: int) returns (glyphs: seq<Glyph>)
    ensures |glyphs| == FitCount(fs, x, |text|, maxwidth, 0)
    ensures forall i :: 0 <= i < |glyphs| ==> glyphs[i] == Glyph(text[i], Tile(text[i]), GlyphX(fs, x, i), y)
  {
    glyphs := [];
    var i := 0;
    while i < |text|
      invariant 0 <= i <= |text|
      invariant |glyphs| == i
      invariant forall j :: 0 <= j < i ==> Fits(fs, x, j, maxwidth)
      invariant forall j :: 0 <= j < i ==> glyphs[j] == Glyph(text[j], Tile(text[j]), GlyphX(fs, x, j), y)
      invariant FitCount(fs, x, |text|, maxwidth, 0) == FitCount(fs, x, |text|, maxwidth, i)
    {
      if x + i * fs + i * Spacing(fs) + fs < maxwidth {
        var g := Glyph(text[i], Tile(text[i]), x + i * fs + i * Spacing(fs), y);
        assert forall j :: 0 <= j < i ==> (glyphs + [g])[j] == glyphs[j];
        glyphs := glyphs + [g];
      } else {
        break;
      }
      i := i + 1;
    }
  }

  /** Glyph positions grow by one advance per character. */
  lemma GlyphXStep(fs: FontSize, x: int, i: nat)
    ensures GlyphX(fs, x, i + 1) == GlyphX(fs, x, i) + Advance(fs)
  {
    calc {
      GlyphX(fs, x, i + 1);
      x + (i + 1) * fs + (i + 1) * Spacing(fs);
      x + i * fs + i * Spacing(fs) + fs + Spacing(fs);
    }
  }

  /** If the last glyph fits then every glyph fits, so the whole text is drawn. */
  lemma {:induction false} AllFit(fs: FontSize, x: int, n: nat, maxwidth: int, i: nat)
    requires i <= n
    requires n > 0 ==> Fits(fs, x, n - 1, maxwidth)
    ensures FitCount(fs, x, n, maxwidth, i) == n
    decreases n - i
  {
    if i < n {
      FitsBelow(fs, x, i, n - 1, maxwidth);
      AllFit(fs, x, n, maxwidth, i + 1);
    }
  }

  /** A glyph left of one that fits also fits. */
  lemma {:induction false} FitsBelow(fs: FontSize, x: int, i: nat, j: nat, maxwidth: int)
    requires i <= j && Fits(fs, x, j, maxwidth)
    ensures Fits(fs, x, i, maxwidth)
    decreases j - i
  {
    if i < j {
      GlyphXStep(fs, x, j - 1);
      FitsBelow(fs, x, i, j - 1, maxwidth);
    }
  }

  /** Under the default `maxwidth`, a line whose last glyph ends before pixel 10000 is drawn in full. */
  lemma DefaultDrawsAll(fs: FontSize, x: int, text: string)
    requires |text| > 0 ==> GlyphX(fs, x, |text| - 1) + fs < DefaultMaxWidth
    ensures FitCount(fs, x, |text|, DefaultMaxWidth, 0) == |text|
  {
    AllFit(fs, x, |text|, DefaultMaxWidth, 0);
  }
}
