/**
 * `PParagraph.paint_surface`: character-count line wrapping that honours
 * explicit newlines, and the paragraph size derived from the lines. Creating
 * and painting the off-screen surface is not modelled.
 */
module Paragraph {
  import opened PyMath
  import opened Font
  import opened DrawString

  /** Characters per line: `max_width / (fontsize + fontspacing)`, floored. */
  function MaxChars(fs: FontSize, maxWidth: int): int
  {
    maxWidth / Advance(fs)
  }

  /** The characters counted by `MaxChars` fit in `max_width`, and one more would not. */
  lemma MaxCharsFloor(fs: FontSize, maxWidth: int)
    ensures MaxChars(fs, maxWidth) * Advance(fs) <= maxWidth < (MaxChars(fs, maxWidth) + 1) * Advance(fs)
  {
  }

  /**
   * One character of the scan: `line` is the line being built, `lines` the
   * lines flushed so far. A newline flushes and is dropped; a character
   * arriving when the line already holds `maxchars` characters flushes it and
   * starts the next line; any other character is appended.
   */
  function Step(c: char, line: string, lines: seq<string>, maxchars: int): (next: (string, seq<string>))
  {
    if c == '\n' then ("", lines + [line])
    else if |line| >= maxchars then ([c], lines + [line])
    else (line + [c], lines)
  }

  /** The scan over the rest `s` of the text; the line in progress is appended at the end. */
  function Scan(s: string, line: string, lines: seq<string>, maxchars: int): (r: seq<string>)
    ensures |r| > |lines|
    decreases |s|
  {
    if s == [] then lines + [line]
    else
      var next := Step(s[0], line, lines, maxchars);
      Scan(s[1..], next.0, next.1, maxchars)
  }

  /** The `linelist` built for `value`. */
  function Wrap(value: string, maxchars: int): seq<string>
  {
    Scan(value, "", [], maxchars)
  }

  /** Length of the longest line (0 for no lines). */
  function Widest(lines: seq<string>): nat
  {
    if lines == [] then 0 else Max(Widest(lines[..|lines| - 1]), |lines[|lines| - 1]|)
  }

  /** All lines joined together. */
  function Flatten(lines: seq<string>): string
  {
    if lines == [] then "" else Flatten(lines[..|lines| - 1]) + lines[|lines| - 1]
  }

  /** The text with every newline removed. */
  function StripNewlines(s: string): string
  {
    if s == [] then "" else (if s[0] == '\n' then "" else [s[0]]) + StripNewlines(s[1..])
  }

  /** Number of newline characters. */
  function Newlines(s: string): nat
  {
    if s == [] then 0 else (if s[0] == '\n' then 1 else 0) + Newlines(s[1..])
  }

  /**
   * The wrapping loop of `paint_surface`, together with the paragraph's pixel
   * size. The width counts every line, the final one included (see
   * `WidthAsWritten` for the width the source computes).
   */
  method Layout(fs: FontSize, value: string, maxWidth: int) returns (lines: seq<string>, width: int, height: int)
    ensures lines == Wrap(value, MaxChars(fs, maxWidth))
    ensures width == Widest(lines) * Advance(fs) - Spacing(fs)
    ensures height == |lines| * Advance(fs) - Spacing(fs)
  {
    var maxchars := maxWidth / (fs + Spacing(fs));
    var line: string := "";
    lines := [];
    var widest: nat := 0;
    var i := 0;
    while i < |value|
      invariant 0 <= i <= |value|
      invariant Scan(value[i..], line, lines, maxchars) == Wrap(value, maxchars)
      invariant widest == Widest(lines)
    {
      var c := value[i];
      ghost var next := Step(c, line, lines, maxchars);
      assert Scan(value[i..], line, lines, maxchars) == Scan(value[i + 1..], next.0, next.1, maxchars) by {
        assert value[i..][0] == c && value[i..][1..] == value[i + 1..];
      }
      if c == '\n' {
        WidestSnoc(lines, line);
        lines := lines + [line];
        widest := Max(widest, |line|);
        line := "";
      } else if |line| >= maxchars {
        WidestSnoc(lines, line);
        lines := lines + [line];
        widest := Max(widest, |line|);
        line := [c];
      } else {
        line := line + [c];
      }
      assert (line, lines) == next;
      i := i + 1;
    }
    assert value[|value|..] == [];
    WidestSnoc(lines, line);
    lines := lines + [line];
    widest := Max(widest, |line|);
    width := widest * (fs + Spacing(fs)) - Spacing(fs);
    height := |lines| * (fs + Spacing(fs)) - Spacing(fs);
  }

  lemma WidestSnoc(lines: seq<string>, line: string)
    ensures Widest(lines + [line]) == Max(Widest(lines), |line|)
  {
    assert (lines + [line])[..|lines|] == lines;
  }

  lemma FlattenSnoc(lines: seq<string>, line: string)
    ensures Flatten(lines + [line]) == Flatten(lines) + line
  {
    assert (lines + [line])[..|lines|] == lines;
  }

  /** One step keeps the joined text: what was consumed, minus a newline. */
  lemma StepConcat(c: char, line: string, lines: seq<string>, maxchars: int)
    ensures var next := Step(c, line, lines, maxchars);
      Flatten(next.1) + next.0 == Flatten(lines) + line + (if c == '\n' then "" else [c])
  {
    if c == '\n' || |line| >= maxchars {
      FlattenSnoc(lines, line);
    }
  }

  /** Joining the lines of a scan gives back what it has consumed, minus the newlines. */
  lemma {:induction false} ScanConcat(s: string, line: string, lines: seq<string>, maxchars: int)
    ensures Flatten(Scan(s, line, lines, maxchars)) == Flatten(lines) + line + StripNewlines(s)
    decreases |s|
  {
    if s == [] {
      FlattenSnoc(lines, line);
    } else {
      var next := Step(s[0], line, lines, maxchars);
      ScanConcat(s[1..], next.0, next.1, maxchars);
      StepConcat(s[0], line, lines, maxchars);
      assert StripNewlines(s) == (if s[0] == '\n' then "" else [s[0]]) + StripNewlines(s[1..]);
    }
  }

  /** Wrapping loses no character and adds none: the lines joined are the text without its newlines. */
  lemma WrapConcat(value: string, maxchars: int)
    ensures Flatten(Wrap(value, maxchars)) == StripNewlines(value)
  {
    ScanConcat(value, "", [], maxchars);
  }

  /** A scan never builds a line longer than `max(maxchars, 1)`. */
  lemma {:induction false} ScanBound(s: string, line: string, lines: seq<string>, maxchars: int)
    requires |line| <= Max(maxchars, 1)
    requires forall k :: 0 <= k < |lines| ==> |lines[k]| <= Max(maxchars, 1)
    ensures forall k :: 0 <= k < |Scan(s, line, lines, maxchars)| ==> |Scan(s, line, lines, maxchars)[k]| <= Max(maxchars, 1)
    decreases |s|
  {
    if s != [] {
      var next := Step(s[0], line, lines, maxchars);
      ScanBound(s[1..], next.0, next.1, maxchars);
    }
  }

  /** No wrapped line is longer than `max(maxchars, 1)`. */
  lemma WrapBound(value: string, maxchars: int)
    ensures forall k :: 0 <= k < |Wrap(value, maxchars)| ==> |Wrap(value, maxchars)[k]| <= Max(maxchars, 1)
  {
    ScanBound(value, "", [], maxchars);
  }

  /** Each newline flushes one line and the final line is always appended. */
  lemma {:induction false} ScanCount(s: string, line: string, lines: seq<string>, maxchars: int)
    ensures |Scan(s, line, lines, maxchars)| >= |lines| + 1 + Newlines(s)
    decreases |s|
  {
    if s != [] {
      var next := Step(s[0], line, lines, maxchars);
      ScanCount(s[1..], next.0, next.1, maxchars);
    }
  }

  /** A paragraph has at least one line more than it has newlines. */
  lemma WrapCount(value: string, maxchars: int)
    ensures |Wrap(value, maxchars)| >= 1 + Newlines(value)
  {
    ScanCount(value, "", [], maxchars);
  }

  /** The lines flushed before a scan starts stay in front of everything it produces. */
  lemma {:induction false} ScanLines(s: string, line: string, lines: seq<string>, maxchars: int)
    ensures Scan(s, line, lines, maxchars) == lines + Scan(s, line, [], maxchars)
    decreases |s|
  {
    if s != [] {
      var mine := Step(s[0], line, lines, maxchars);
      var bare := Step(s[0], line, [], maxchars);
      assert mine.0 == bare.0 && mine.1 == lines + bare.1;
      ScanLines(s[1..], mine.0, mine.1, maxchars);
      ScanLines(s[1..], bare.0, bare.1, maxchars);
    }
  }

  /** A newline in the rest of the text ends the scan's line; what follows it is wrapped afresh. */
  lemma {:induction false} ScanNewline(a: string, b: string, line: string, lines: seq<string>, maxchars: int)
    ensures Scan(a + ['\n'] + b, line, lines, maxchars) == Scan(a, line, lines, maxchars) + Wrap(b, maxchars)
    decreases |a|
  {
    var s := a + ['\n'] + b;
    if a == [] {
      assert s[0] == '\n' && s[1..] == b;
      ScanLines(b, "", lines + [line], maxchars);
    } else {
      assert s[0] == a[0] && s[1..] == a[1..] + ['\n'] + b;
      var next := Step(a[0], line, lines, maxchars);
      ScanNewline(a[1..], b, next.0, next.1, maxchars);
    }
  }

  /**
   * A newline ends the line and is dropped: the text before it and the text
   * after it wrap independently, one after the other.
   */
  lemma WrapHonoursNewline(a: string, b: string, maxchars: int)
    ensures Wrap(a + ['\n'] + b, maxchars) == Wrap(a, maxchars) + Wrap(b, maxchars)
  {
    ScanNewline(a, b, "", [], maxchars);
  }

  /**
   * Without newlines, a scan whose flushed lines are full keeps flushing full
   * lines, and ends on a non-empty line once it has seen a character.
   */
  lemma {:induction false} ScanFull(s: string, line: string, lines: seq<string>, maxchars: int)
    requires maxchars >= 1 && forall i :: 0 <= i < |s| ==> s[i] != '\n'
    requires |line| <= maxchars && (line == [] ==> lines == [])
    requires forall k :: 0 <= k < |lines| ==> |lines[k]| == maxchars
    ensures var r := Scan(s, line, lines, maxchars);
      (forall k :: 0 <= k < |r| - 1 ==> |r[k]| == maxchars) && (line != [] || s != [] ==> |r[|r| - 1]| > 0)
    decreases |s|
  {
    if s != [] {
      var next := Step(s[0], line, lines, maxchars);
      ScanFull(s[1..], next.0, next.1, maxchars);
    }
  }

  /**
   * Without newlines, every line but the last holds exactly `maxchars`
   * characters: a line that reaches `maxchars` is flushed mid-word and the
   * overflowing character starts the next one. The last line is empty only
   * for the empty text.
   */
  lemma WrapSplitsLongLine(value: string, maxchars: int)
    requires maxchars >= 1 && forall i :: 0 <= i < |value| ==> value[i] != '\n'
    ensures forall k :: 0 <= k < |Wrap(value, maxchars)| - 1 ==> |Wrap(value, maxchars)[k]| == maxchars
    ensures value != [] ==> |Wrap(value, maxchars)[|Wrap(value, maxchars)| - 1]| > 0
  {
    ScanFull(value, "", [], maxchars);
  }

  /** Every line, drawn at x = 0, ends inside the paragraph's width. */
  lemma LinesFitWidth(fs: FontSize, lines: seq<string>, k: nat)
    requires k < |lines| && |lines[k]| > 0
    ensures GlyphX(fs, 0, |lines[k]| - 1) + fs <= Widest(lines) * Advance(fs) - Spacing(fs)
  {
    var sp := Spacing(fs);
    var a := fs + sp;
    var n := |lines[k]|;
    var w := Widest(lines);
    WidestBounds(lines, k);
    assert GlyphX(fs, 0, n - 1) == (n - 1) * fs + (n - 1) * sp;
    MulLeft(n - 1, fs, sp);
    MulPred(n, a);
    MulMono(n, w, a);
  }

  /** The k-th row, drawn at y = k * (fontsize + fontspacing), ends inside the paragraph's height. */
  lemma RowsFitHeight(fs: FontSize, lines: seq<string>, k: nat)
    requires k < |lines|
    ensures k * Advance(fs) + fs <= |lines| * Advance(fs) - Spacing(fs)
  {
    MulMono(k + 1, |lines|, Advance(fs));
  }

  lemma {:induction false} WidestBounds(lines: seq<string>, k: nat)
    requires k < |lines|
    ensures |lines[k]| <= Widest(lines)
  {
    var p := lines[..|lines| - 1];
    if k < |p| {
      assert p[k] == lines[k];
      WidestBounds(p, k);
    }
  }

  /**
   * The width `paint_surface` computes: `width` is only raised when a line is
   * flushed inside the loop, so the line appended after the loop never
   * counts.
   */
  function WidthAsWritten(fs: FontSize, value: string, maxWidth: int): int
  {
    var lines := Wrap(value, MaxChars(fs, maxWidth));
    Widest(lines[..|lines| - 1]) * Advance(fs) - Spacing(fs)
  }

  /** The width as written is at least −spacing and never more than the corrected width `Layout` gives. */
  lemma WidthAsWrittenBelowLayout(fs: FontSize, value: string, maxWidth: int)
    ensures var lines := Wrap(value, MaxChars(fs, maxWidth));
      -Spacing(fs) <= WidthAsWritten(fs, value, maxWidth) <= Widest(lines) * Advance(fs) - Spacing(fs)
  {
    var lines := Wrap(value, MaxChars(fs, maxWidth));
    var p := Widest(lines[..|lines| - 1]);
    MulMono(0, p, Advance(fs));
    MulMono(p, Widest(lines), Advance(fs));
  }

  lemma WrapHi()
    ensures Wrap("hi", 10) == ["hi"]
  {
    assert "hi"[0] == 'h' && "hi"[1..] == "i";
    assert "" + ['h'] == "h";
    assert Scan("hi", "", [], 10) == Scan("i", "h", [], 10);
    assert "i"[0] == 'i' && "i"[1..] == "";
    assert "h" + ['i'] == "hi";
    assert Scan("i", "h", [], 10) == Scan("", "hi", [], 10);
  }

  /** A one-line paragraph gets a negative width, narrower than its own text. */
  lemma WidthAsWrittenIgnoresLastLine(fs: FontSize)
    ensures Wrap("hi", 10) == ["hi"]
    ensures WidthAsWritten(fs, "hi", 10 * Advance(fs)) == -Spacing(fs) < 0
  {
    TenChars(fs);
    WrapHi();
    var lines := Wrap("hi", 10);
    assert lines[..|lines| - 1] == [];
  }

  /** A width of ten advances holds exactly ten characters. */
  lemma TenChars(fs: FontSize)
    ensures MaxChars(fs, 10 * Advance(fs)) == 10
  {
    FloorDivUnique(10 * Advance(fs), Advance(fs), 10);
  }
}
