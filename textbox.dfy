/**
 * PTextBox: the edit state machine (value, cursor, offset) driven by clicks
 * and key presses, and the box's size formula.
 */
module TextBoxes {
  import opened Wrappers
  import opened PyMath
  import opened Font

  /** The edit state of a text box. `maxchars` is how many characters are visible. */
  datatype TextBox = TextBox(value: string, cursor: int, offset: int, maxlength: int, maxchars: int)

  /** pygame key codes: K_BACKSPACE and K_SPACE; K_0..K_9 are 48..57 and K_a..K_z are 97..122. */
  const KBackspace: int := 8
  const KSpace: int := 32

  /** `maxlength` when the caller gives none. */
  const DefaultMaxLength: int := 10000

  /** The 37 character keys of `key_down` and the character each inserts; space inserts '_'. */
  function KeyChar(key: int): (r: Option<char>)
    ensures r.Some? <==> (97 <= key <= 122 || 48 <= key <= 57 || key == KSpace)
    ensures (97 <= key <= 122 || 48 <= key <= 57) ==> r == Some(key as char)
    ensures key == KSpace ==> r == Some('_')
    ensures r.Some? ==> r.value != '\n'
  {
    if 97 <= key <= 122 || 48 <= key <= 57 then Some(key as char)
    else if key == KSpace then Some('_')
    else None
  }

  /** A new, empty box at most `maxWidth` pixels wide: its state, width and height. */
  function Create(fs: FontSize, maxWidth: int, maxlength: int): (r: (TextBox, int, int))
    ensures r.0 == TextBox("", 0, 0, maxlength, r.0.maxchars)
    ensures r.1 - 2 == (maxWidth / Advance(fs)) * Advance(fs) && maxWidth - Advance(fs) < r.1 - 2 <= maxWidth
    ensures r.0.maxchars * Advance(fs) <= r.1 - 6 < (r.0.maxchars + 1) * Advance(fs)
    ensures r.2 == fs + 2 * (Spacing(fs) + 2)
  {
    var a := fs + Spacing(fs);
    var width := maxWidth - maxWidth % a;
    DivModSplit(maxWidth, a);
    DivModSplit(width - 4, a);
    (TextBox("", 0, 0, maxlength, (width - 4) / a), width + 2, fs + 4 + 2 * Spacing(fs))
  }

  /** Euclidean division by a positive divisor brackets the dividend. */
  lemma DivModSplit(n: int, a: int)
    requires a > 0
    ensures n - n % a == (n / a) * a
    ensures (n / a) * a <= n < (n / a + 1) * a
  {
    assert n == (n / a) * a + n % a;
  }

  /** `mouse_down` at pixel x of a box whose left edge is `boxX`: the cursor goes under the click (no lower clamp). */
  function Click(tb: TextBox, fs: FontSize, boxX: int, x: int): (r: TextBox)
    ensures r == tb.(cursor := r.cursor)
    ensures r.cursor <= |tb.value|
    ensures r.cursor < |tb.value| ==> r.cursor * Advance(fs) <= x - boxX - 2 + tb.offset * Advance(fs) < (r.cursor + 1) * Advance(fs)
  {
    tb.(cursor := Min((x - boxX - 2) / (fs + Spacing(fs)) + tb.offset, |tb.value|))
  }

  /** Insert `c` at the cursor (Python slices, so a negative cursor counts from the end). */
  function Insert(tb: TextBox, c: char): (r: TextBox)
    ensures |r.value| == |tb.value| + 1
    ensures 0 <= tb.cursor <= |tb.value| ==> r.value == tb.value[..tb.cursor] + [c] + tb.value[tb.cursor..]
    ensures r.cursor == tb.cursor + 1
    ensures r.offset == if |r.value| > tb.maxchars then tb.offset + 1 else tb.offset
    ensures r.maxlength == tb.maxlength && r.maxchars == tb.maxchars
  {
    var v := Take(tb.value, tb.cursor) + [c] + Drop(tb.value, tb.cursor);
    tb.(value := v, offset := if |v| > tb.maxchars then tb.offset + 1 else tb.offset, cursor := tb.cursor + 1)
  }

  /** Backspace: step offset and cursor back (floored at 0), then delete the character at the new cursor. */
  function Backspace(tb: TextBox): (r: TextBox)
    ensures r.cursor == Max(tb.cursor - 1, 0) && r.offset == Max(tb.offset - 1, 0)
    ensures 0 < |tb.value| && tb.cursor <= |tb.value| ==> |r.value| == |tb.value| - 1
    ensures 1 <= tb.cursor <= |tb.value| ==> r.value == tb.value[..tb.cursor - 1] + tb.value[tb.cursor..]
    ensures r.maxlength == tb.maxlength && r.maxchars == tb.maxchars
  {
    var cur := Max(tb.cursor - 1, 0);
    tb.(offset := Max(tb.offset - 1, 0), cursor := cur, value := Take(tb.value, cur) + Drop(tb.value, cur + 1))
  }

  /** `key_down` of the box that holds focus. */
  function KeyDown(tb: TextBox, key: int): (r: TextBox)
    ensures r.maxlength == tb.maxlength && r.maxchars == tb.maxchars
    ensures |tb.value| <= tb.maxlength ==> |r.value| <= tb.maxlength
    ensures KeyChar(key).None? && key != KBackspace ==> r == tb
  {
    match KeyChar(key)
    case Some(c) => if |tb.value| < tb.maxlength then Insert(tb, c) else tb
    case None => if key == KBackspace && |tb.value| > 0 then Backspace(tb) else tb
  }

  /** Keys with no branch, character keys on a full box, and backspace on an empty box change nothing. */
  lemma KeyDownNoOp(tb: TextBox, key: int)
    requires (KeyChar(key).None? && key != KBackspace) || (KeyChar(key).Some? && |tb.value| >= tb.maxlength)
      || (key == KBackspace && tb.value == "")
    ensures KeyDown(tb, key) == tb
  {
  }

  /** The cursor stays within the text under every key. */
  predicate CursorInText(tb: TextBox)
  {
    0 <= tb.cursor <= |tb.value|
  }

  lemma KeyDownKeepsCursorInText(tb: TextBox, key: int)
    requires CursorInText(tb)
    ensures CursorInText(KeyDown(tb, key))
  {
  }

  /** At cursor 0, backspace deletes the first character (the one after the cursor). */
  lemma BackspaceAtStartDeletesFirst(tb: TextBox)
    requires tb.cursor == 0 && |tb.value| > 0
    ensures KeyDown(tb, KBackspace).value == tb.value[1..]
    ensures KeyDown(tb, KBackspace).cursor == 0
  {
  }

  /** A click on the box's left border puts the cursor at -1, and the next key is then inserted before the last character. */
  lemma ClickOnBorder(fs: FontSize, boxX: int)
    ensures var tb := Click(TextBox("ab", 0, 0, DefaultMaxLength, 10), fs, boxX, boxX);
      tb.cursor == -1 && KeyDown(tb, 99).value == "acb" && KeyDown(tb, 99).cursor == 0
  {
    DivAboveMinusOne(-2, fs + Spacing(fs));
    var tb := Click(TextBox("ab", 0, 0, DefaultMaxLength, 10), fs, boxX, boxX);
    assert tb.cursor == -1;
    assert Take("ab", -1) == "a" && Drop("ab", -1) == "b";
  }

  /** A click inside the box never puts the cursor more than one place before the scroll offset. */
  lemma ClickInsideBox(tb: TextBox, fs: FontSize, boxX: int, x: int)
    requires x >= boxX
    ensures Click(tb, fs, boxX, x).cursor >= Min(tb.offset - 1, |tb.value|)
  {
    DivAboveMinusOne(x - boxX - 2, fs + Spacing(fs));
  }

  /** Floor division of a number no smaller than -2 by at least 2 is at least -1, and exactly -1 below 0. */
  lemma DivAboveMinusOne(d: int, a: int)
    requires a >= 2 && d >= -2
    ensures d / a >= -1 && (d < 0 ==> d / a == -1)
  {
    var q, r := d / a, d % a;
    assert d == q * a + r && 0 <= r < a;
    MulNonPositive(q + 2, a);
    assert (q + 2) * a == q * a + 2 * a;
  }

  lemma {:induction false} MulNonPositive(m: int, a: nat)
    ensures m <= 0 ==> m * a <= 0
    decreases a
  {
    if a > 0 {
      MulNonPositive(m, a - 1);
      assert m * a == m * (a - 1) + m;
    }
  }

  /** Typing, one key after another. */
  function Type(tb: TextBox, keys: seq<int>): TextBox
    decreases |keys|
  {
    if keys == [] then tb else Type(KeyDown(tb, keys[0]), keys[1..])
  }

  /** Pressing backspace n times. */
  function Erase(tb: TextBox, n: nat): TextBox
    decreases n
  {
    if n == 0 then tb else Erase(KeyDown(tb, KBackspace), n - 1)
  }

  /** Sequence of character keys. */
  predicate CharKeys(keys: seq<int>)
  {
    forall k :: 0 <= k < |keys| ==> KeyChar(keys[k]).Some?
  }

  /** Typing at the end of the text appends; the offset grows by at most one per key. */
  lemma {:induction false} TypeAtEnd(tb: TextBox, keys: seq<int>)
    requires tb.cursor == |tb.value| && CharKeys(keys) && |tb.value| + |keys| <= tb.maxlength
    ensures Type(tb, keys).cursor == |Type(tb, keys).value| == |tb.value| + |keys|
    ensures tb.offset <= Type(tb, keys).offset <= tb.offset + |keys|
    ensures Type(tb, keys).value[..|tb.value|] == tb.value
    ensures Type(tb, keys).maxlength == tb.maxlength
    decreases |keys|
  {
    if keys != [] {
      var next := KeyDown(tb, keys[0]);
      assert next == Insert(tb, KeyChar(keys[0]).value);
      assert CharKeys(keys[1..]) by {
        forall k | 0 <= k < |keys[1..]| ensures KeyChar(keys[1..][k]).Some? {
          assert keys[1..][k] == keys[k + 1];
        }
      }
      TypeAtEnd(next, keys[1..]);
      assert next.value[..|tb.value|] == tb.value;
      assert Type(tb, keys).value[..|tb.value|] == Type(next, keys[1..]).value[..|next.value|][..|tb.value|];
    }
  }

  /** Backspace at the end of the text removes the last characters one by one. */
  lemma {:induction false} EraseAtEnd(tb: TextBox, n: nat)
    requires tb.cursor == |tb.value| && n <= |tb.value| && tb.offset >= 0
    ensures Erase(tb, n).value == tb.value[..|tb.value| - n]
    ensures Erase(tb, n).cursor == |tb.value| - n
    ensures Erase(tb, n).offset == Max(tb.offset - n, 0)
    decreases n
  {
    if n > 0 {
      var next := KeyDown(tb, KBackspace);
      assert next == Backspace(tb);
      assert next.value == tb.value[..|tb.value| - 1];
      EraseAtEnd(next, n - 1);
      assert next.value[..|next.value| - (n - 1)] == tb.value[..|tb.value| - n];
    }
  }

  /** Typing N characters into an empty box and pressing backspace N times restores the empty box. */
  lemma TypeThenEraseRestores(maxlength: int, maxchars: int, keys: seq<int>)
    requires CharKeys(keys) && |keys| <= maxlength
    ensures Erase(Type(TextBox("", 0, 0, maxlength, maxchars), keys), |keys|) == TextBox("", 0, 0, maxlength, maxchars)
  {
    var tb := TextBox("", 0, 0, maxlength, maxchars);
    TypeAtEnd(tb, keys);
    var typed := Type(tb, keys);
    EraseAtEnd(typed, |keys|);
    EraseKeepsLimits(typed, |keys|);
    TypeKeepsLimits(tb, keys);
  }

  lemma {:induction false} TypeKeepsLimits(tb: TextBox, keys: seq<int>)
    ensures Type(tb, keys).maxlength == tb.maxlength && Type(tb, keys).maxchars == tb.maxchars
    decreases |keys|
  {
    if keys != [] {
      TypeKeepsLimits(KeyDown(tb, keys[0]), keys[1..]);
    }
  }

  lemma {:induction false} EraseKeepsLimits(tb: TextBox, n: nat)
    ensures Erase(tb, n).maxlength == tb.maxlength && Erase(tb, n).maxchars == tb.maxchars
    decreases n
  {
    if n > 0 {
      EraseKeepsLimits(KeyDown(tb, KBackspace), n - 1);
    }
  }
}
