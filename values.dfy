/**
 * The value rules of the value-mapping widgets: the scroll wheels' step, the
 * scroll bars' pointer-to-value mapping, the selector's selection and offset
 * clamps, and the check box and thumb setters.
 */
module Values {
  import opened Wrappers
  import opened PyMath

  /**
   * Scroll wheel `mouse_up`: `rel` is the pointer's distance from the wheel's
   * top (left) edge and `length` its height (width). The near half steps down,
   * the far half steps up, clamped to [0, maximum].
   */
  function WheelStep(value: int, maximum: int, rel: int, length: int): (r: int)
    ensures rel < length / 2 ==> 0 <= r <= Max(value, 0)
    ensures rel >= length / 2 ==> Min(value, maximum) <= r <= maximum
  {
    if rel < length / 2 then Max(0, value - 1) else Min(maximum, value + 1)
  }

  /** A wheel value in [0, maximum] stays there and moves by exactly one towards the clicked half unless it is at that end. */
  lemma WheelStaysInRange(value: int, maximum: int, rel: int, length: int)
    requires 0 <= value <= maximum
    ensures 0 <= WheelStep(value, maximum, rel, length) <= maximum
    ensures rel < length / 2 ==> WheelStep(value, maximum, rel, length) == if value == 0 then 0 else value - 1
    ensures rel >= length / 2 ==> WheelStep(value, maximum, rel, length) == if value == maximum then maximum else value + 1
  {
  }

  /**
   * Scroll bar `mouse_up`: the pointer coordinate `pointer` on a bar that
   * starts at `origin` and is `length` long with a thumb of `thumb`, mapped
   * onto [0, maximum]. `None` is the ZeroDivisionError raised when the
   * thumb fills the bar.
   */
  function BarValue(pointer: int, origin: int, length: int, thumb: int, maximum: int): (r: Option<int>)
    ensures r.None? <==> length == thumb
    ensures r.Some? ==> 0 <= r.value <= Max(maximum, 0)
  {
    if length == thumb then None
    else Some(Max(Min(FloorDiv((pointer - origin - thumb / 2) * maximum, length - thumb), maximum), 0))
  }

  /** With the thumb centred on either end of the track the bar reads 0 and `maximum`. */
  lemma BarEnds(origin: int, length: int, thumb: int, maximum: int)
    requires length > thumb && maximum >= 0
    ensures BarValue(origin + thumb / 2, origin, length, thumb, maximum) == Some(0)
    ensures BarValue(origin + thumb / 2 + (length - thumb), origin, length, thumb, maximum) == Some(maximum)
  {
    var track := length - thumb;
    FloorDivUnique(0, track, 0);
    FloorDivUnique(track * maximum, track, maximum);
  }

  /** Dragging further along the track never lowers the value. */
  lemma BarMonotone(p: int, q: int, origin: int, length: int, thumb: int, maximum: int)
    requires p <= q && length > thumb && maximum >= 0
    ensures BarValue(p, origin, length, thumb, maximum).value <= BarValue(q, origin, length, thumb, maximum).value
  {
    var h := thumb / 2;
    var a := (p - origin - h) * maximum;
    var b := (q - origin - h) * maximum;
    assert a <= b by {
      MulMono(p - origin - h, q - origin - h, maximum);
    }
    FloorDivMono(a, b, length - thumb);
  }

  lemma FloorDivMono(a: int, b: int, d: int)
    requires a <= b && d > 0
    ensures FloorDiv(a, d) <= FloorDiv(b, d)
  {
    var qa := FloorDiv(a, d);
    var qb := FloorDiv(b, d);
    if qa > qb {
      MulMono(qb + 1, qa, d);
      MulPred(qb + 1, d);
    }
  }

  /** A bar of maximum 100 whose track is 200 pixels past a 30-pixel thumb. */
  lemma BarExample()
    ensures BarValue(15, 0, 230, 30, 100) == Some(0)
    ensures BarValue(215, 0, 230, 30, 100) == Some(100)
    ensures BarValue(115, 0, 230, 30, 100) == Some(50)
    ensures BarValue(0, 0, 30, 30, 100) == None
    ensures BarValue(0, 0, 10, 30, 100) == Some(75) && BarValue(10, 0, 10, 30, 100) == Some(25)
  {
  }

  /** `PCheckBox.toggle`: with no argument it flips, otherwise it sets. */
  function Toggle(checked: bool, value: Option<bool>): (r: bool)
    ensures value.None? ==> r != checked
    ensures value.Some? ==> r == value.value
  {
    match value
    case None => !checked
    case Some(b) => b
  }

  /** `set_thumb`: the thumb length clamped to [1, extent of the bar]. */
  function SetThumb(value: int, extent: int): (t: int)
    ensures t >= 1
    ensures extent >= 1 ==> t <= extent
    ensures 1 <= value <= extent ==> t == value
  {
    Max(Min(value, extent), 1)
  }

  /** A selector: its options, the visible row selected, the first visible option and the number of rows. */
  datatype Selector = Selector(options: seq<string>, selection: int, offset: int, rows: int)

  /** A new selector holds `rows` empty options (none when `rows` is not positive). */
  function NewSelector(rows: int): (s: Selector)
    ensures |s.options| == Max(rows, 0) && s.selection == 0 && s.offset == 0 && s.rows == rows
    ensures forall i :: 0 <= i < |s.options| ==> s.options[i] == ""
  {
    Selector(seq(Max(rows, 0), _ => ""), 0, 0, rows)
  }

  /** `mouse_up` of a focused selector: `rel` is the pointer's distance below its top edge. */
  function Pick(s: Selector, rel: int, fs: int): (r: Selector)
    requires fs > 0
    ensures r == s.(selection := r.selection)
    ensures s.rows >= 1 ==> 0 <= r.selection < s.rows
  {
    s.(selection := Min(Max((rel - 2) / fs, 0), s.rows - 1))
  }

  /** A click inside visible row k selects row k. */
  lemma PickRow(s: Selector, rel: int, fs: int, k: int)
    requires fs > 0 && 0 <= k < s.rows
    requires 2 + k * fs <= rel < 2 + (k + 1) * fs
    ensures Pick(s, rel, fs).selection == k
  {
    MulPred(k + 1, fs);
    FloorDivUnique(rel - 2, fs, k);
    assert (rel - 2) / fs == FloorDiv(rel - 2, fs);
  }

  function ScrollUp(s: Selector): (r: Selector)
    ensures r == s.(offset := r.offset)
    ensures r.offset >= 0
    ensures s.offset >= 1 ==> r.offset == s.offset - 1
  {
    s.(offset := Max(0, s.offset - 1))
  }

  function ScrollDown(s: Selector): (r: Selector)
    ensures r == s.(offset := r.offset)
    ensures r.offset <= |s.options| - s.rows
    ensures s.offset < |s.options| - s.rows ==> r.offset == s.offset + 1
  {
    s.(offset := Min(|s.options| - s.rows, s.offset + 1))
  }

  function ScrollTo(s: Selector, option: int): (r: Selector)
    ensures r == s.(offset := r.offset)
    ensures r.offset <= |s.options| - s.rows
    ensures |s.options| >= s.rows ==> r.offset >= 0
    ensures 0 <= option <= |s.options| - s.rows ==> r.offset == option
  {
    s.(offset := Min(Max(option, 0), |s.options| - s.rows))
  }

  /** `add_option` inserts the new option first. */
  function AddOption(s: Selector, value: string): (r: Selector)
    ensures r == s.(options := r.options)
    ensures |r.options| == |s.options| + 1 && r.options[0] == value && r.options[1..] == s.options
  {
    s.(options := [value] + s.options)
  }

  /** `get_value`: the selected option; `None` stands for the IndexError. */
  function GetValue(s: Selector): (r: Option<string>)
    ensures r.None? <==> !(-|s.options| <= s.offset + s.selection < |s.options|)
    ensures 0 <= s.offset + s.selection < |s.options| ==> r == Some(s.options[s.offset + s.selection])
  {
    At(s.options, s.offset + s.selection)
  }

  /** The window of visible rows lies within the options and the selection within the window. */
  predicate SelectorOk(s: Selector)
  {
    s.rows >= 1 && |s.options| >= s.rows && 0 <= s.offset <= |s.options| - s.rows && 0 <= s.selection < s.rows
  }

  /** The state kept by every selector operation, and under it `get_value` never fails. */
  lemma SelectorOkKept(s: Selector, rel: int, fs: int, option: int, value: string)
    requires SelectorOk(s) && fs > 0
    ensures SelectorOk(Pick(s, rel, fs)) && SelectorOk(ScrollUp(s)) && SelectorOk(ScrollDown(s))
    ensures SelectorOk(ScrollTo(s, option)) && SelectorOk(AddOption(s, value))
    ensures GetValue(s) == Some(s.options[s.offset + s.selection])
  {
  }

  lemma NewSelectorOk(rows: int)
    requires rows >= 1
    ensures SelectorOk(NewSelector(rows)) && GetValue(NewSelector(rows)) == Some("")
  {
  }
}
