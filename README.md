# PWidget core in Dafny

PWidget is a small widget toolkit for pygame, written in Python 2. This
project models the part of it that does not draw:

- the linear layout of panels: `add_component`, `adjust_children` and `adjust_parent`;
- hit-testing and event routing through panels and scroll panels;
- the window's single focus and how each event type is dispatched;
- the state changes of buttons, check boxes, selectors, scroll wheels, scroll bars and text boxes;
- paragraph line wrapping;
- scroll panel geometry;
- font spacing and the glyph table;
- the glyph placement rule of `pdrawstring`.

Python 2 `/` on integers is floor division. `PyMath.FloorDiv` models it for
any non-zero divisor. Slices with negative or out-of-range bounds follow
Python's rules through `PyMath.SliceBound`.

Layout:

- Pure modules: `PyMath`, `Font`, `DrawString`, `Values`, `TextBoxes`,
  `Paragraph`, `Geometry` and `Widgets`. They hold the formulas and the
  per-widget state changes. `DrawString.Draw` and `Paragraph.Layout` keep
  the source's loops as methods.
- `Arenas`: the component tree as an arena indexed by `Id`. Each component
  has a parent, a child list and a structural shape. Ghost ranks make the
  tree acyclic, which also bounds every recursion over it.
- `Layout`: what `adjust_children` and `adjust_parent` compute, as
  functions over the arena and the rectangles.
- `Routing`: the route a mouse event takes down the tree.
- `Events`: what each event does, as functions over values.
- `Gui.Window`: the window as a class. Its components' rectangles, kinds,
  parents and child lists are sequence fields that its methods update in
  place. Beside them the class holds the focus, the callback log and the
  window callbacks. Each method is proved against the matching function in
  `Layout` or `Events`.

Callbacks are opaque tags. Running a user callback appends an `Invocation`
(tag and source component) to the window's `log`. A scroll panel's
`action_scroll_v` and `action_scroll_h` are the `ScrollV`/`ScrollH`
actions, and running one sets that panel's offset. The pointer position
that the scroll bars read with `pygame.mouse.get_pos()` is passed as the
parameters `px`, `py`.

## Model

| member | source | states |
|---|---|---|
| PyMath.FloorDiv | pwidget/pgui.py:210 | Python 2 integer division: the quotient is the floor for either sign of the divisor |
| PyMath.SliceBound | pwidget/pgui.py:503-504 | a Python slice bound: negative bounds count from the end, and out-of-range bounds clamp to 0 or the length |
| PyMath.At | pwidget/pgui.py:383-384 | Python indexing: defined exactly for -len <= i < len, and a negative index counts from the end |
| PyMath.TakeDrop | pwidget/pgui.py:503-504 | `s[:i] + s[i:]` is `s` for every integer `i` |
| Font.Spacing | pwidget/pgui.py:813 | `fontspacing = min(max(1, fontsize / 10), 10)`: always in [1, 10], 1 below size 20, 10 from size 100, otherwise the tenth of the size |
| Font.Advance | pwidget/pgui.py:813 | one glyph step, size plus spacing, is more than the size and at most the size plus 10 |
| Font.Lower | pwidget/pgui.py:867 | `lower()` maps A-Z to a-z and keeps every other character |
| Font.TileOfLower | pwidget/pgui.py:815-864 | the table's entry for a lower-case character is one of the 49 tiles of the sheet |
| Font.Tile | pwidget/pgui.py:866-867 | `get_char` looks the lower case up in the table, so every character, listed or not, draws one of the sheet's tiles |
| Font.TileSheet | pwidget/pgui.py:815-867 | a character whose lower case is in the supported string `abc…xyz1234567890+-/[]:.,# '?!` draws the tile at its position there; ' ' and '_' share tile 45; every other character falls back to the '?' tile 47; letters in either case give 0-25 and '1'-'9' give 26-34 |
| Font.InSheet | pwidget/pgui.py:815-864 | each character of the supported string is mapped to the tile at its own position in that string |
| Font.OutsideSheet | pwidget/pgui.py:866-867 | a lower-case character missing from the table, '_' apart, gets the default of `dict.get`, the '?' tile |
| Font.NamedTiles | pwidget/pgui.py:815-864 | a-z are tiles 0-25, 1-9 are 26-34, ' ' and '_' are 45, and '?' is 47 |
| Font.TileIgnoresCase | pwidget/pgui.py:867 | an upper-case letter draws the same tile as its lower case |
| DrawString.FitCount | pwidget/drawing/pdrawstring.py:8-12 | the number of glyphs drawn: every glyph before it fits under `maxwidth`, and the next one, if any, does not |
| DrawString.Draw | pwidget/drawing/pdrawstring.py:7-12 | the loop emits exactly the first `FitCount` characters, in order, glyph i at `x + i*fs + i*sp` with y unchanged |
| DrawString.GlyphX | pwidget/drawing/pdrawstring.py:10 | glyph i's left edge, `x + i*fs + i*sp`; its one-advance step is proved in `DrawString.GlyphXStep` |
| DrawString.Fits | pwidget/drawing/pdrawstring.py:9 | the loop's test: glyph i's right edge lies strictly left of `maxwidth`; that it holds for a prefix is proved in `DrawString.FitsBelow` |
| DrawString.GlyphXStep | pwidget/drawing/pdrawstring.py:9-10 | consecutive glyphs are one advance (size plus spacing) apart |
| DrawString.FitsBelow | pwidget/drawing/pdrawstring.py:9 | if a glyph fits, every earlier glyph fits too, so the drawn glyphs are a prefix |
| DrawString.AllFit | pwidget/drawing/pdrawstring.py:8-12 | when the last glyph fits, every character is drawn |
| DrawString.DefaultDrawsAll | pwidget/drawing/pdrawstring.py:7-12 | with the default `maxwidth = 10000`, a text whose last glyph ends before 10000 is drawn in full |
| Values.WheelStep | pwidget/pgui.py:409-417 | a click on the near half never raises the value and never leaves it below 0; a click on the far half never lowers it below min(value, maximum) and never lifts it above `maximum`; also lines 454-462 |
| Values.WheelStaysInRange | pwidget/pgui.py:409-417 | a wheel's value stays in [0, maximum] and moves by exactly one toward the clicked half, clamped at the ends |
| Values.BarValue | pwidget/pgui.py:615-621 | the dragged bar value fails (division by zero) exactly when the track equals the thumb, and otherwise lies in [0, max(maximum, 0)] |
| Values.BarEnds | pwidget/pgui.py:618 | centring the thumb at the top of the track gives 0, and at the bottom gives `maximum` |
| Values.BarMonotone | pwidget/pgui.py:618 | on a track longer than the thumb and with `maximum >= 0`, dragging further along the track never gives a smaller value (a track shorter than the thumb reverses the direction, see `Values.BarExample`) |
| Values.BarExample | pwidget/pgui.py:618 | concrete values on a 230-pixel track with a 30-pixel thumb, the failure on a track as long as the thumb, and a 10-pixel track where moving the pointer down lowers the value from 75 to 25 |
| Values.Toggle | pwidget/pgui.py:333-338 | `toggle()` flips the value and `toggle(v)` sets it to `v` |
| Values.SetThumb | pwidget/pgui.py:638-639 | the thumb is at least 1, at most the bar's extent when that is positive, and the requested value when that is in range |
| Values.NewSelector | pwidget/pgui.py:347-355 | a new selector has `rows` empty options, with selection 0 and offset 0 |
| Values.Pick | pwidget/pgui.py:366-369 | only the selection changes, and it lands in [0, rows-1] |
| Values.PickRow | pwidget/pgui.py:368 | a click inside row k's band selects row k |
| Values.ScrollUp | pwidget/pgui.py:374-375 | only the offset changes; it never goes negative and otherwise drops by one |
| Values.ScrollDown | pwidget/pgui.py:377-378 | only the offset changes; it never passes `len(options) - rows` and otherwise rises by one |
| Values.ScrollTo | pwidget/pgui.py:380-381 | only the offset changes: the requested option clamped to [0, len(options) - rows] |
| Values.AddOption | pwidget/pgui.py:371-372 | the new option comes first, followed by the old ones |
| Values.GetValue | pwidget/pgui.py:383-384 | `get_value` fails (IndexError) exactly when offset plus selection is outside Python's index range of the options, and otherwise, for a non-negative index, returns the option at it |
| Values.SelectorOkKept | pwidget/pgui.py:366-384 | every selector operation keeps `get_value`'s index inside the options; `get_value` returns the option at offset plus selection |
| Values.NewSelectorOk | pwidget/pgui.py:347-355 | a new selector with at least one row is consistent, and its value is the empty string |
| TextBoxes.KeyChar | pwidget/pgui.py:501-577 | the 37 keys that insert: a-z and 0-9 insert themselves and space inserts '_'; no other key inserts |
| TextBoxes.Create | pwidget/pgui.py:478-488 | a new box is empty with cursor and offset 0; its width is the largest multiple of the advance within `max_width`, plus 2; `maxchars` characters fit inside it; its height is size + 4 + 2*spacing |
| TextBoxes.Click | pwidget/pgui.py:497-499 | a click moves only the cursor: at most the text length, and below it the character cell under the click, with no lower clamp |
| TextBoxes.Insert | pwidget/pgui.py:503-504 | insertion at the cursor; the cursor rises by one; the offset rises by one exactly when the new length exceeds `maxchars`; also lines 583-586 |
| TextBoxes.Backspace | pwidget/pgui.py:578-582 | offset and cursor step back, floored at 0; then the character at the new cursor is deleted, so the text loses exactly one character |
| TextBoxes.KeyDown | pwidget/pgui.py:501-586 | no key changes `maxlength` or `maxchars`; a box within `maxlength` stays within it; a key that neither inserts nor erases changes nothing |
| TextBoxes.KeyDownNoOp | pwidget/pgui.py:501-584 | a key with no branch, a character key on a full box, and backspace on an empty box all change nothing |
| TextBoxes.KeyDownKeepsCursorInText | pwidget/pgui.py:501-586 | once the cursor is within the text, every key keeps it there |
| TextBoxes.BackspaceAtStartDeletesFirst | pwidget/pgui.py:578-582 | backspace at cursor 0 deletes the first character and the cursor stays 0 |
| TextBoxes.ClickOnBorder | pwidget/pgui.py:499 | a click on the left border sets the cursor to -1 |
| TextBoxes.ClickInsideBox | pwidget/pgui.py:497-499 | a click inside the box never puts the cursor more than one place before the offset |
| TextBoxes.TypeAtEnd | pwidget/pgui.py:501-586 | typing at the end appends the keys' characters, keeps the cursor at the end, and grows the offset by at most one per key |
| TextBoxes.EraseAtEnd | pwidget/pgui.py:578-582 | n backspaces at the end remove the last n characters |
| TextBoxes.TypeThenEraseRestores | pwidget/pgui.py:501-586 | typing N characters into an empty box and then pressing backspace N times gives back the empty box |
| TextBoxes.TypeKeepsLimits | pwidget/pgui.py:501-586 | no key changes `maxlength` or `maxchars` |
| TextBoxes.EraseKeepsLimits | pwidget/pgui.py:578-582 | backspace changes neither `maxlength` nor `maxchars` |
| Paragraph.MaxChars | pwidget/pgui.py:210 | `max_width / (fontsize + fontspacing)`, floored; `Paragraph.MaxCharsFloor` proves that many characters fit and one more would not |
| Paragraph.MaxCharsFloor | pwidget/pgui.py:210 | `maxchars` advances fit in `max_width`, and `maxchars + 1` do not |
| Paragraph.Step | pwidget/pgui.py:214-224 | one pass of the loop: a newline flushes and is dropped, a full line is flushed and the character starts the next, any other character is appended; `Paragraph.StepConcat` proves no character other than a newline is lost |
| Paragraph.Wrap | pwidget/pgui.py:209-225 | the `linelist` of the text; its properties are the `Wrap…` lemmas below |
| Paragraph.Scan | pwidget/pgui.py:213-225 | the scan always appends the line in progress, so it produces at least one line |
| Paragraph.Layout | pwidget/pgui.py:209-227 | the wrapping loop produces `Wrap(value, maxchars)`; the height is lines·advance − spacing; the width counts the widest line, the last one included |
| Paragraph.WrapConcat | pwidget/pgui.py:213-225 | the lines joined together are the text with its newlines removed |
| Paragraph.WrapBound | pwidget/pgui.py:218-221 | no line is longer than max(maxchars, 1) |
| Paragraph.WrapCount | pwidget/pgui.py:214-225 | there is at least one line more than there are newlines |
| Paragraph.ScanLines | pwidget/pgui.py:213-225 | lines already flushed are kept in front, untouched, by the rest of the scan |
| Paragraph.ScanNewline | pwidget/pgui.py:214-217 | a newline in the rest of the text splits the scan: the part before it ends its line, and the part after starts afresh as a paragraph of its own |
| Paragraph.WrapHonoursNewline | pwidget/pgui.py:214-217 | for every a, b and maxchars, wrapping `a + "\n" + b` gives the lines of a followed by the lines of b |
| Paragraph.ScanFull | pwidget/pgui.py:218-225 | on newline-free text with maxchars >= 1, every flushed line is exactly `maxchars` long and the last line is non-empty if anything was scanned |
| Paragraph.WrapSplitsLongLine | pwidget/pgui.py:218-225 | for every newline-free text and maxchars >= 1, all lines but the last hold exactly `maxchars` characters, and the last one is non-empty when the text is |
| Paragraph.LinesFitWidth | pwidget/pgui.py:226-232 | every line, drawn from x = 0, ends inside the corrected width |
| Paragraph.RowsFitHeight | pwidget/pgui.py:227-232 | row k, drawn at y = k·advance, ends inside the height |
| Paragraph.WidthAsWritten | pwidget/pgui.py:213-226 | the width `paint_surface` computes, from every line but the last; `Paragraph.WidthAsWrittenBelowLayout` bounds it |
| Paragraph.WidthAsWrittenBelowLayout | pwidget/pgui.py:213-226 | the width as written is at least −spacing and never more than the corrected width `Paragraph.Layout` gives |
| Paragraph.TenChars | pwidget/pgui.py:210 | a `max_width` of ten advances holds exactly ten characters |
| Paragraph.WrapHi | pwidget/pgui.py:213-225 | "hi" with ten characters a line is one line, the input of the finding below |
| Paragraph.WidthAsWrittenIgnoresLastLine | pwidget/pgui.py:213-226 | as written, a one-line paragraph gets width −spacing, narrower than its own text |
| Geometry.Contains | pwidget/pgui.py:45-46 | `contains_point`, edges included; only a rectangle with non-negative width and height contains any point |
| Geometry.ContainsIsInclusive | pwidget/pgui.py:45-46 | all four corners are inside, and the points one pixel beyond are not |
| Geometry.FirstHit | pwidget/pgui.py:87-98 | the index of the first rectangle in list order that contains the point, or none if no rectangle does |
| Geometry.MaxCrossBounds | pwidget/pgui.py:119-141 | the cross-axis maximum bounds every child's cross size and is one of them, or 0 |
| Geometry.StackContiguous | pwidget/pgui.py:100-114 | each stacked child starts where the previous child ends |
| Geometry.StackOrdered | pwidget/pgui.py:100-114 | with non-negative sizes, a later child never starts before an earlier one ends |
| Geometry.StackEnd | pwidget/pgui.py:100-114 | the stack ends at the origin plus the summed main sizes |
| Geometry.Grown | pwidget/pgui.py:143-170 | the size `add_component` leaves after adding the children one by one; its cross size bounds every child's |
| Geometry.GrownIsRecomputed | pwidget/pgui.py:119-174 | when no child has a negative cross size, growing a panel child by child, as `add_component` does, gives the size `adjust_parent` recomputes from all children (an empty label is −spacing wide and breaks this, see `Widgets.EmptyLabelWidth`) |
| Geometry.Place | pwidget/pgui.py:143-170 | one `add_component` placement: the child keeps its size and the panel keeps its origin |
| Geometry.PlaceMoves | pwidget/pgui.py:143-170 | placement keeps the child's size and the panel's origin; the first child goes to the origin, a later child right after the last one, aligned on its cross edge |
| Geometry.PlaceExtendsStack | pwidget/pgui.py:143-174 | placing a child on a stacked panel keeps it stacked and keeps its size equal to the grown size |
| Geometry.PlaceGrows | pwidget/pgui.py:148-168 | the panel's main size grows by the child's size, and its cross size becomes the maximum (the child's, for a first child) |
| Geometry.PlaceStacks | pwidget/pgui.py:152-166 | the placed child starts where the stack of earlier children ends |
| Widgets.WithAction | pwidget/pgui.py:290-291 | `add_action` appends the callback after the earlier ones and changes nothing else |
| Widgets.LeafUp | pwidget/pgui.py:278-282 | an unfocused leaf ignores `mouse_up`; a focused button, check box, selector or wheel always commits; covers the selector (366-369), wheels (409-417, 454-462) and bars (615-621, 665-671) too |
| Widgets.LeafUpKeepsRange | pwidget/pgui.py:409-417 | a committed wheel or bar value stays in [0, maximum]; also lines 615-621 |
| Widgets.RunAction | pwidget/pgui.py:759-763 | a user callback changes no component; `action_scroll_v`/`_h` sets only its panel's y/x offset to the bar's value |
| Widgets.FireKinds | pwidget/pgui.py:280-281 | the components after the callbacks run in order, one entry for each component; also lines 759-763 |
| Widgets.FireLog | pwidget/pgui.py:280-281 | the user-callback log of one component's callbacks: at most one entry per callback, each naming that component |
| Widgets.FireKeepsShapes | pwidget/pgui.py:280-281 | running callbacks changes no component's shape, and changes only scroll panels |
| Widgets.FireLogInOrder | pwidget/pgui.py:280-281 | each user callback runs exactly once, in registration order, with the source component |
| Widgets.FireLogSkipsScroll | pwidget/pgui.py:776-789 | the registered scroll actions add nothing to the user-callback log |
| Widgets.Build | pwidget/pgui.py:79-82 | each constructor yields a component at (0, 0) with no callbacks and a zero value; a paragraph gets the corrected size of `Paragraph.Layout`; also lines 181-186, 203-227, 244-258, 262-268, 298-307, 347-355, 392-397, 478-488, 596-602 |
| Widgets.EmptyLabelWidth | pwidget/pgui.py:185 | an empty label is −spacing wide; as a vertical panel's first child it leaves `add_component`'s width at −spacing, where `adjust_parent` recomputes 0; also lines 126, 151 |
| Widgets.LabelFitsText | pwidget/pgui.py:185-189 | for non-empty text, a label is exactly as wide as its text drawn from its x |
| Widgets.ButtonCentresText | pwidget/pgui.py:262-273 | a button's text leaves the same margin at the right and the bottom as at the left and the top |
| Widgets.CheckBoxFitsLabel | pwidget/pgui.py:298-305 | a labelled check box ends where its label ends |
| Widgets.SelectorRowsFit | pwidget/pgui.py:348-361 | each of a selector's rows ends at least two pixels above its bottom edge |
| Widgets.TextBoxShowsMaxChars | pwidget/pgui.py:485-495 | the `maxchars` characters shown end at least four pixels inside the box |
| Widgets.ScrollFit | pwidget/pgui.py:770-797 | a bar once on stays on, and a bar that is off keeps its rectangle and its maximum |
| Widgets.ScrollFitBounds | pwidget/pgui.py:765-797 | the viewport never exceeds its maximum, and equals the content size on an axis that fits |
| Widgets.ScrollFitLatches | pwidget/pgui.py:772-789 | a bar turns on when the content overflows it and then stays on; the scroll action is registered only on the add that turns it on |
| Widgets.ScrollFitBars | pwidget/pgui.py:778-797 | a shown bar is 15 thick, sits on the viewport's edge, and has the overflow as its maximum |
| Arenas.AppendedWf | pwidget/pgui.py:15-22 | a new detached component keeps the tree well formed |
| Arenas.AppendedScrollWf | pwidget/pgui.py:697-719 | a new scroll panel with its main panel and two bars keeps the tree well formed |
| Arenas.AttachedWf | pwidget/pgui.py:143-172 | attaching a detached component that does not contain the panel keeps the tree well formed (acyclic, links consistent) |
| Layout.Rects | pwidget/pgui.py:104-111 | the children's rectangles, in list order |
| Layout.Stack | pwidget/pgui.py:102-114 | stacking keeps every rectangle's size |
| Layout.StackSizes | pwidget/pgui.py:102-114 | every rectangle keeps its width and height through the stacking loop |
| Layout.Fitted | pwidget/pgui.py:419-420 | a wheel or bar takes its parent's height (vertical) or width (horizontal); nothing else changes; also lines 464-465, 623-624, 673-674 |
| Layout.ScrollAdjusted | pwidget/pgui.py:749-757 | shown bars go to the right and bottom edges and the main panel to the origin; no size changes, and nothing else moves |
| Layout.Resized | pwidget/pgui.py:119-141 | the parent keeps its origin; its main size is the sum of its children's and its cross size their maximum |
| Layout.Adjusted | pwidget/pgui.py:100-117 | `adjust_children` of a panel as a function of the rectangles, one for each component; what it places is stated by `Layout.AdjustedPlaces`, `Layout.AdjustedSizes` and `Layout.AdjustedFrame` |
| Layout.Kids | pwidget/pgui.py:116-117 | the first i children's `adjust_children` applied in order, one rectangle for each component; `Layout.KidsSettle` states what it does |
| Layout.ChildAdjust | pwidget/pgui.py:116-117 | one child's `adjust_children`, one rectangle for each component; `Layout.ChildAdjustByKind` states it per kind |
| Layout.StackAt | pwidget/pgui.py:102-114 | stacking distinct children moves exactly those, each to its stacked start along the axis and to the panel's edge across it |
| Layout.AdjustedFrame | pwidget/pgui.py:100-117 | `adjust_children` changes nothing outside the panel's own tree |
| Layout.Apart | pwidget/pgui.py:116-117 | two children of one panel lie in disjoint trees, and the panel lies in neither |
| Layout.Stretched | pwidget/pgui.py:102-117 | a direct child after its panel's layout: at its stacked place, stretched across the panel when it is a wheel or bar |
| Layout.KidsSettle | pwidget/pgui.py:116-117 | after the first i children adjusted their trees, those children are placed and stretched, and the panel and the later children are untouched |
| Layout.AdjustedPlaces | pwidget/pgui.py:100-117 | `adjust_children`: the panel keeps its rectangle; child k starts at the panel's origin plus the sizes of children 0..k-1, aligned on the panel's cross edge |
| Layout.AdjustedSizes | pwidget/pgui.py:100-117 | layout resizes no panel and nothing other than wheels and bars; also lines 419-420, 464-465, 623-624, 673-674 |
| Layout.ParentAdjusted | pwidget/pgui.py:119-141 | every container up the chain is resized; at the top the layout runs down again |
| Layout.ParentAdjustedKeepsSize | pwidget/pgui.py:119-141 | the panel `adjust_parent` starts from keeps its own size |
| Layout.ParentFitsChildren | pwidget/pgui.py:119-141 | after `adjust_parent` from a child, the parent's main size is the sum of its children's sizes and its cross size is their maximum |
| Layout.ChildrenOf | pwidget/pgui.py:104 | a panel's children are distinct components other than the panel itself; also lines 171-172 |
| Layout.Joined | pwidget/pgui.py:145-168 | only the child and the panel move or grow |
| Layout.ChildAdjustByKind | pwidget/pgui.py:116-117 | a child is a component below its panel, and its `adjust_children` is the one its kind defines: a panel lays out its tree, a wheel or bar fits to the panel, a scroll panel places its parts, anything else changes nothing |
| Routing.Next | pwidget/pgui.py:87-98 | the next hop is a child (or part) of the component, contains the point, and exists only from a panel or a scroll panel; a scroll panel tries its vertical bar, then its horizontal bar, then its main panel, and the main panel gets the point shifted by the offset minus the scroll panel's origin; also lines 733-747 |
| Routing.Route | pwidget/pgui.py:87-98 | a route starts at the receiving component, and every hop before the last is a container; also lines 733-747 |
| Routing.RouteDescends | pwidget/pgui.py:87-98 | each hop is inside the previous hop's component and contains the point that component received; also lines 733-747 |
| Routing.RouteTakesFirstChild | pwidget/pgui.py:87-98 | a panel delivers to the first child under the point, and to none exactly when no child contains it |
| Routing.LastClaimant | pwidget/pgui.py:88 | the last component on the route that takes the focus, with none claiming after it; also line 276 |
| Routing.Claims | pwidget/pgui.py:88 | panels, buttons, check boxes, selectors, wheels, text boxes and bars call `set_focus` in `mouse_down`; labels, paragraphs, struts and scroll panels do not; also lines 276, 320-321, 363-364, 406-407, 497, 612-613 |
| Routing.Claimed | pwidget/pgui.py:87-92 | the focus after the route: the old focus, or a component of the route that claims it |
| Routing.ClaimedIsLastClaimant | pwidget/pgui.py:87-92 | after `mouse_down` the focus is the deepest claimant on the route, or the old focus when no hop claims it; also lines 970-971 |
| Routing.Pressed | pwidget/pgui.py:497-499 | only a text box at the route's end changes, and it keeps its shape |
| Routing.Released | pwidget/pgui.py:94-98 | `mouse_up` reaches the end of the route; a component there that is not the focus ignores it, and only a bar can raise; also lines 278-282 |
| Routing.FindHit | pwidget/pgui.py:89-92 | the loop over the children finds the first rectangle that contains the point |
| Events.Down | pwidget/pgui.py:87-92 | a press fires nothing, raises nothing, keeps every shape, and leaves the focus on a component; also lines 733-739 |
| Events.Up | pwidget/pgui.py:94-98 | a release either leaves everything unchanged or clears the focus, and then only the focus at the route's end reacts; a raise comes only from a focused bar and changes nothing; also lines 278-282, 741-747 |
| Events.Key | pwidget/pgui.py:993-995 | keys change only a focused text box; with no focus they change nothing; also lines 501-502 |
| Events.Dispatch | pwidget/pgui.py:985-998 | an event step keeps every shape and leaves the focus on a component |
| Events.DownStep | pwidget/pgui.py:87-92 | passing the press on is the same as handling it at the next hop, with the focus taken first if this component claims it; also lines 733-739 |
| Events.DownStops | pwidget/pgui.py:88 | where the press stops, the component takes the focus if it claims it, and a text box takes the click; also lines 276, 497-499 |
| Events.UpStep | pwidget/pgui.py:94-98 | passing the release on is the same as handling it at the next hop; also lines 741-747 |
| Events.DownFocusesDeepest | pwidget/pgui.py:87-92 | the focus after a press is the deepest claimant under the point; also lines 970-971 |
| Events.ReleaseWithoutFocus | pwidget/pgui.py:989-992 | a release with no focus changes nothing |
| Events.ReleaseFiresFocusOnly | pwidget/pgui.py:989-992 | a release runs the callbacks of the focused component and of no other, once each, in order, and clears the focus; also lines 278-282 |
| Events.FocusedButtonFiresOnce | pwidget/pgui.py:278-282 | a release with a button focused, wherever it happens, fires that button's callbacks exactly once, clears the focus and raises nothing; also lines 989-992 |
| Events.ClickFiresButton | pwidget/pgui.py:275-282 | pressing on a button gives it the focus, and the next release anywhere fires its callbacks once; also lines 985-992 |
| Events.PressFocusesButton | pwidget/pgui.py:275-276 | a press whose route ends on a button gives that button the focus and leaves its kind unchanged; also lines 87-92 |
| Gui.ScrollKinds | pwidget/pgui.py:697-719 | a scroll panel, its main panel with the given orientation, and two bars |
| Gui.ScrollAdded | pwidget/pgui.py:770-797 | the scroll panel fitted to its content; only the scroll panel and its two bars change, and no shape changes |
| Gui.Window.constructor | pwidget/pgui.py:943-951 | an empty main panel at the origin, no focus, no callbacks |
| Gui.Window.Create | pwidget/pgui.py:15-22 | a new detached component with its constructor's kind and rectangle, as `Widgets.Build` gives them |
| Gui.Window.CreateScrollPanel | pwidget/pgui.py:697-719 | a new scroll panel followed by its main panel and its two bars. All four have zero size; the bars sit at (-50, -50). None of them has a parent |
| Gui.Window.AdjustChildren | pwidget/pgui.py:100-117 | the rectangles become `Layout.Adjusted` of the old ones |
| Gui.Window.AdjustKids | pwidget/pgui.py:116-117 | the loop over the children adjusts each child's own tree in turn, as `Layout.Kids` says |
| Gui.Window.StackChildren | pwidget/pgui.py:102-114 | the stacking loop leaves the rectangles at `Layout.Stack` |
| Gui.Window.AdjustChild | pwidget/pgui.py:116-117 | one child's `adjust_children`, dispatched on its kind, as `Layout.ChildAdjust`; also lines 419-420, 464-465, 623-624, 673-674, 749-757 |
| Gui.Window.FitToParent | pwidget/pgui.py:419-420 | the wheel or bar takes its parent's height or width and nothing else changes, as `Layout.Fitted`; also lines 464-465, 623-624, 673-674 |
| Gui.Window.AdjustScroll | pwidget/pgui.py:749-757 | `PScrollPanel.adjust_children` in place, as `Layout.ScrollAdjusted` |
| Gui.Window.PlaceScrollParts | pwidget/pgui.py:749-757 | the bars and the main panel move to their places in the scroll panel, as `Layout.ScrollAdjusted` |
| Gui.Window.AdjustParent | pwidget/pgui.py:119-141 | the rectangles become `Layout.ParentAdjusted` of the old ones |
| Gui.Window.FitToChildren | pwidget/pgui.py:120-137 | only the parent is resized, to the sum and the maximum of its children's sizes |
| Gui.Window.Measure | pwidget/pgui.py:122-135 | the summing loop returns the children's summed main size and their largest cross size |
| Gui.Window.AddComponent | pwidget/pgui.py:143-174 | adding a panel to itself exits with nothing changed; otherwise the child is placed and becomes the last child, and the layout is `adjust_parent` applied to the placed rectangles |
| Gui.Window.PlaceAfter | pwidget/pgui.py:145-168 | the child goes after the last child and the panel grows, as `Layout.Joined` |
| Gui.Window.ScrollAdd | pwidget/pgui.py:765-797 | the child goes into the main panel, then the scroll panel and its bars are fitted as `ScrollAdded` says |
| Gui.Window.FitScroll | pwidget/pgui.py:770-797 | the scroll panel and its bars become what `ScrollAdded` gives, and the tree is unchanged |
| Gui.Window.NextHop | pwidget/pgui.py:89-92 | the shared dispatch code returns `Routing.Next`; also lines 734-739 |
| Gui.Window.MouseDown | pwidget/pgui.py:87-92 | kinds and focus become those of `Events.Down`; also lines 275-276, 320-321, 363-364, 406-407, 497-499, 612-613, 733-739 |
| Gui.Window.Fire | pwidget/pgui.py:280-281 | the callback loop leaves the kinds at `FireKinds` and appends `FireLog` to the log; also lines 759-763 |
| Gui.Window.MouseUp | pwidget/pgui.py:94-98 | kinds, focus, log and the raise flag become those of `Events.Up`; also lines 278-282, 323-328, 366-369, 409-417, 454-462, 615-621, 665-671, 741-747 |
| Gui.Window.Step | pwidget/pgui.py:985-998 | one event, with kinds, focus, log and raise flag as `Events.Dispatch` gives them |
| Gui.Window.Release | pwidget/pgui.py:989-992 | the release to the main panel and then to the remaining focus, as `Events.Dispatch` gives it |
| Gui.Window.KeyToFocus | pwidget/pgui.py:993-995 | the key goes to a focused text box, as `Events.Key` gives it |
| Gui.Window.AddAction | pwidget/pgui.py:290-291 | the component's kind gains the callback at the end; also lines 330-331, 422-423, 467-468, 626-627, 676-677 |
| Gui.Window.AddToWindow | pwidget/pgui.py:964-965 | the component goes into the main panel, as in `AddComponent` |
| Gui.Window.AddWindowAction | pwidget/pgui.py:967-968 | the window callback goes last |
| Gui.Window.EndFrame | pwidget/pgui.py:999-1000 | the window callbacks run once each, in the order they were added |
| Gui.Window.ToggleCheckBox | pwidget/pgui.py:333-338 | the check box's value becomes `Values.Toggle` of it |
| Gui.Window.ScrollSelectorUp | pwidget/pgui.py:374-375 | the selector becomes `Values.ScrollUp` of it |
| Gui.Window.ScrollSelectorDown | pwidget/pgui.py:377-378 | the selector becomes `Values.ScrollDown` of it |
| Gui.Window.ScrollSelectorTo | pwidget/pgui.py:380-381 | the selector becomes `Values.ScrollTo` of it |
| Gui.Window.AddSelectorOption | pwidget/pgui.py:371-372 | the selector becomes `Values.AddOption` of it |
| Gui.Window.SetBarThumb | pwidget/pgui.py:638-639 | the thumb is clamped to the bar's length along its axis; also lines 688-689 |

## Left out

- Painting: every `paint` method, pygame surfaces, fills, blits and colour keys (for example pgui.py:228-236, 703-705, 721-731, 767-769). These are calls into pygame.
- `PWindow.start`'s endless loop, the frame clock, event polling, `QUIT` and `pygame.quit`, plus `pygame.init` and `set_mode` in the constructor. These are host I/O. One event is `Gui.Window.Step` and the end of a frame is `Gui.Window.EndFrame`.
- `key_up` is empty for every component and changes nothing, so `KeyRelease` is a no-op.
- What a user callback does inside: it is an opaque tag recorded in the log. A callback that re-enters the window is not modelled.
- pwidget/drawing/ptilesheet.py is not part of this model (image loading); only PFont's character-to-tile table is.
- `PGraphicsContext` (colour getters and setters), `PWindowState`, `get_state`, `set_state` and `reset_state`. The last refers to an undefined name `orientation`, at pgui.py:957.
- The plain getters and setters (`set_x`, `get_value`, `set_value` and so on), outside the places where the modelled code uses them. `set_maximum` is modelled where `PScrollPanel.add_component` calls it.
- Gui.Window.AddComponent: requires that the child is in no container and does not contain the panel. Re-adding a child that already has a parent leaves it in its old parent's list in Python, and the arena model has one parent per component. Adding an ancestor on the panel's parent chain makes Python's `adjust_parent` recurse without end. An ancestor reached through a scroll panel's main panel ends the recursion there, since the main panel has no parent, but it leaves a cycle in the tree; that case is excluded too, as for `ScrollAdd` below.
- Gui.Window.AddToWindow: has the same requirement as `AddComponent`, for the same reasons, since it adds to the main panel.
- Gui.Window.ScrollAdd: has the same requirement. Adding a scroll panel into its own main panel terminates in Python but builds a cycle, so it is excluded.
- `ScrollPanel.add_component` does not run `adjust_parent` on the scroll panel's own container. The model does as written: the container is not resized when the scroll panel grows.
- `PScrollPanel.adjust_children` does not lay out the main panel's children. The model does the same.
- Widgets.Build: a paragraph's width is the corrected width of `Paragraph.Layout`, which counts the last line, and not the width pgui.py:213-226 computes (`Paragraph.WidthAsWritten`); see the finding below.
- Gui.Window.Create: takes the paragraph width from `Widgets.Build`, so it is the corrected width too, and so is every layout built on it.
- Orientations other than 0 and 1: the model's `Orientation` has exactly the two values, while Python silently skips both branches for any other value.
- The arena's object identity: components are `Id`s. The `sys.exit` on adding a panel to itself is the `exited` result.

## Findings

| source | as written | input that shows it | evidently intended | confidence | as-written member | corrected member |
|---|---|---|---|---|---|---|
| pwidget/pgui.py:213-226 | `width` is raised only when a line is flushed inside the loop, so the line appended after the loop never counts | a one-line text such as "hi" with `max_width = 10·(fs+sp)`: width 0·(fs+sp) − sp = −sp | the width of the widest line, the last one included | not executed | Paragraph.WidthAsWrittenIgnoresLastLine | Paragraph.Layout |

Three more things are modelled as written without a finding, because the intent is unclear:

- At pgui.py:784 the vertical bar's case widens the viewport by the horizontal bar's width. The horizontal case at 797 uses the horizontal bar's height.
- A text box click on the 2-pixel left border gives cursor −1 (pgui.py:499). The next key is then inserted before the last character, following Python's negative slices (`TextBoxes.ClickOnBorder`).
- An empty label is −spacing wide (pgui.py:185). As the first child of a vertical panel, `add_component` sets the panel's width to it (pgui.py:151), but `adjust_parent` starts its maximum from 0 (pgui.py:126) and gives 0, so the two disagree (`Widgets.EmptyLabelWidth`).
