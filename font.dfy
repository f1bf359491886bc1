/**
 * Font metrics and the character-to-tile table of PFont. The tile images
 * themselves are not modelled: a glyph is the index of its tile in the sheet.
 */
module Font {
  import opened PyMath

  /** Edge length of a square glyph tile in pixels; a tile sheet cannot be cut into tiles of size 0. */
  type FontSize = n: int | n > 0 witness 1

  /**
   * The supported characters in tile order; tile 45 is painted for both ' '
   * and '_'. Written in groups of seven so that a lookup stays shallow.
   */
  const Sheet: string := (("abcdefg" + "hijklmn") + ("opqrstu" + "vwxyz12")) + (("3456789" + "0+-/[]:") + ".,# '?!")

  /** Tile shown for characters outside the table: the one for '?'. */
  const Unknown: nat := 47

  /** Gap between glyphs: a tenth of the size, never below 1 or above 10. */
  function Spacing(fs: FontSize): (sp: int)
    ensures 1 <= sp <= 10
    ensures fs < 20 ==> sp == 1
    ensures fs >= 100 ==> sp == 10
    ensures 10 <= fs < 110 ==> sp * 10 <= fs < sp * 10 + 10
  {
    Min(Max(1, fs / 10), 10)
  }

  /** Distance from one glyph's left edge to the next one's. */
  function Advance(fs: FontSize): (a: int)
    ensures fs < a <= fs + 10
  {
    fs + Spacing(fs)
  }

  /** ASCII lower-casing, as Python 2 `str.lower` does. */
  function Lower(c: char): (l: char)
    ensures 'A' <= c <= 'Z' ==> l as int == c as int + 32
    ensures !('A' <= c <= 'Z') ==> l == c
    ensures !('A' <= l <= 'Z')
  {
    if 'A' <= c <= 'Z' then (c as int + 32) as char else c
  }

  /** Tile for a lower-case character, or `Unknown` when the table has none. */
  function TileOfLower(c: char): (t: nat)
    ensures t < |Sheet|
  {
    match c
    case 'a' => 0  case 'b' => 1  case 'c' => 2  case 'd' => 3  case 'e' => 4
    case 'f' => 5  case 'g' => 6  case 'h' => 7  case 'i' => 8  case 'j' => 9
    case 'k' => 10 case 'l' => 11 case 'm' => 12 case 'n' => 13 case 'o' => 14
    case 'p' => 15 case 'q' => 16 case 'r' => 17 case 's' => 18 case 't' => 19
    case 'u' => 20 case 'v' => 21 case 'w' => 22 case 'x' => 23 case 'y' => 24
    case 'z' => 25 case '1' => 26 case '2' => 27 case '3' => 28 case '4' => 29
    case '5' => 30 case '6' => 31 case '7' => 32 case '8' => 33 case '9' => 34
    case '0' => 35 case '+' => 36 case '-' => 37 case '/' => 38 case '[' => 39
    case ']' => 40 case ':' => 41 case '.' => 42 case ',' => 43 case '#' => 44
    case ' ' => 45 case '_' => 45 case '\'' => 46 case '?' => 47 case '!' => 48
    case _ => Unknown
  }

  /** `get_char`: the tile drawn for `c`, looked up case-insensitively. */
  function Tile(c: char): (t: nat)
    ensures t < |Sheet|
  {
    TileOfLower(Lower(c))
  }

  /**
   * The tile of a character is its lower case's position in the sheet, and
   * every character the sheet lacks, '_' apart, gets the '?' tile.
   */
  lemma TileSheet(c: char)
    ensures Lower(c) in Sheet ==> Sheet[Tile(c)] == Lower(c)
    ensures Lower(c) != '_' && Lower(c) !in Sheet ==> Tile(c) == Unknown
    ensures Lower(c) == '_' ==> Tile(c) == 45
    ensures c == ' ' ==> Tile(c) == 45
    ensures c == '?' ==> Tile(c) == Unknown
    ensures 'a' <= Lower(c) <= 'z' ==> Tile(c) == Lower(c) as int - 'a' as int
    ensures '1' <= c <= '9' ==> Tile(c) == c as int - '1' as int + 26
  {
    InSheet(Lower(c));
    OutsideSheet(Lower(c));
    NamedTiles(Lower(c));
  }

  /**
   * Letters take the first 26 tiles in alphabetical order and '1' to '9' the
   * next nine; ' ' and '_' share tile 45, and '?' is the fallback tile.
   */
  lemma NamedTiles(c: char)
    ensures 'a' <= c <= 'z' ==> TileOfLower(c) == c as int - 'a' as int
    ensures '1' <= c <= '9' ==> TileOfLower(c) == c as int - '1' as int + 26
    ensures c == ' ' || c == '_' ==> TileOfLower(c) == 45
    ensures c == '?' ==> TileOfLower(c) == Unknown
  {
  }

  /** Each character of a group of the sheet draws the tile at its own position in the sheet. */
  lemma GroupTiles0(c: char)
    requires c in "abcdefg"
    ensures Sheet[TileOfLower(c)] == c
  {
  }

  lemma GroupTiles1(c: char)
    requires c in "hijklmn"
    ensures Sheet[TileOfLower(c)] == c
  {
  }

  lemma GroupTiles2(c: char)
    requires c in "opqrstu"
    ensures Sheet[TileOfLower(c)] == c
  {
  }

  lemma GroupTiles3(c: char)
    requires c in "vwxyz12"
    ensures Sheet[TileOfLower(c)] == c
  {
  }

  lemma GroupTiles4(c: char)
    requires c in "3456789"
    ensures Sheet[TileOfLower(c)] == c
  {
  }

  lemma GroupTiles5(c: char)
    requires c in "0+-/[]:"
    ensures Sheet[TileOfLower(c)] == c
  {
  }

  lemma GroupTiles6(c: char)
    requires c in ".,# '?!"
    ensures Sheet[TileOfLower(c)] == c
  {
  }

  /** A character of the sheet draws the tile at its position in the sheet. */
  lemma InSheet(c: char)
    ensures c in Sheet ==> Sheet[TileOfLower(c)] == c
  {
    if c in Sheet {
      if c in "abcdefg" { GroupTiles0(c); }
      if c in "hijklmn" { GroupTiles1(c); }
      if c in "opqrstu" { GroupTiles2(c); }
      if c in "vwxyz12" { GroupTiles3(c); }
      if c in "3456789" { GroupTiles4(c); }
      if c in "0+-/[]:" { GroupTiles5(c); }
      if c in ".,# '?!" { GroupTiles6(c); }
    }
  }

  /** Any character missing from the sheet, '_' apart, falls back to the '?' tile. */
  lemma OutsideSheet(c: char)
    ensures c != '_' && c !in Sheet ==> TileOfLower(c) == Unknown
  {
  }

  /** Upper and lower case of a letter share one glyph. */
  lemma TileIgnoresCase(c: char)
    requires 'a' <= c <= 'z'
    ensures Tile((c as int - 32) as char) == Tile(c)
  {
    assert Lower((c as int - 32) as char) == c;
  }

}
