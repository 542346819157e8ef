/**
 * The retro box drawn around a caption: a double-line frame whose middle line centres the
 * text with Python's `str.center` rule.
 */
module Vectrex {
  import opened Strings

  /** The left share of the padding `str.center(width)` adds: half the margin, plus one more
      when both the margin and the requested width are odd. */
  function LeftShare(margin: int, width: int): int {
    margin / 2 + (if margin % 2 == 1 && width % 2 == 1 then 1 else 0)
  }

  /** `s.center(width)`: `s` unchanged when it is at least `width` long, otherwise padded with
      spaces on both sides to exactly `width`, the two sides differing by at most one. */
  function Center(s: string, width: int): (r: string)
    ensures |r| == if width > |s| then width else |s|
    ensures width <= |s| ==> r == s
    ensures width > |s| ==>
      var left := LeftShare(width - |s|, width);
      0 <= left <= width - |s|
      && r[left..left + |s|] == s
      && (forall i :: 0 <= i < left ==> r[i] == ' ')
      && (forall i :: left + |s| <= i < |r| ==> r[i] == ' ')
      && -1 <= (width - |s| - left) - left <= 1
  {
    var margin := width - |s|;
    if margin <= 0 then s
    else
      var left := LeftShare(margin, width);
      var r := Repeat(' ', left) + s + Repeat(' ', margin - left);
      assert r[left..left + |s|] == s;
      r
  }

  /** `"═" * k` between two corner characters; no bar at all when k <= 0. */
  function Bar(first: char, last: char, width: int): (r: string)
    ensures |r| == if width >= 2 then width else 2
    ensures r[0] == first && r[|r| - 1] == last
    ensures forall i :: 0 < i < |r| - 1 ==> r[i] == '═'
  {
    [first] + Repeat('═', width - 2) + [last]
  }

  function BorderTop(width: int): string {
    Bar('╔', '╗', width)
  }

  function BorderBottom(width: int): string {
    Bar('╚', '╝', width)
  }

  /** `f"║ {text.center(width - 4)} ║"`: as wide as the box, or as the text plus its frame. */
  function TextLine(text: string, width: int): (r: string)
    ensures |r| == if width >= |text| + 4 then width else |text| + 4
  {
    "║ " + Center(text, width - 4) + " ║"
  }

  /** Where the text starts in its line: after the frame and the left padding. */
  function TextOffset(text: string, width: int): nat {
    2 + (if width - 4 > |text| then LeftShare(width - 4 - |text|, width - 4) else 0)
  }

  /** The middle line is the frame, spaces, the whole text in one run, spaces, the frame. */
  lemma TextLineLayout(text: string, width: int)
    ensures var r, k := TextLine(text, width), TextOffset(text, width);
      r[..2] == "║ " && r[|r| - 2..] == " ║"
      && k + |text| <= |r| - 2 && r[k..k + |text|] == text
      && (forall i :: 2 <= i < k ==> r[i] == ' ')
      && (forall i :: k + |text| <= i < |r| - 2 ==> r[i] == ' ')
  {
    var c := Center(text, width - 4);
    if width - 4 > |text| {
      Framed(c, text, LeftShare(width - 4 - |text|, width - 4));
    } else {
      Framed(c, text, 0);
    }
  }

  lemma Framed(c: string, text: string, left: nat)
    requires left + |text| <= |c| && c[left..left + |text|] == text
    requires forall i :: 0 <= i < left ==> c[i] == ' '
    requires forall i :: left + |text| <= i < |c| ==> c[i] == ' '
    ensures var r, k := "║ " + c + " ║", left + 2;
      r[..2] == "║ " && r[|r| - 2..] == " ║"
      && k + |text| <= |r| - 2 && r[k..k + |text|] == text
      && (forall i :: 2 <= i < k ==> r[i] == ' ')
      && (forall i :: k + |text| <= i < |r| - 2 ==> r[i] == ' ')
  {
    var r, k := "║ " + c + " ║", left + 2;
    assert forall i :: 2 <= i < |r| - 2 ==> r[i] == c[i - 2];
    assert r[k..k + |text|] == c[left..left + |text|];
  }

  /** When the text fits, the box is a rectangle: all three lines are exactly `width` wide. */
  lemma BorderIsRectangular(text: string, width: int)
    requires width >= |text| + 4
    ensures |BorderTop(width)| == width && |BorderBottom(width)| == width
    ensures |TextLine(text, width)| == width
  {
  }

  /** `create_ascii_border`: the three lines joined by newlines. When the text fits, the box is
      `width` columns by three lines, with the whole text at its offset in the middle line. */
  function CreateAsciiBorder(text: string, width: int): (r: string)
    ensures |r| == |BorderTop(width)| + |TextLine(text, width)| + |BorderBottom(width)| + 2
    ensures width >= |text| + 4 ==>
      var k := width + 1 + TextOffset(text, width);
      && |r| == 3 * width + 2
      && r[..width] == BorderTop(width) && r[width] == '\n'
      && r[width + 1..width + 3] == "║ " && r[2 * width - 1..2 * width + 1] == " ║"
      && k + |text| <= 2 * width - 1 && r[k..k + |text|] == text
      && r[2 * width + 1] == '\n' && r[2 * width + 2..] == BorderBottom(width)
  {
    if width < |text| + 4 then BorderTop(width) + "\n" + TextLine(text, width) + "\n" + BorderBottom(width)
    else
      FittedBorder(text, width);
      BorderTop(width) + "\n" + TextLine(text, width) + "\n" + BorderBottom(width)
  }

  lemma FittedBorder(text: string, width: int)
    requires width >= |text| + 4
    ensures var r, k := BorderTop(width) + "\n" + TextLine(text, width) + "\n" + BorderBottom(width),
                        width + 1 + TextOffset(text, width);
      && |r| == 3 * width + 2
      && r[..width] == BorderTop(width) && r[width] == '\n'
      && r[width + 1..width + 3] == "║ " && r[2 * width - 1..2 * width + 1] == " ║"
      && k + |text| <= 2 * width - 1 && r[k..k + |text|] == text
      && r[2 * width + 1] == '\n' && r[2 * width + 2..] == BorderBottom(width)
  {
    var top, middle, bottom := BorderTop(width), TextLine(text, width), BorderBottom(width);
    var k := TextOffset(text, width);
    BorderIsRectangular(text, width);
    assert |top| == width && |middle| == width && |bottom| == width;
    TextLineLayout(text, width);
    assert middle[..2] == "║ " && middle[width - 2..] == " ║";
    assert k + |text| <= width - 2 && middle[k..k + |text|] == text;
    FramedBox(top, middle, bottom, width, text, k);
  }

  /** Where the parts of three `width`-long lines, the middle one framed around `text` at
      offset `k`, sit once the lines are joined by newlines. */
  lemma FramedBox(top: string, middle: string, bottom: string, width: int, text: string, k: nat)
    requires |top| == width && |middle| == width && |bottom| == width
    requires width >= 4 && middle[..2] == "║ " && middle[width - 2..] == " ║"
    requires k + |text| <= width - 2 && middle[k..k + |text|] == text
    ensures var r, j := top + "\n" + middle + "\n" + bottom, width + 1 + k;
      && |r| == 3 * width + 2
      && r[..width] == top && r[width] == '\n'
      && r[width + 1..width + 3] == "║ " && r[2 * width - 1..2 * width + 1] == " ║"
      && j + |text| <= 2 * width - 1 && r[j..j + |text|] == text
      && r[2 * width + 1] == '\n' && r[2 * width + 2..] == bottom
  {
    var r := top + "\n" + middle + "\n" + bottom;
    BoxLines(top, middle, bottom, width);
    var m := r[width + 1..2 * width + 1];
    assert m == middle;
    assert r[width + 1..width + 3] == m[..2];
    assert r[2 * width - 1..2 * width + 1] == m[width - 2..];
    assert r[width + 1 + k..width + 1 + k + |text|] == m[k..k + |text|];
  }

  /** Where each of three `width`-long lines sits in the joined box. */
  lemma BoxLines(top: string, middle: string, bottom: string, width: int)
    requires |top| == width && |middle| == width && |bottom| == width
    ensures var r := top + "\n" + middle + "\n" + bottom;
      && |r| == 3 * width + 2
      && r[..width] == top && r[width] == '\n'
      && r[width + 1..2 * width + 1] == middle
      && r[2 * width + 1] == '\n' && r[2 * width + 2..] == bottom
  {
    var r := top + "\n" + middle + "\n" + bottom;
    assert r == top + ("\n" + middle + "\n" + bottom);
    assert r[width + 1..] == middle + ("\n" + bottom);
  }

  /** A caption longer than the box is never cut: the middle line grows past the frame. */
  lemma LongTextOverflows(text: string, width: int)
    requires 2 <= width < |text| + 4
    ensures |TextLine(text, width)| == |text| + 4 > |BorderTop(width)|
    ensures TextLine(text, width) == "║ " + text + " ║"
  {
  }

  /** The default 40-wide box around an odd-length caption: 36 − 5 = 31 spaces of margin,
      split 15 left and 16 right because 36 is even. */
  lemma CenterExample()
    ensures Center("HELLO", 36) == Repeat(' ', 15) + "HELLO" + Repeat(' ', 16)
  {
  }
}
