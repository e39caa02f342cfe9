/** Fixed-width chunking: `SplitLongText` of src/utils/split.go, which cuts text into pieces of
    `maxLength` characters. The same cut is what the line-packing chunkers apply to a single
    line that is too long. */
module FixedSplit {
  import Strings

  /** `s` cut into consecutive pieces of `width` characters, the last one possibly shorter;
      empty text gives no piece. */
  function Cut(s: string, width: int): seq<string>
    requires width > 0 || s == ""
    decreases |s|
  {
    if |s| == 0 then []
    else if |s| <= width then [s]
    else [s[..width]] + Cut(s[width..], width)
  }

  /** Writing the pieces one after another gives back the text. */
  lemma {:induction false} CutFlatten(s: string, width: int)
    requires width > 0 || s == ""
    ensures Strings.Flatten(Cut(s, width)) == s
    decreases |s|
  {
    if |s| > width && |s| > 0 {
      CutFlatten(s[width..], width);
      var pieces := Cut(s, width);
      assert pieces[1..] == Cut(s[width..], width);
      assert s == s[..width] + s[width..];
    }
  }

  /** Every piece but the last has exactly `width` characters; the last has 1 to `width`. */
  lemma {:induction false} CutSizes(s: string, width: int)
    requires width > 0 || s == ""
    ensures forall k :: 0 <= k < |Cut(s, width)| ==> 0 < |Cut(s, width)[k]| <= width
    ensures forall k :: 0 <= k < |Cut(s, width)| - 1 ==> |Cut(s, width)[k]| == width
    decreases |s|
  {
    if |s| > width && |s| > 0 {
      CutSizes(s[width..], width);
      var pieces := Cut(s, width);
      assert forall k :: 1 <= k < |pieces| ==> pieces[k] == Cut(s[width..], width)[k - 1];
    }
  }

  /** The number of pieces is the length divided by the width, rounded up. */
  lemma {:induction false} CutCount(s: string, width: int)
    requires width > 0
    ensures |Cut(s, width)| == (|s| + width - 1) / width
    decreases |s|
  {
    if |s| > width {
      CutCount(s[width..], width);
      DivShift(|s| + width - 1, width);
    } else if |s| > 0 {
      DivUnique(|s| + width - 1, width, 1, |s| - 1);
    } else {
      DivUnique(width - 1, width, 0, width - 1);
    }
  }

  lemma MulNonNegative(a: int, b: int)
    requires a >= 0 && b >= 0
    ensures a * b >= 0
  {
  }

  /** Euclidean division has one quotient. */
  lemma DivUnique(a: int, width: int, q: int, r: int)
    requires width > 0 && 0 <= r < width && a == q * width + r
    ensures a / width == q
  {
    var d := q - a / width;
    assert d * width == a % width - r;
    if d >= 1 {
      MulNonNegative(d - 1, width);
      assert false;
    } else if d <= -1 {
      MulNonNegative(-d - 1, width);
      assert false;
    }
  }

  lemma DivShift(a: int, width: int)
    requires width > 0 && a >= width
    ensures a / width == (a - width) / width + 1
  {
    var q, r := (a - width) / width, (a - width) % width;
    assert a == (q + 1) * width + r;
    DivUnique(a, width, q + 1, r);
  }

  /** `SplitLongText` (fixed width). A non-positive width gives back the text as one chunk;
      otherwise the text is cut into `maxLength`-character pieces. */
  method SplitLongText(text: string, maxLength: int) returns (chunks: seq<string>)
    ensures maxLength <= 0 ==> chunks == [text]
    ensures maxLength > 0 ==> chunks == Cut(text, maxLength)
  {
    if maxLength <= 0 {
      return [text];
    }
    chunks := [];
    var rest := text;
    while |rest| > maxLength
      invariant chunks + Cut(rest, maxLength) == Cut(text, maxLength)
      decreases |rest|
    {
      chunks := chunks + [rest[..maxLength]];
      rest := rest[maxLength..];
    }
    if |rest| > 0 {
      chunks := chunks + [rest];
    }
  }

  /** What split.go promises for a positive width, in one place: nothing is lost or reordered,
      every chunk but the last is full, the last is not empty, empty text gives no chunk, and
      text that fits comes back whole. */
  lemma SplitLongTextMeaning(text: string, maxLength: int)
    requires maxLength > 0
    ensures Strings.Flatten(Cut(text, maxLength)) == text
    ensures forall k :: 0 <= k < |Cut(text, maxLength)| ==> 0 < |Cut(text, maxLength)[k]| <= maxLength
    ensures forall k :: 0 <= k < |Cut(text, maxLength)| - 1 ==> |Cut(text, maxLength)[k]| == maxLength
    ensures |Cut(text, maxLength)| == (|text| + maxLength - 1) / maxLength
    ensures text == "" ==> Cut(text, maxLength) == []
    ensures 0 < |text| <= maxLength ==> Cut(text, maxLength) == [text]
  {
    CutFlatten(text, maxLength);
    CutSizes(text, maxLength);
    CutCount(text, maxLength);
  }
}
