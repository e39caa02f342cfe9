/** `split_long_text` of python_deprecated/src/utils.py: the same greedy line packing as the Go
    chunker, written in Python. Where the Go loop diverges or panics, Python's `range` behaves
    differently: a step of 0 raises `ValueError`, and a negative step yields no index at all. */
module LegacyUtils {
  import opened Wrappers
  import Strings
  import opened FixedSplit
  import opened Utils

  /** The message of the `ValueError` that `range` raises for a step of 0. */
  const RangeStepZero := "range() arg 3 must not be zero"

  /** `range(0, len(line), step)` with `line[i:i + step]` taken at each index. */
  method RangeSlices(line: string, step: int) returns (r: Result<seq<string>, string>)
    ensures step > 0 ==> r == Success(Cut(line, step))
    ensures step == 0 ==> r == Failure(RangeStepZero)
    ensures step < 0 ==> r == Success([])
  {
    if step == 0 {
      return Failure(RangeStepZero);
    } else if step < 0 {
      return Success([]);
    }
    var pieces := SubChunks(line, step);
    return Success(pieces);
  }

  /** `split_long_text(text, max_length=2000)`. On the inputs on which the Go version returns,
      both give the same chunks. Otherwise a width of 0 raises `ValueError` at the first
      non-empty line, and a negative width gives no chunk at all. */
  method SplitLongText(text: string, maxLength: int := 2000) returns (r: Result<seq<string>, string>)
    ensures Terminates(text, maxLength) ==> r == Success(Chunks(text, maxLength))
    ensures !Terminates(text, maxLength) && maxLength == 0 ==> r == Failure(RangeStepZero)
    ensures !Terminates(text, maxLength) && maxLength < 0 ==> r == Success([])
  {
    if |text| <= maxLength {
      return Success([text]);
    }
    var chunks := [];
    var current := "";
    var lines := Strings.Split(text, '\n');
    if Terminates(text, maxLength) {
      LinesPackable(text, maxLength);
    }
    for i := 0 to |lines|
      invariant Terminates(text, maxLength) ==> Packing(chunks, current) == PackLines(lines[..i], maxLength)
      invariant maxLength <= 0 ==> chunks == [] && current == ""
      invariant maxLength == 0 ==> forall k :: 0 <= k < i ==> lines[k] == ""
    {
      var line := lines[i];
      assert lines[..i + 1][..i] == lines[..i];
      assert Terminates(text, maxLength) ==> Packable(lines[..i + 1], maxLength);
      if |current| + |line| + (if |current| > 0 then 1 else 0) <= maxLength {
        if |current| > 0 {
          current := current + "\n";
        }
        current := current + line;
      } else {
        if |current| > 0 {
          chunks := chunks + [current];
        }
        if |line| > maxLength {
          var pieces := RangeSlices(line, maxLength);
          if pieces.Failure? {
            assert !Terminates(text, maxLength) by {
              assert Packable(lines, maxLength) ==> line == "";
            }
            return Failure(pieces.error);
          }
          chunks := chunks + pieces.value;
          current := "";
        } else {
          current := line;
        }
      }
    }
    assert lines[..|lines|] == lines;
    if maxLength == 0 {
      Strings.JoinSplit(text, '\n');
      Strings.JoinEmpties('\n', lines);
    }
    ghost var packed := Packing(chunks, current);
    if |current| > 0 {
      chunks := chunks + [current];
    }
    assert chunks == Close(packed);
    return Success(chunks);
  }
}
