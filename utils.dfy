/** The line-packing chunker of src/utils/utils.go (`SplitLongText`, lines 82-133), which cuts a
    reply into messages of at most `maxLength` characters, preferring to break at newlines: text
    that fits is returned whole; otherwise the lines are packed greedily, each chunk holding as
    many whole lines (joined by a newline) as fit, and a line longer than `maxLength` is cut into
    fixed-width pieces of its own. */
module Utils {
  import Strings
  import opened FixedSplit

  /** The state of the packing loop: the chunks emitted so far and the chunk being built. */
  datatype Packing = Packing(chunks: seq<string>, current: string)

  /** One iteration of the loop over lines. The line joins the current chunk when it fits
      together with the newline between them; otherwise the current chunk, if any, is emitted,
      and the line either starts the next chunk or, when it is too long for any chunk, is cut into
      pieces that are emitted at once. */
  function PackLine(p: Packing, line: string, maxLength: int): Packing
    requires maxLength > 0 || line == ""
  {
    var newlineChar := if |p.current| > 0 then 1 else 0;
    if |p.current| + |line| + newlineChar <= maxLength then
      Packing(p.chunks, if |p.current| > 0 then p.current + "\n" + line else line)
    else
      var flushed := if |p.current| > 0 then p.chunks + [p.current] else p.chunks;
      if |line| > maxLength then Packing(flushed + Cut(line, maxLength), "")
      else Packing(flushed, line)
  }

  /** Every line can go through PackLine: the width is positive, or all lines are empty. */
  predicate Packable(lines: seq<string>, maxLength: int)
  {
    maxLength > 0 || forall k :: 0 <= k < |lines| ==> lines[k] == ""
  }

  /** The lines packed one after another from the empty state. */
  function PackLines(lines: seq<string>, maxLength: int): Packing
    requires Packable(lines, maxLength)
    decreases |lines|
  {
    if |lines| == 0 then Packing([], "")
    else PackLine(PackLines(lines[..|lines| - 1], maxLength), lines[|lines| - 1], maxLength)
  }

  /** The chunks at the end of the loop: the current chunk is emitted when it is not empty. */
  function Close(p: Packing): seq<string>
  {
    p.chunks + (if |p.current| > 0 then [p.current] else [])
  }

  /** The inputs on which the Go function returns. With a width of 0 a non-empty line never
      leaves the sub-chunk loop, and with a negative width its first slice panics; text that
      fits, a positive width, or text made only of newlines (all lines empty) avoid both. */
  predicate Terminates(text: string, maxLength: int)
  {
    || |text| <= maxLength
    || maxLength > 0
    || forall i :: 0 <= i < |text| ==> text[i] == '\n'
  }

  /** When the text does not fit and the width is not positive, every line is empty. */
  lemma LinesPackable(text: string, maxLength: int)
    requires Terminates(text, maxLength) && |text| > maxLength
    ensures Packable(Strings.Split(text, '\n'), maxLength)
  {
    if maxLength <= 0 {
      Strings.SplitAllSep(text, '\n');
    }
  }

  /** The result of `SplitLongText` on the inputs on which it returns. */
  function Chunks(text: string, maxLength: int): seq<string>
    requires Terminates(text, maxLength)
  {
    if |text| <= maxLength then [text]
    else
      LinesPackable(text, maxLength);
      Close(PackLines(Strings.Split(text, '\n'), maxLength))
  }

  /** What is left of `line` from index `start` on (nothing once `start` is past its end). */
  function From(line: string, start: int): string
    requires start >= 0
  {
    if start < |line| then line[start..] else ""
  }

  /** The sub-chunk loop of utils.go: `line[i:end]` for `i` from 0 in steps of `maxLength`,
      with `end` clipped to the end of the line. */
  method SubChunks(line: string, maxLength: int) returns (pieces: seq<string>)
    requires maxLength > 0 || line == ""
    ensures pieces == Cut(line, maxLength)
  {
    pieces := [];
    var start := 0;
    while start < |line|
      invariant start >= 0
      invariant Cut(line, maxLength) == pieces + Cut(From(line, start), maxLength)
      decreases |line| - start
    {
      var end := start + maxLength;
      if end > |line| {
        end := |line|;
      }
      assert From(line, start) == line[start..];
      if end < |line| {
        assert line[start..][..maxLength] == line[start..end];
        assert line[start..][maxLength..] == line[end..];
      } else {
        assert line[start..end] == line[start..];
        assert From(line, start + maxLength) == "";
      }
      pieces := pieces + [line[start..end]];
      start := start + maxLength;
    }
  }

  /** `SplitLongText` of utils.go: the loop over lines with its string builder (the `current`
      chunk); the sub-chunk loop is SubChunks. */
  method SplitLongText(text: string, maxLength: int) returns (chunks: seq<string>)
    requires Terminates(text, maxLength)
    ensures chunks == Chunks(text, maxLength)
  {
    if |text| <= maxLength {
      return [text];
    }
    chunks := [];
    var current := "";
    var lines := Strings.Split(text, '\n');
    LinesPackable(text, maxLength);
    for i := 0 to |lines|
      invariant Packing(chunks, current) == PackLines(lines[..i], maxLength)
    {
      var line := lines[i];
      assert lines[..i + 1][..i] == lines[..i];
      assert Packable(lines[..i + 1], maxLength);
      var newlineChar := if |current| > 0 then 1 else 0;
      if |current| + |line| + newlineChar <= maxLength {
        if |current| > 0 {
          current := current + "\n";
        }
        current := current + line;
      } else {
        if |current| > 0 {
          chunks := chunks + [current];
          current := "";
        }
        if |line| > maxLength {
          var pieces := SubChunks(line, maxLength);
          chunks := chunks + pieces;
        } else {
          current := line;
        }
      }
    }
    assert lines[..|lines|] == lines;
    if |current| > 0 {
      chunks := chunks + [current];
    }
  }

  /** Every emitted chunk holds 1 to `maxLength` characters, and the chunk being built is empty
      or fits. */
  ghost predicate Sized(p: Packing, maxLength: int)
  {
    && (forall k :: 0 <= k < |p.chunks| ==> 0 < |p.chunks[k]| <= maxLength)
    && (p.current == "" || |p.current| <= maxLength)
  }

  lemma PackLineSized(p: Packing, line: string, maxLength: int)
    requires maxLength > 0 || line == ""
    requires Sized(p, maxLength)
    ensures Sized(PackLine(p, line, maxLength), maxLength)
  {
    CutSizes(line, maxLength);
  }

  lemma {:induction false} PackLinesSized(lines: seq<string>, maxLength: int)
    requires Packable(lines, maxLength)
    ensures Sized(PackLines(lines, maxLength), maxLength)
    decreases |lines|
  {
    if |lines| > 0 {
      var init := lines[..|lines| - 1];
      assert Packable(init, maxLength);
      PackLinesSized(init, maxLength);
      PackLineSized(PackLines(init, maxLength), lines[|lines| - 1], maxLength);
    }
  }

  /** The Discord limit is respected: text that fits is returned as the one chunk; otherwise
      every chunk holds between 1 and `maxLength` characters (no empty message is produced). */
  lemma ChunksWithinLimit(text: string, maxLength: int)
    requires Terminates(text, maxLength)
    ensures |text| <= maxLength ==> Chunks(text, maxLength) == [text]
    ensures |text| > maxLength ==>
      forall k :: 0 <= k < |Chunks(text, maxLength)| ==> 0 < |Chunks(text, maxLength)[k]| <= maxLength
  {
    if |text| > maxLength {
      LinesPackable(text, maxLength);
      PackLinesSized(Strings.Split(text, '\n'), maxLength);
    }
  }

  /** The text of the lines packed so far, newlines aside, is exactly what the chunks and the
      current chunk hold. */
  ghost predicate Keeps(p: Packing, lines: seq<string>)
  {
    Strings.Without(Strings.Flatten(p.chunks) + p.current, '\n') == Strings.Flatten(lines)
  }

  /** What one PackLine adds to the text held by the chunks and the current chunk: the line,
      preceded by a newline when it joins a non-empty current chunk. */
  lemma PackLineText(p: Packing, line: string, maxLength: int) returns (added: string)
    requires maxLength > 0 || line == ""
    ensures var q := PackLine(p, line, maxLength);
      Strings.Flatten(q.chunks) + q.current == (Strings.Flatten(p.chunks) + p.current) + added
    ensures added == line || added == "\n" + line
  {
    var q := PackLine(p, line, maxLength);
    var f := Strings.Flatten(p.chunks);
    var newlineChar := if |p.current| > 0 then 1 else 0;
    if |p.current| + |line| + newlineChar <= maxLength {
      added := if |p.current| > 0 then "\n" + line else line;
      assert f + q.current == (f + p.current) + added;
    } else {
      var flushed := if |p.current| > 0 then p.chunks + [p.current] else p.chunks;
      Strings.FlattenAppend(p.chunks, [p.current]);
      assert Strings.Flatten([p.current]) == p.current + Strings.Flatten([]);
      assert Strings.Flatten(flushed) == f + p.current;
      added := line;
      if |line| > maxLength {
        Strings.FlattenAppend(flushed, Cut(line, maxLength));
        CutFlatten(line, maxLength);
      }
    }
  }

  lemma PackLineKeeps(p: Packing, lines: seq<string>, line: string, maxLength: int)
    requires maxLength > 0 || line == ""
    requires '\n' !in line
    requires Keeps(p, lines)
    ensures Keeps(PackLine(p, line, maxLength), lines + [line])
  {
    var added := PackLineText(p, line, maxLength);
    Strings.FlattenAppend(lines, [line]);
    assert Strings.Flatten([line]) == line + Strings.Flatten([]);
    Strings.WithoutAbsent(line, '\n');
    Strings.WithoutAppend(Strings.Flatten(p.chunks) + p.current, added, '\n');
    if added != line {
      Strings.WithoutAppend("\n", line, '\n');
    }
  }

  lemma {:induction false} PackLinesKeep(lines: seq<string>, maxLength: int)
    requires Packable(lines, maxLength)
    requires forall k :: 0 <= k < |lines| ==> '\n' !in lines[k]
    ensures Keeps(PackLines(lines, maxLength), lines)
    decreases |lines|
  {
    if |lines| > 0 {
      var init := lines[..|lines| - 1];
      assert Packable(init, maxLength);
      PackLinesKeep(init, maxLength);
      PackLineKeeps(PackLines(init, maxLength), init, lines[|lines| - 1], maxLength);
      assert init + [lines[|lines| - 1]] == lines;
    } else {
      assert Strings.Flatten([]) + "" == "";
    }
  }

  /** No text is lost or reordered: written one after another, the chunks hold the characters
      of the text in order. Only newlines may go missing, those at which a chunk was closed and
      blank lines met while no chunk was being built. */
  lemma ChunksKeepText(text: string, maxLength: int)
    requires Terminates(text, maxLength)
    ensures Strings.Without(Strings.Flatten(Chunks(text, maxLength)), '\n') == Strings.Without(text, '\n')
  {
    if |text| <= maxLength {
      assert Strings.Flatten([text]) == text + Strings.Flatten([]);
      assert text + "" == text;
    } else {
      var lines := Strings.Split(text, '\n');
      LinesPackable(text, maxLength);
      PackLinesKeep(lines, maxLength);
      Strings.WithoutIsFlattenedSplit(text, '\n');
      var p := PackLines(lines, maxLength);
      Strings.FlattenAppend(p.chunks, if |p.current| > 0 then [p.current] else []);
      assert Strings.Flatten([p.current]) == p.current + Strings.Flatten([]);
      assert Strings.Flatten(Close(p)) == Strings.Flatten(p.chunks) + p.current;
    }
  }

  /** While packing lines that are neither empty nor too long, the chunks and the current
      chunk, joined by newlines, give back the lines joined by newlines. */
  ghost predicate Rejoins(p: Packing, lines: seq<string>)
  {
    if |lines| == 0 then p == Packing([], "")
    else p.current != "" && Strings.Join("\n", p.chunks + [p.current]) == Strings.Join("\n", lines)
  }

  lemma {:induction false} PackLinesRejoin(lines: seq<string>, maxLength: int)
    requires forall k :: 0 <= k < |lines| ==> 0 < |lines[k]| <= maxLength
    ensures Packable(lines, maxLength) && Rejoins(PackLines(lines, maxLength), lines)
    decreases |lines|
  {
    if |lines| > 0 {
      var init := lines[..|lines| - 1];
      var line := lines[|lines| - 1];
      PackLinesRejoin(init, maxLength);
      var p := PackLines(init, maxLength);
      var q := PackLine(p, line, maxLength);
      assert init + [line] == lines;
      if |init| == 0 {
        assert q == Packing([], line);
      } else {
        Strings.JoinAppend("\n", init, line);
        if |p.current| + |line| + 1 <= maxLength {
          Strings.JoinAppend("\n", p.chunks + [p.current], line);
          if |p.chunks| > 0 {
            Strings.JoinAppend("\n", p.chunks, p.current);
            Strings.JoinAppend("\n", p.chunks, p.current + "\n" + line);
          } else {
            assert p.chunks + [p.current + "\n" + line] == [p.current + "\n" + line];
          }
        } else {
          assert q.chunks + [q.current] == p.chunks + [p.current] + [line];
          Strings.JoinAppend("\n", p.chunks + [p.current], line);
        }
      }
    }
  }

  /** When every line is non-empty and fits, packing only groups whole lines: joining the chunks
      with newlines gives back the text exactly. */
  lemma ChunksRejoin(text: string, maxLength: int)
    requires forall k :: 0 <= k < |Strings.Split(text, '\n')| ==> 0 < |Strings.Split(text, '\n')[k]| <= maxLength
    ensures Terminates(text, maxLength)
    ensures Strings.Join("\n", Chunks(text, maxLength)) == text
  {
    var lines := Strings.Split(text, '\n');
    assert maxLength > 0 by {
      assert 0 < |lines[0]| <= maxLength;
    }
    Strings.JoinSplit(text, '\n');
    if |text| > maxLength {
      PackLinesRejoin(lines, maxLength);
    }
  }

  /** The first line of a chunk: the text up to its first newline. */
  function FirstLine(chunk: string): string
  {
    Strings.Split(chunk, '\n')[0]
  }

  /** Packing is greedy: no emitted chunk could have taken, after a newline, the first line of
      the chunk that follows it (the emitted ones, or the current chunk after the last emitted
      one); and when the current chunk is empty, the last emitted chunk has no room left even
      for a newline. */
  ghost predicate Greedy(p: Packing, maxLength: int)
  {
    && (forall k :: 0 <= k < |p.chunks| - 1 ==> |p.chunks[k]| + 1 + |FirstLine(p.chunks[k + 1])| > maxLength)
    && (|p.chunks| > 0 && p.current != "" ==> |p.chunks[|p.chunks| - 1]| + 1 + |FirstLine(p.current)| > maxLength)
    && (|p.chunks| > 0 && p.current == "" ==> |p.chunks[|p.chunks| - 1]| + 1 > maxLength)
  }

  lemma PackLineGreedy(p: Packing, line: string, maxLength: int)
    requires maxLength > 0 && |line| <= maxLength && '\n' !in line
    requires Greedy(p, maxLength)
    ensures Greedy(PackLine(p, line, maxLength), maxLength)
  {
    Strings.SplitPrefix(line, "", '\n');
    assert line + "" == line;
    if |p.current| > 0 && |p.current| + |line| + 1 <= maxLength {
      Strings.SplitFirstExtend(p.current, line, '\n');
      assert p.current + "\n" + line == p.current + ['\n'] + line;
    }
  }

  lemma {:induction false} PackLinesGreedy(lines: seq<string>, maxLength: int)
    requires maxLength > 0
    requires forall k :: 0 <= k < |lines| ==> |lines[k]| <= maxLength && '\n' !in lines[k]
    ensures Packable(lines, maxLength) && Greedy(PackLines(lines, maxLength), maxLength)
    decreases |lines|
  {
    if |lines| > 0 {
      var init := lines[..|lines| - 1];
      PackLinesGreedy(init, maxLength);
      PackLineGreedy(PackLines(init, maxLength), lines[|lines| - 1], maxLength);
    }
  }

  /** Lines are packed greedily while the total fits: when every line fits, blank lines
      included, no chunk could have taken the first line of the next chunk after a newline and
      still fit. */
  lemma ChunksGreedy(text: string, maxLength: int)
    requires maxLength > 0
    requires forall k :: 0 <= k < |Strings.Split(text, '\n')| ==> |Strings.Split(text, '\n')[k]| <= maxLength
    requires |text| > maxLength
    ensures Terminates(text, maxLength)
    ensures var c := Chunks(text, maxLength);
      forall k :: 0 <= k < |c| - 1 ==> |c[k]| + 1 + |FirstLine(c[k + 1])| > maxLength
  {
    var lines := Strings.Split(text, '\n');
    PackLinesGreedy(lines, maxLength);
    var p := PackLines(lines, maxLength);
    assert Chunks(text, maxLength) == Close(p);
    if p.current == "" {
      assert Close(p) == p.chunks;
    } else {
      var c := Close(p);
      assert c == p.chunks + [p.current];
      forall k | 0 <= k < |c| - 1
        ensures |c[k]| + 1 + |FirstLine(c[k + 1])| > maxLength
      {
        if k < |p.chunks| - 1 {
          assert c[k] == p.chunks[k] && c[k + 1] == p.chunks[k + 1];
        } else {
          assert c[k] == p.chunks[|p.chunks| - 1] && c[k + 1] == p.current;
        }
      }
    }
  }
}
