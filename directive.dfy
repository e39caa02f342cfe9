/** The tool directive both agents look for in a model response: the regular expression
    `Action: (\w+)\nAction Input: (.*)`, of which only the leftmost match counts (Go's
    `FindStringSubmatch`, Python's `re.search`). `\w` is an ASCII word character and `.` any
    character but a newline, so group 1 is a run of word characters ended by the newline, and
    group 2 is the rest of the following line. */
module Directive {
  import opened Wrappers
  import Strings

  const ActionLabel := "Action: "
  const InputLabel := "\nAction Input: "

  /** `\w` in RE2: `[0-9A-Za-z_]`. */
  predicate IsWordChar(c: char)
  {
    ('0' <= c <= '9') || ('A' <= c <= 'Z') || ('a' <= c <= 'z') || c == '_'
  }

  /** The leftmost match: where it starts and its two groups. */
  datatype Match = Match(pos: nat, tool: string, input: string)

  /** The regular expression matches `s` at `i` with groups `tool` and `input`: the text there
      reads `Action: <tool>\nAction Input: <input>`, the tool name is one or more word characters,
      and the greedy `(.*)` runs to the end of the line. */
  ghost predicate IsMatchAt(s: string, i: nat, tool: string, input: string)
  {
    var a := i + |ActionLabel|;
    var e := a + |tool|;
    var b := e + |InputLabel|;
    var k := b + |input|;
    && k <= |s|
    && s[i..a] == ActionLabel && s[a..e] == tool && s[e..b] == InputLabel && s[b..k] == input
    && |tool| > 0
    && (forall x :: 0 <= x < |tool| ==> IsWordChar(tool[x]))
    && '\n' !in input
    && (k == |s| || s[k] == '\n')
  }

  /** The first index at or after `from` that does not hold a word character. */
  function WordEnd(s: string, from: nat): (j: nat)
    requires from <= |s|
    ensures from <= j <= |s|
    ensures forall k :: from <= k < j ==> IsWordChar(s[k])
    ensures j == |s| || !IsWordChar(s[j])
    decreases |s| - from
  {
    if from < |s| && IsWordChar(s[from]) then WordEnd(s, from + 1) else from
  }

  /** The first index at or after `from` that holds a newline, or the end of `s`. */
  function LineEnd(s: string, from: nat): (j: nat)
    requires from <= |s|
    ensures from <= j <= |s|
    ensures forall k :: from <= k < j ==> s[k] != '\n'
    ensures j == |s| || s[j] == '\n'
    decreases |s| - from
  {
    if from < |s| && s[from] != '\n' then LineEnd(s, from + 1) else from
  }

  /** The match starting exactly at `i`, if there is one. */
  function MatchAt(s: string, i: nat): Option<(string, string)>
    requires i <= |s|
  {
    var a := i + |ActionLabel|;
    if a <= |s| && s[i..a] == ActionLabel then
      var j := WordEnd(s, a);
      if a < j && j + |InputLabel| <= |s| && s[j..j + |InputLabel|] == InputLabel then
        var k := LineEnd(s, j + |InputLabel|);
        Some((s[a..j], s[j + |InputLabel|..k]))
      else None
    else None
  }

  /** What MatchAt reports is a match of the regular expression. */
  lemma MatchAtSound(s: string, i: nat)
    requires i <= |s| && MatchAt(s, i).Some?
    ensures IsMatchAt(s, i, MatchAt(s, i).value.0, MatchAt(s, i).value.1)
  {
    var a := i + |ActionLabel|;
    var j := WordEnd(s, a);
    var b := j + |InputLabel|;
    var k := LineEnd(s, b);
    var tool, input := s[a..j], s[b..k];
    assert forall x :: 0 <= x < |tool| ==> tool[x] == s[a + x];
    assert forall x :: 0 <= x < |input| ==> input[x] == s[b + x];
  }

  /** Every match of the regular expression at `i` is the one MatchAt reports. */
  lemma MatchAtComplete(s: string, i: nat, tool: string, input: string)
    requires IsMatchAt(s, i, tool, input)
    ensures MatchAt(s, i) == Some((tool, input))
  {
    var a := i + |ActionLabel|;
    var e := a + |tool|;
    var b := e + |InputLabel|;
    forall x | a <= x < e ensures IsWordChar(s[x]) {
      assert s[x] == tool[x - a];
    }
    assert s[e] == InputLabel[0];
    assert WordEnd(s, a) == e;
    forall x | b <= x < b + |input| ensures s[x] != '\n' {
      assert s[x] == input[x - b];
    }
    assert LineEnd(s, b) == b + |input|;
  }

  /** The regular expression matches at a given position in at most one way. */
  lemma MatchAtUnique(s: string, i: nat, tool: string, input: string, tool': string, input': string)
    requires IsMatchAt(s, i, tool, input) && IsMatchAt(s, i, tool', input')
    ensures tool == tool' && input == input'
  {
    MatchAtComplete(s, i, tool, input);
    MatchAtComplete(s, i, tool', input');
  }

  /** The scan of `re.search` and `FindStringSubmatch`: try each start position from `from` on,
      and report the first that matches. */
  function Search(s: string, from: nat): Option<Match>
    requires from <= |s|
    decreases |s| - from
  {
    match MatchAt(s, from)
    case Some(groups) => Some(Match(from, groups.0, groups.1))
    case None => if from == |s| then None else Search(s, from + 1)
  }

  /** The scan reports a match at or after `from` with none between `from` and it, and reports
      None exactly when no position from `from` on matches. */
  lemma {:induction false} SearchIsLeftmost(s: string, from: nat)
    requires from <= |s|
    ensures var m := Search(s, from);
      && (m.Some? ==> from <= m.value.pos && IsMatchAt(s, m.value.pos, m.value.tool, m.value.input))
      && (m.Some? ==> forall q: nat, t, x :: from <= q < m.value.pos ==> !IsMatchAt(s, q, t, x))
      && (m.None? ==> forall q: nat, t, x :: from <= q ==> !IsMatchAt(s, q, t, x))
    decreases |s| - from
  {
    match MatchAt(s, from)
    case Some(groups) =>
      MatchAtSound(s, from);
    case None =>
      NoMatchAt(s, from);
      if from < |s| {
        SearchIsLeftmost(s, from + 1);
        var m := Search(s, from + 1);
        assert Search(s, from) == m;
        forall q: nat, t, x | from <= q && (m.None? || q < m.value.pos) ensures !IsMatchAt(s, q, t, x) {
          if q == from {
            assert forall t, x :: !IsMatchAt(s, from, t, x);
          }
        }
      } else {
        forall q: nat, t, x | from < q ensures !IsMatchAt(s, q, t, x) {
        }
      }
  }

  /** Where MatchAt finds nothing, the regular expression does not match. */
  lemma NoMatchAt(s: string, i: nat)
    requires i <= |s| && MatchAt(s, i).None?
    ensures forall t, x :: !IsMatchAt(s, i, t, x)
  {
    forall t, x | IsMatchAt(s, i, t, x) ensures false {
      MatchAtComplete(s, i, t, x);
    }
  }

  /** The directive of a response: its leftmost match, or None when the response is a final
      answer. */
  function FindDirective(response: string): Option<Match>
  {
    Search(response, 0)
  }

  /** FindDirective reports a match of the regular expression with no match before it, and
      reports None exactly when no position matches. */
  lemma FindDirectiveIsLeftmost(response: string)
    ensures var m := FindDirective(response);
      && (m.Some? ==> IsMatchAt(response, m.value.pos, m.value.tool, m.value.input))
      && (m.Some? ==> forall q: nat, t, x :: q < m.value.pos ==> !IsMatchAt(response, q, t, x))
      && (m.None? <==> forall q: nat, t, x :: !IsMatchAt(response, q, t, x))
  {
    SearchIsLeftmost(response, 0);
  }

  /** Only the leftmost directive counts: when a response holds a directive at `p` and none
      before it, that one is reported, whatever follows it (a second `Action:` block included). */
  lemma LeftmostDirectiveWins(response: string, p: nat, tool: string, input: string)
    requires IsMatchAt(response, p, tool, input)
    requires forall q: nat, t, x :: q < p ==> !IsMatchAt(response, q, t, x)
    ensures FindDirective(response) == Some(Match(p, tool, input))
  {
    FindDirectiveIsLeftmost(response);
    var m := FindDirective(response);
    assert m.Some?;
    assert m.value.pos == p;
    MatchAtUnique(response, p, tool, input, m.value.tool, m.value.input);
  }

  /** The group-1 tool name holds no white space, so Go's `TrimSpace` leaves it unchanged. */
  lemma ToolNameIsTrimmed(response: string, m: Match)
    requires FindDirective(response) == Some(m)
    ensures Strings.TrimSpace(m.tool) == m.tool && |m.tool| > 0
  {
    FindDirectiveIsLeftmost(response);
    forall k | 0 <= k < |m.tool| ensures !Strings.IsSpace(m.tool[k]) {
      assert IsWordChar(m.tool[k]);
    }
    Strings.TrimSpaceNoSpace(m.tool);
  }

  /** A typical directive at the very start of a reply:
      `Action: google_search\nAction Input: capital of France`. */
  lemma ExampleDirective()
    ensures FindDirective(ActionLabel + "google_search" + InputLabel + "capital of France")
         == Some(Match(0, "google_search", "capital of France"))
  {
    var s := ActionLabel + "google_search" + InputLabel + "capital of France";
    assert IsMatchAt(s, 0, "google_search", "capital of France") by {
      assert s[0..8] == ActionLabel;
      assert s[8..21] == "google_search";
      assert s[21..36] == InputLabel;
      assert s[36..] == "capital of France";
    }
    LeftmostDirectiveWins(s, 0, "google_search", "capital of France");
  }

  /** The text `Action: ` starts at `i`. */
  predicate LabelAt(response: string, i: nat)
  {
    i + |ActionLabel| <= |response| && response[i..i + |ActionLabel|] == ActionLabel
  }

  /** A response in which the text `Action: ` never occurs holds no directive: it is the final
      answer as it stands. */
  lemma NoLabelNoDirective(response: string)
    requires forall i: nat :: !LabelAt(response, i)
    ensures FindDirective(response) == None
  {
    FindDirectiveIsLeftmost(response);
    forall q: nat, t, x | IsMatchAt(response, q, t, x) ensures false {
      assert LabelAt(response, q);
    }
  }
}
