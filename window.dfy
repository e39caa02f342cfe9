/** The sliding window every conversation memory keeps: the last `n` entries of everything that
    was added, oldest first. */
module Window {

  /** The last `n` entries of `s` (all of `s` when it is shorter), in their original order. */
  function LastN<T>(s: seq<T>, n: nat): seq<T>
  {
    if |s| <= n then s else s[|s| - n..]
  }

  /** What LastN keeps: exactly min(|s|, n) entries, the newest ones, in order. */
  lemma LastNIsNewestSuffix<T>(s: seq<T>, n: nat)
    ensures |LastN(s, n)| == if |s| <= n then |s| else n
    ensures forall i :: 0 <= i < |LastN(s, n)| ==> LastN(s, n)[i] == s[|s| - |LastN(s, n)| + i]
  {
  }

  /** Windowing twice with the same bound is windowing once: an extra entry appended to an
      already windowed history gives the window of the whole history plus that entry. */
  lemma LastNAppend<T>(s: seq<T>, x: T, n: nat)
    ensures LastN(LastN(s, n) + [x], n) == LastN(s + [x], n)
  {
    if |s| > n {
      var w := s[|s| - n..];
      assert w + [x] == (s + [x])[|s| - n..];
      if n > 0 {
        assert (w + [x])[1..] == (s + [x])[|s| + 1 - n..];
      } else {
        assert (s + [x])[|s| + 1..] == [];
      }
    }
  }

  /** The same for several entries appended at once. */
  lemma {:induction false} LastNConcat<T>(s: seq<T>, t: seq<T>, n: nat)
    ensures LastN(LastN(s, n) + t, n) == LastN(s + t, n)
    decreases |t|
  {
    if |t| > 0 {
      var init := t[..|t| - 1];
      var x := t[|t| - 1];
      LastNConcat(s, init, n);
      LastNAppend(LastN(s, n) + init, x, n);
      LastNAppend(s + init, x, n);
      assert LastN(s, n) + init + [x] == LastN(s, n) + t;
      assert s + init + [x] == s + t;
    } else {
      assert LastN(s, n) + t == LastN(s, n);
      assert s + t == s;
    }
  }
}
