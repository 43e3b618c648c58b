/**
 * The handful of Python `str` operations dodo.py relies on, as functions on
 * `seq<char>`: `pat in s`, `s.replace(pat, rep)`, `s.split(sep)`,
 * `sep.join(parts)` and `reversed(...)`, with the lemmas the rest of the
 * model needs about them.
 */
module PyStr {

  /** `s.startswith(prefix)` */
  predicate StartsWith(s: string, prefix: string)
  {
    |prefix| <= |s| && s[..|prefix|] == prefix
  }

  /**
   * `pat in s`: some suffix of `s` starts with `pat`. As in Python, the empty
   * pattern is in every string, and a pattern longer than the string is not.
   */
  predicate Contains(s: string, pat: string)
    ensures |pat| == 0 ==> Contains(s, pat)
    ensures Contains(s, pat) ==> |pat| <= |s|
    decreases |s|
  {
    StartsWith(s, pat) || (|s| > 0 && Contains(s[1..], pat))
  }

  /** Reference definition of `pat in s`: an index at which `pat` occurs. */
  ghost predicate OccursAt(s: string, pat: string, i: int)
  {
    0 <= i && i + |pat| <= |s| && s[i..i + |pat|] == pat
  }

  /** The recursive `Contains` finds exactly the occurrences the index-based definition describes. */
  lemma {:induction false} ContainsIffOccurs(s: string, pat: string)
    ensures Contains(s, pat) <==> exists i :: OccursAt(s, pat, i)
    decreases |s|
  {
    if Contains(s, pat) {
      if StartsWith(s, pat) {
        assert OccursAt(s, pat, 0);
      } else {
        ContainsIffOccurs(s[1..], pat);
        var i :| OccursAt(s[1..], pat, i);
        assert s[1..][i..i + |pat|] == s[i + 1..i + 1 + |pat|];
        assert OccursAt(s, pat, i + 1);
      }
    } else {
      if exists i :: OccursAt(s, pat, i) {
        var i :| OccursAt(s, pat, i);
        if i > 0 {
          assert s[1..][i - 1..i - 1 + |pat|] == s[i..i + |pat|];
          assert OccursAt(s[1..], pat, i - 1);
          ContainsIffOccurs(s[1..], pat);
        }
      }
    }
  }

  /** Every character of an occurring pattern is a character of the string. */
  lemma {:induction false} ContainsChar(s: string, pat: string, c: char)
    requires c in pat
    ensures Contains(s, pat) ==> c in s
    decreases |s|
  {
    if Contains(s, pat) {
      if StartsWith(s, pat) {
        assert c in s[..|pat|];
      } else {
        ContainsChar(s[1..], pat, c);
      }
    }
  }

  /**
   * `s.replace(pat, rep)` for a non-empty `pat`: scanning from the left, each
   * occurrence of `pat` that does not overlap an earlier replaced one becomes `rep`.
   */
  function ReplaceAll(s: string, pat: string, rep: string): (r: string)
    requires |pat| > 0
    ensures !Contains(s, pat) ==> r == s
    decreases |s|
  {
    if s == [] then []
    else if StartsWith(s, pat) then rep + ReplaceAll(s[|pat|..], pat, rep)
    else [s[0]] + ReplaceAll(s[1..], pat, rep)
  }

  /** Replacing a pattern by itself changes nothing. */
  lemma {:induction false} ReplaceBySelf(s: string, pat: string)
    requires |pat| > 0
    ensures ReplaceAll(s, pat, pat) == s
    decreases |s|
  {
    if s != [] {
      if StartsWith(s, pat) {
        ReplaceBySelf(s[|pat|..], pat);
        assert s == pat + s[|pat|..];
      } else {
        ReplaceBySelf(s[1..], pat);
        assert s == [s[0]] + s[1..];
      }
    }
  }

  /** A longer (shorter) replacement never shrinks (grows) the string. */
  lemma {:induction false} ReplaceLength(s: string, pat: string, rep: string)
    requires |pat| > 0
    ensures |rep| >= |pat| ==> |ReplaceAll(s, pat, rep)| >= |s|
    ensures |rep| <= |pat| ==> |ReplaceAll(s, pat, rep)| <= |s|
    decreases |s|
  {
    if s != [] {
      if StartsWith(s, pat) {
        ReplaceLength(s[|pat|..], pat, rep);
      } else {
        ReplaceLength(s[1..], pat, rep);
      }
    }
  }

  /** When the replacement differs from the pattern, a string holding the pattern is changed. */
  lemma {:induction false} ReplacePresent(s: string, pat: string, rep: string)
    requires |pat| > 0 && rep != pat && Contains(s, pat)
    ensures ReplaceAll(s, pat, rep) != s
    decreases |s|
  {
    if StartsWith(s, pat) {
      var y := s[|pat|..];
      assert s == pat + y;
      ReplaceLength(y, pat, rep);
      if |rep| == |pat| {
        assert ReplaceAll(s, pat, rep)[..|pat|] == rep;
        assert s[..|pat|] == pat;
      }
    } else {
      ReplacePresent(s[1..], pat, rep);
      assert ReplaceAll(s, pat, rep)[1..] == ReplaceAll(s[1..], pat, rep);
    }
  }

  /** `s.replace(pat, rep) == s` exactly when `pat` is absent or `rep` equals `pat`. */
  lemma ReplaceUnchangedIff(s: string, pat: string, rep: string)
    requires |pat| > 0
    ensures ReplaceAll(s, pat, rep) == s <==> !Contains(s, pat) || rep == pat
  {
    if rep == pat {
      ReplaceBySelf(s, pat);
    } else if Contains(s, pat) {
      ReplacePresent(s, pat, rep);
    }
  }

  /**
   * The leftmost occurrence is the one replaced: if no suffix of `x` followed
   * by `pat + y` starts with `pat`, the result is `x`, then `rep`, then `y` replaced.
   */
  lemma {:induction false} ReplaceLeftmost(x: string, pat: string, rep: string, y: string)
    requires |pat| > 0
    requires forall i :: 0 <= i < |x| ==> !StartsWith(x[i..] + pat + y, pat)
    ensures ReplaceAll(x + pat + y, pat, rep) == x + rep + ReplaceAll(y, pat, rep)
    decreases |x|
  {
    if x == [] {
      assert x + pat + y == pat + y;
      assert (pat + y)[|pat|..] == y;
    } else {
      assert x[0..] == x;
      forall i | 0 <= i < |x[1..]|
        ensures !StartsWith(x[1..][i..] + pat + y, pat)
      {
        assert x[1..][i..] == x[i + 1..];
      }
      ReplaceLeftmost(x[1..], pat, rep, y);
      assert (x + pat + y)[1..] == x[1..] + pat + y;
      assert x + rep + ReplaceAll(y, pat, rep) == [x[0]] + (x[1..] + rep + ReplaceAll(y, pat, rep));
    }
  }

  /** A string none of whose characters is `c` contains no pattern starting with `c`. */
  lemma {:induction false} NoStartCharNotContains(u: string, z: string, pat: string)
    requires |pat| > 0 && pat[0] !in u && !Contains(z, pat)
    ensures !Contains(u + z, pat)
    decreases |u|
  {
    if u != [] {
      assert (u + z)[0] == u[0];
      assert (u + z)[1..] == u[1..] + z;
      NoStartCharNotContains(u[1..], z, pat);
    } else {
      assert u + z == z;
    }
  }

  /**
   * If `q` avoids the pattern's first character and the replacement starts
   * with it, a replaced string starts with `q` only when the original did.
   */
  lemma {:induction false} ReplaceKeepsCleanPrefix(t: string, pat: string, rep: string, q: string)
    requires |pat| > 0 && |rep| > 0 && rep[0] == pat[0] && pat[0] !in q
    ensures StartsWith(ReplaceAll(t, pat, rep), q) ==> StartsWith(t, q)
    decreases |t|
  {
    if q != [] && t != [] {
      if StartsWith(t, pat) {
        assert ReplaceAll(t, pat, rep)[0] == pat[0];
        assert q[0] != pat[0];
      } else {
        var r := ReplaceAll(t[1..], pat, rep);
        assert ReplaceAll(t, pat, rep) == [t[0]] + r;
        if StartsWith([t[0]] + r, q) {
          assert r[..|q| - 1] == q[1..];
          ReplaceKeepsCleanPrefix(t[1..], pat, rep, q[1..]);
          assert t[..|q|] == [t[0]] + t[1..][..|q| - 1];
        }
      }
    }
  }

  /** The conditions on a (pattern, replacement) pair under which replacing leaves no pattern behind. */
  predicate SelfClearing(pat: string, rep: string)
  {
    |pat| > 0 && |rep| > 0 && rep[0] == pat[0]
    && pat[0] !in pat[1..] && pat[0] !in rep[1..]
    && !StartsWith(pat, rep) && !StartsWith(rep, pat)
  }

  /** A replacement followed by pattern-free text is pattern-free. */
  lemma NoPatternAfterReplacement(pat: string, rep: string, z: string)
    requires SelfClearing(pat, rep) && !Contains(z, pat)
    ensures !Contains(rep + z, pat)
  {
    NoStartCharNotContains(rep[1..], z, pat);
    assert (rep + z)[1..] == rep[1..] + z;
  }

  /** A copied character followed by the replaced rest is pattern-free. */
  lemma NoPatternAfterCopy(s: string, pat: string, rep: string)
    requires SelfClearing(pat, rep) && s != [] && !StartsWith(s, pat)
    requires !Contains(ReplaceAll(s[1..], pat, rep), pat)
    ensures !Contains([s[0]] + ReplaceAll(s[1..], pat, rep), pat)
  {
    var z := ReplaceAll(s[1..], pat, rep);
    assert ([s[0]] + z)[1..] == z;
    if StartsWith([s[0]] + z, pat) {
      assert StartsWith(z, pat[1..]) by {
        assert ([s[0]] + z)[..|pat|] == pat;
        assert z[..|pat| - 1] == pat[1..];
      }
      ReplaceKeepsCleanPrefix(s[1..], pat, rep, pat[1..]);
    }
  }

  /**
   * After `s.replace(pat, rep)` the pattern no longer occurs, provided the
   * pattern's first character starts `pat` and `rep` and occurs nowhere else
   * in them, and neither of the two is a prefix of the other.
   */
  lemma {:induction false} ReplaceLeavesNoPattern(s: string, pat: string, rep: string)
    requires SelfClearing(pat, rep)
    ensures !Contains(ReplaceAll(s, pat, rep), pat)
    decreases |s|
  {
    if s != [] {
      if StartsWith(s, pat) {
        ReplaceLeavesNoPattern(s[|pat|..], pat, rep);
        NoPatternAfterReplacement(pat, rep, ReplaceAll(s[|pat|..], pat, rep));
      } else {
        ReplaceLeavesNoPattern(s[1..], pat, rep);
        NoPatternAfterCopy(s, pat, rep);
      }
    }
  }

  /** `s.split(sep)` with an explicit one-character separator: never an empty list. */
  function Split(s: string, sep: char): (parts: seq<string>)
    ensures |parts| >= 1
    decreases |s|
  {
    if s == [] then [[]]
    else
      var rest := Split(s[1..], sep);
      if s[0] == sep then [[]] + rest
      else [[s[0]] + rest[0]] + rest[1..]
  }

  /** No part of a split holds the separator. */
  lemma {:induction false} SplitPartsAvoidSep(s: string, sep: char)
    ensures forall k :: 0 <= k < |Split(s, sep)| ==> sep !in Split(s, sep)[k]
    decreases |s|
  {
    if s != [] {
      SplitPartsAvoidSep(s[1..], sep);
      var rest := Split(s[1..], sep);
      if s[0] != sep {
        assert sep !in [s[0]] + rest[0];
        assert Split(s, sep)[1..] == rest[1..];
      } else {
        assert Split(s, sep)[1..] == rest;
      }
    }
  }

  /**
   * `sep.join(parts)`: starts with the first part, and over separator-free
   * parts holds the separator exactly when there are at least two parts.
   */
  function Join(parts: seq<string>, sep: char): (r: string)
    ensures |parts| > 0 ==> StartsWith(r, parts[0])
    ensures (forall k :: 0 <= k < |parts| ==> sep !in parts[k]) ==> (sep in r <==> |parts| >= 2)
    decreases |parts|
  {
    if |parts| == 0 then []
    else if |parts| == 1 then parts[0]
    else parts[0] + [sep] + Join(parts[1..], sep)
  }

  /** Joining the parts of a split with the same separator gives the string back. */
  lemma {:induction false} JoinSplit(s: string, sep: char)
    ensures Join(Split(s, sep), sep) == s
    decreases |s|
  {
    if s != [] {
      var rest := Split(s[1..], sep);
      JoinSplit(s[1..], sep);
      if s[0] == sep {
        assert Split(s, sep)[1..] == rest;
      } else if |rest| == 1 {
        assert Split(s, sep) == [[s[0]] + rest[0]];
      } else {
        var parts := Split(s, sep);
        assert parts[1..] == rest[1..];
        assert Join(parts, sep) == [s[0]] + (rest[0] + [sep] + Join(rest[1..], sep));
      }
    }
  }

  /** A string without the separator splits into itself alone. */
  lemma {:induction false} SplitNoSep(s: string, sep: char)
    requires sep !in s
    ensures Split(s, sep) == [s]
    decreases |s|
  {
    if s != [] {
      SplitNoSep(s[1..], sep);
      assert [s[0]] + s[1..] == s;
    }
  }

  /** Splitting `a + sep + b`, where `a` has no separator, yields `a` followed by the parts of `b`. */
  lemma {:induction false} SplitAtFirst(a: string, sep: char, b: string)
    requires sep !in a
    ensures Split(a + [sep] + b, sep) == [a] + Split(b, sep)
    decreases |a|
  {
    var s := a + [sep] + b;
    if a == [] {
      assert s[1..] == b;
    } else {
      assert s[1..] == a[1..] + [sep] + b;
      SplitAtFirst(a[1..], sep, b);
      assert [a[0]] + a[1..] == a;
    }
  }

  /** A string with exactly one separator splits into the two sides. */
  lemma SplitTwo(a: string, sep: char, b: string)
    requires sep !in a && sep !in b
    ensures Split(a + [sep] + b, sep) == [a, b]
  {
    SplitAtFirst(a, sep, b);
    SplitNoSep(b, sep);
  }

  /** Joining two parts puts one separator between them. */
  lemma JoinTwo(a: string, sep: char, b: string)
    ensures Join([a, b], sep) == a + [sep] + b
  {
    assert Join([a, b], sep) == a + [sep] + Join([b], sep);
  }

  /** Splitting a join of separator-free parts gives the parts back. */
  lemma {:induction false} SplitJoin(parts: seq<string>, sep: char)
    requires |parts| >= 1
    requires forall k :: 0 <= k < |parts| ==> sep !in parts[k]
    ensures Split(Join(parts, sep), sep) == parts
    decreases |parts|
  {
    if |parts| == 1 {
      SplitNoSep(parts[0], sep);
    } else {
      SplitJoin(parts[1..], sep);
      SplitAtFirst(parts[0], sep, Join(parts[1..], sep));
      assert [parts[0]] + parts[1..] == parts;
    }
  }

  /** `list(reversed(xs))` */
  function Reverse<T>(xs: seq<T>): (r: seq<T>)
    ensures |r| == |xs|
    ensures forall i :: 0 <= i < |xs| ==> r[i] == xs[|xs| - 1 - i]
    decreases |xs|
  {
    if xs == [] then [] else [xs[|xs| - 1]] + Reverse(xs[..|xs| - 1])
  }
}
