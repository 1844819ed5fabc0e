/**
 * String primitives the engines rely on, modelled on Python's `str` methods:
 * `lower()`, `split()`, the `in` substring test, and `re.findall` of a
 * character-class run.
 */
module Text {

  /** Python's `str.isspace()`, the characters `str.split()` separates on. */
  predicate IsSpace(c: char) {
    c == ' ' || ('\t' <= c <= '\r') || ('\U{1C}' <= c <= '\U{1F}')
    || c == '\U{85}' || c == '\U{A0}' || c == '\U{1680}'
    || ('\U{2000}' <= c <= '\U{200A}') || c == '\U{2028}' || c == '\U{2029}'
    || c == '\U{202F}' || c == '\U{205F}' || c == '\U{3000}'
  }

  predicate IsWordChar(c: char) { !IsSpace(c) }

  /** `c.lower()` for ASCII, the Latin-1 capitals and the capital sharp s. */
  function LowerChar(c: char): char {
    if 'A' <= c <= 'Z' then (c as int + 32) as char
    else if 'À' <= c <= 'Þ' && c != '×' then (c as int + 32) as char
    else if c == 'ẞ' then 'ß'
    else c
  }

  /** `s.lower()` */
  function Lower(s: string): (r: string)
    ensures |r| == |s|
  {
    seq(|s|, i requires 0 <= i < |s| => LowerChar(s[i]))
  }

  lemma LowerIdempotent(s: string)
    ensures Lower(Lower(s)) == Lower(s)
  {
  }

  lemma LowerSuffix(s: string, n: nat)
    requires n <= |s|
    ensures Lower(s)[n..] == Lower(s[n..])
  {
  }

  /** `sub in s`: `sub` occurs somewhere in `s`. */
  predicate Contains(s: string, sub: string)
    decreases |s|
  {
    sub <= s || (s != [] && Contains(s[1..], sub))
  }

  /** The substring test agrees with its positional reading: an occurrence starts at some index. */
  lemma {:induction false} ContainsAt(s: string, sub: string)
    ensures Contains(s, sub) <==> exists i :: 0 <= i <= |s| && sub <= s[i..]
    decreases |s|
  {
    if sub <= s {
      assert s[0..] == s;
    } else if s == [] {
    } else {
      ContainsAt(s[1..], sub);
      if Contains(s[1..], sub) {
        var i :| 0 <= i <= |s[1..]| && sub <= s[1..][i..];
        assert s[1..][i..] == s[i + 1..];
      }
      if exists i :: 0 <= i <= |s| && sub <= s[i..] {
        var i :| 0 <= i <= |s| && sub <= s[i..];
        assert i != 0;
        assert s[1..][i - 1..] == s[i..];
      }
    }
  }

  /** `any(p in s for p in phrases)` */
  predicate ContainsAny(s: string, phrases: seq<string>) {
    exists k :: 0 <= k < |phrases| && Contains(s, phrases[k])
  }

  /** Length of the run of `inRun` characters at the front of `s`. */
  function RunLength(s: string, inRun: char -> bool): (n: nat)
    ensures n <= |s|
    ensures forall i :: 0 <= i < n ==> inRun(s[i])
    ensures n == |s| || !inRun(s[n])
  {
    if s == [] || !inRun(s[0]) then 0 else 1 + RunLength(s[1..], inRun)
  }

  /**
   * The maximal runs of `inRun` characters of `s`, left to right:
   * `s.split()` for `inRun == IsWordChar`, `re.findall(r"[...]+", s)` for a character class.
   */
  function Runs(s: string, inRun: char -> bool): (r: seq<string>)
    ensures forall k :: 0 <= k < |r| ==> r[k] != [] && forall i :: 0 <= i < |r[k]| ==> inRun(r[k][i])
    decreases |s|
  {
    if s == [] then []
    else if !inRun(s[0]) then Runs(s[1..], inRun)
    else
      var n := RunLength(s, inRun);
      [s[..n]] + Runs(s[n..], inRun)
  }

  lemma {:induction false} RunLengthOfRun(w: string, rest: string, inRun: char -> bool)
    requires forall i :: 0 <= i < |w| ==> inRun(w[i])
    requires rest == [] || !inRun(rest[0])
    ensures RunLength(w + rest, inRun) == |w|
    decreases |w|
  {
    if w == [] {
      assert w + rest == rest;
    } else {
      assert (w + rest)[1..] == w[1..] + rest;
      RunLengthOfRun(w[1..], rest, inRun);
    }
  }

  /**
   * The two equations that determine `Runs` on every string: a separator is
   * dropped, and a run that ends at a separator (or at the end) is one token.
   */
  lemma {:induction false} RunsEquations(c: char, w: string, rest: string, inRun: char -> bool)
    requires w != [] && forall i :: 0 <= i < |w| ==> inRun(w[i])
    requires rest == [] || !inRun(rest[0])
    ensures !inRun(c) ==> Runs([c] + rest, inRun) == Runs(rest, inRun)
    ensures Runs(w + rest, inRun) == [w] + Runs(rest, inRun)
  {
    assert ([c] + rest)[1..] == rest;
    RunLengthOfRun(w, rest, inRun);
    assert (w + rest)[..|w|] == w;
    assert (w + rest)[|w|..] == rest;
  }

  /** The characters of `s` that satisfy `inRun`, in order. */
  function Keep(s: string, inRun: char -> bool): string
    decreases |s|
  {
    if s == [] then [] else (if inRun(s[0]) then [s[0]] else []) + Keep(s[1..], inRun)
  }

  /** The tokens written one after the other. */
  function Flatten(ts: seq<string>): string
    decreases |ts|
  {
    if ts == [] then [] else ts[0] + Flatten(ts[1..])
  }

  lemma {:induction false} KeepAppend(a: string, b: string, inRun: char -> bool)
    ensures Keep(a + b, inRun) == Keep(a, inRun) + Keep(b, inRun)
    decreases |a|
  {
    if a == [] {
      assert a + b == b;
    } else {
      assert (a + b)[1..] == a[1..] + b;
      KeepAppend(a[1..], b, inRun);
    }
  }

  lemma {:induction false} KeepAll(a: string, inRun: char -> bool)
    requires forall i :: 0 <= i < |a| ==> inRun(a[i])
    ensures Keep(a, inRun) == a
    decreases |a|
  {
    if a != [] {
      KeepAll(a[1..], inRun);
    }
  }

  /** No character of a run is lost or reordered: the tokens together are exactly the run characters of `s`. */
  lemma {:induction false} RunsKeepEverything(s: string, inRun: char -> bool)
    ensures Flatten(Runs(s, inRun)) == Keep(s, inRun)
    decreases |s|
  {
    if s != [] {
      if !inRun(s[0]) {
        RunsKeepEverything(s[1..], inRun);
      } else {
        var n := RunLength(s, inRun);
        var r := Runs(s, inRun);
        assert r == [s[..n]] + Runs(s[n..], inRun);
        assert r[1..] == Runs(s[n..], inRun);
        RunsKeepEverything(s[n..], inRun);
        assert s == s[..n] + s[n..];
        KeepAppend(s[..n], s[n..], inRun);
        KeepAll(s[..n], inRun);
      }
    }
  }

  /** `s.split()`: the whitespace-separated words of `s`. */
  function Words(s: string): seq<string> {
    Runs(s, IsWordChar)
  }

  lemma {:induction false} RunLengthLower(s: string)
    ensures RunLength(Lower(s), IsWordChar) == RunLength(s, IsWordChar)
    decreases |s|
  {
    if s != [] {
      LowerSuffix(s, 1);
      RunLengthLower(s[1..]);
    }
  }

  /** Lower-casing moves no word boundary: `len(s.lower().split()) == len(s.split())`. */
  lemma {:induction false} WordCountLower(s: string)
    ensures |Words(Lower(s))| == |Words(s)|
    decreases |s|
  {
    if s != [] {
      if !IsWordChar(s[0]) {
        LowerSuffix(s, 1);
        WordCountLower(s[1..]);
      } else {
        var n := RunLength(s, IsWordChar);
        RunLengthLower(s);
        LowerSuffix(s, n);
        WordCountLower(s[n..]);
      }
    }
  }
}
