/**
 * String handling shared by both crawlers: whitespace classes, trimming,
 * collapsing runs of one character (Go's `regexp.ReplaceAllString` with the
 * patterns `\n+` and ` +`), Go's `cleanText`, and Python's `str.join`.
 */
module Strings {

  /** The two whitespace classes the sources rely on. */
  datatype Spaces =
    | GoSpaces   // Go's unicode.IsSpace, used by strings.TrimSpace
    | PySpaces   // Python's str.isspace, used by str.strip
  {
    predicate Has(c: char) {
      var n := c as int;
      || 0x09 <= n <= 0x0D
      || n == 0x20 || n == 0x85 || n == 0xA0 || n == 0x1680
      || 0x2000 <= n <= 0x200A
      || n == 0x2028 || n == 0x2029 || n == 0x202F || n == 0x205F || n == 0x3000
      || (this == PySpaces && 0x1C <= n <= 0x1F)
    }
  }

  /** `pre` is a prefix of `s` (Go's strings.HasPrefix). */
  predicate HasPrefix(s: string, pre: string) {
    |pre| <= |s| && s[..|pre|] == pre
  }

  /** `suf` is a suffix of `s` (Go's strings.HasSuffix). */
  predicate HasSuffix(s: string, suf: string) {
    |suf| <= |s| && s[|s| - |suf|..] == suf
  }

  /** `pat` occurs somewhere in `s` as a contiguous substring. */
  predicate Contains(s: string, pat: string) {
    exists i :: 0 <= i <= |s| - |pat| && OccursAt(s, pat, i)
  }

  /** `pat` occurs in `s` starting at index `i`. */
  predicate OccursAt(s: string, pat: string, i: nat)
    requires i + |pat| <= |s|
  {
    s[i..i + |pat|] == pat
  }

  // ---------------------------------------------------------------------
  // Trimming
  // ---------------------------------------------------------------------

  /** The number of whitespace characters at the start of `s`. */
  function LeadingCount(s: string, ws: Spaces): (n: nat)
    ensures n <= |s|
    ensures forall k :: 0 <= k < n ==> ws.Has(s[k])
    ensures n < |s| ==> !ws.Has(s[n])
  {
    if |s| > 0 && ws.Has(s[0]) then 1 + LeadingCount(s[1..], ws) else 0
  }

  /** The number of whitespace characters at the end of `s`. */
  function TrailingCount(s: string, ws: Spaces): (n: nat)
    ensures n <= |s|
    ensures forall k :: |s| - n <= k < |s| ==> ws.Has(s[k])
    ensures n < |s| ==> !ws.Has(s[|s| - 1 - n])
  {
    if |s| > 0 && ws.Has(s[|s| - 1]) then 1 + TrailingCount(s[..|s| - 1], ws) else 0
  }

  /**
   * `s` without its leading and trailing whitespace: the slice that starts
   * after the leading whitespace and is followed only by whitespace.
   */
  function Trim(s: string, ws: Spaces): (r: string)
    ensures |r| <= |s|
    ensures r == [] <==> forall k :: 0 <= k < |s| ==> ws.Has(s[k])
    ensures r != [] ==> !ws.Has(r[0]) && !ws.Has(r[|r| - 1])
    ensures LeadingCount(s, ws) + |r| <= |s|
    ensures r == s[LeadingCount(s, ws)..LeadingCount(s, ws) + |r|]
    ensures forall k :: LeadingCount(s, ws) + |r| <= k < |s| ==> ws.Has(s[k])
  {
    var a := LeadingCount(s, ws);
    var t := s[a..];
    var r := t[..|t| - TrailingCount(t, ws)];
    assert r != [] ==> r[0] == s[a];
    r
  }

  /** Go's strings.TrimSpace. */
  function TrimSpace(s: string): string {
    Trim(s, GoSpaces)
  }

  /** Python's str.strip() with no argument. */
  function Strip(s: string): string {
    Trim(s, PySpaces)
  }

  /** Trimming a trimmed string changes nothing. */
  lemma TrimIdempotent(s: string, ws: Spaces)
    ensures Trim(Trim(s, ws), ws) == Trim(s, ws)
  {
    var r := Trim(s, ws);
    assert LeadingCount(r, ws) == 0;
    assert TrailingCount(r, ws) == 0;
  }

  // ---------------------------------------------------------------------
  // Collapsing runs
  // ---------------------------------------------------------------------

  /**
   * `s` with every maximal run of `c` replaced by a single `c`: what Go's
   * `regexp.MustCompile("c+").ReplaceAllString(s, "c")` computes, since the
   * greedy, leftmost matches of `c+` are exactly the maximal runs. A `c`
   * is dropped when the next character is also `c`.
   */
  function Collapse(s: string, c: char): (r: string)
    ensures |r| <= |s|
    ensures |s| > 0 ==> |r| > 0 && r[0] == s[0]
    decreases |s|
  {
    if |s| <= 1 then s
    else if s[0] == c && s[1] == c then Collapse(s[1..], c)
    else [s[0]] + Collapse(s[1..], c)
  }

  /** No two adjacent characters of `s` are both `c`. */
  predicate NoRun(s: string, c: char) {
    forall i :: 0 <= i < |s| - 1 ==> !(s[i] == c && s[i + 1] == c)
  }

  /** The characters of `s` other than blanks and newlines, in order. */
  function Content(s: string): string {
    if s == [] then []
    else (if s[0] == ' ' || s[0] == '\n' then [] else [s[0]]) + Content(s[1..])
  }

  /** Collapsing keeps the last character. */
  lemma {:induction false} CollapseEnds(s: string, c: char)
    ensures |s| > 0 ==> Collapse(s, c)[|Collapse(s, c)| - 1] == s[|s| - 1]
    decreases |s|
  {
    if |s| > 1 {
      CollapseEnds(s[1..], c);
    }
  }

  /** After collapsing, `c` never follows `c`. */
  lemma {:induction false} CollapseNoRun(s: string, c: char)
    ensures NoRun(Collapse(s, c), c)
    decreases |s|
  {
    if |s| > 1 {
      CollapseNoRun(s[1..], c);
    }
  }

  /** A string without runs of `c` is left unchanged. */
  lemma {:induction false} CollapseFixed(s: string, c: char)
    requires NoRun(s, c)
    ensures Collapse(s, c) == s
    decreases |s|
  {
    if |s| > 1 {
      assert !(s[0] == c && s[1] == c);
      assert NoRun(s[1..], c) by {
        forall i | 0 <= i < |s[1..]| - 1
          ensures !(s[1..][i] == c && s[1..][i + 1] == c)
        {
          assert s[1..][i] == s[i + 1] && s[1..][i + 1] == s[i + 2];
        }
      }
      CollapseFixed(s[1..], c);
      assert [s[0]] + s[1..] == s;
    }
  }

  /** Collapsing runs of `c` creates no run of another character `a`. */
  lemma {:induction false} CollapseKeepsNoRun(s: string, c: char, a: char)
    requires a != c
    requires NoRun(s, a)
    ensures NoRun(Collapse(s, c), a)
    decreases |s|
  {
    if |s| > 1 {
      assert NoRun(s[1..], a) by {
        forall i | 0 <= i < |s[1..]| - 1
          ensures !(s[1..][i] == a && s[1..][i + 1] == a)
        {
          assert s[1..][i] == s[i + 1] && s[1..][i + 1] == s[i + 2];
        }
      }
      CollapseKeepsNoRun(s[1..], c, a);
      assert !(s[0] == a && s[1] == a);
    }
  }

  /** Collapsing blanks or newlines removes nothing but blanks or newlines. */
  lemma {:induction false} CollapseContent(s: string, c: char)
    requires c == ' ' || c == '\n'
    ensures Content(Collapse(s, c)) == Content(s)
    decreases |s|
  {
    if |s| > 1 {
      CollapseContent(s[1..], c);
      if !(s[0] == c && s[1] == c) {
        var r := [s[0]] + Collapse(s[1..], c);
        assert r[1..] == Collapse(s[1..], c);
      }
    }
  }

  /** A string without runs of `c` does not contain the two-character string `cc`. */
  lemma NoRunNoPair(s: string, c: char)
    requires NoRun(s, c)
    ensures !Contains(s, [c, c])
  {
    forall i | 0 <= i <= |s| - 2
      ensures !OccursAt(s, [c, c], i)
    {
      assert s[i..i + 2][0] == s[i] && s[i..i + 2][1] == s[i + 1];
    }
  }

  /** Concatenation is associative. */
  lemma ConcatAssoc<T>(a: seq<T>, b: seq<T>, c: seq<T>)
    ensures a + b + c == a + (b + c)
  {
  }

  /** Collapsing distributes over a concatenation whose seam is not inside a run of `c`. */
  lemma {:induction false} CollapseAppend(x: string, z: string, c: char)
    requires x == [] || z == [] || !(x[|x| - 1] == c && z[0] == c)
    ensures Collapse(x + z, c) == Collapse(x, c) + Collapse(z, c)
    decreases |x|
  {
    if x == [] {
      assert x + z == z;
    } else if z == [] {
      assert x + z == x;
    } else if |x| == 1 {
      assert (x + z)[0] == x[0] && (x + z)[1] == z[0];
      assert (x + z)[1..] == z;
      assert Collapse(x + z, c) == [x[0]] + Collapse(z, c);
    } else {
      assert (x + z)[0] == x[0] && (x + z)[1] == x[1];
      assert (x + z)[1..] == x[1..] + z;
      CollapseAppend(x[1..], z, c);
    }
  }

  /** A non-empty run of `c` in front of text not starting with `c` becomes one `c`. */
  lemma {:induction false} CollapseRunFront(w: string, y: string, c: char)
    requires w != [] && forall k :: 0 <= k < |w| ==> w[k] == c
    requires y == [] || y[0] != c
    ensures Collapse(w + y, c) == [c] + Collapse(y, c)
    decreases |w|
  {
    if |w| == 1 {
      assert (w + y)[1..] == y;
    } else {
      assert (w + y)[1..] == w[1..] + y;
      CollapseRunFront(w[1..], y, c);
    }
  }

  /**
   * The replacement of `c+` by `c`: a maximal run of `c` (non-empty, with
   * no `c` just before or just after it) becomes exactly one `c`, and the
   * text on either side is collapsed on its own.
   */
  lemma CollapseRun(x: string, w: string, y: string, c: char)
    requires w != [] && forall k :: 0 <= k < |w| ==> w[k] == c
    requires x == [] || x[|x| - 1] != c
    requires y == [] || y[0] != c
    ensures Collapse(x + w + y, c) == Collapse(x, c) + [c] + Collapse(y, c)
  {
    CollapseAppend(x, w + y, c);
    CollapseRunFront(w, y, c);
    ConcatAssoc(x, w, y);
    ConcatAssoc(Collapse(x, c), [c], Collapse(y, c));
  }

  // ---------------------------------------------------------------------
  // cleanText (go_solution/main.go:103-108)
  // ---------------------------------------------------------------------

  /**
   * Trim, then squeeze runs of newlines, then runs of blanks; every
   * character of the trimmed input other than blanks and newlines is kept,
   * in order.
   */
  function CleanText(input: string): (r: string)
    ensures Content(r) == Content(TrimSpace(input))
  {
    var t := TrimSpace(input);
    var u := Collapse(t, '\n');
    CollapseContent(t, '\n');
    CollapseContent(u, ' ');
    Collapse(u, ' ')
  }

  /**
   * The cleaned text has no surrounding whitespace, no run of newlines or
   * of blanks (so no blank line `"\n\n"` and no double blank `"  "`), and
   * is empty exactly when the trimmed input is.
   */
  lemma CleanTextShape(input: string)
    ensures var r := CleanText(input);
      && (r != [] ==> !GoSpaces.Has(r[0]) && !GoSpaces.Has(r[|r| - 1]))
      && !Contains(r, "\n\n")
      && !Contains(r, "  ")
      && NoRun(r, '\n') && NoRun(r, ' ')
      && (r == [] <==> TrimSpace(input) == [])
  {
    var t := TrimSpace(input);
    var u := Collapse(t, '\n');
    var r := Collapse(u, ' ');
    assert r == CleanText(input);
    CollapseEnds(t, '\n');
    CollapseEnds(u, ' ');
    CollapseNoRun(t, '\n');
    CollapseKeepsNoRun(u, ' ', '\n');
    CollapseNoRun(u, ' ');
    NoRunNoPair(r, '\n');
    NoRunNoPair(r, ' ');
  }

  /** Cleaning is idempotent. */
  lemma CleanTextIdempotent(input: string)
    ensures CleanText(CleanText(input)) == CleanText(input)
  {
    var r := CleanText(input);
    CleanTextShape(input);
    assert LeadingCount(r, GoSpaces) == 0;
    assert TrailingCount(r, GoSpaces) == 0;
    assert TrimSpace(r) == r;
    CollapseFixed(r, '\n');
    CollapseFixed(r, ' ');
  }

  /** A run of three newlines between two words becomes one: `"a\n\n\nb"` cleans to `"a\nb"`. */
  lemma CleanTextNewlines()
    ensures CleanText("a\n\n\nb") == "a\nb"
  {
    var s := "a\n\n\nb";
    assert LeadingCount(s, GoSpaces) == 0 && TrailingCount(s, GoSpaces) == 0;
    assert TrimSpace(s) == s;
    assert s[1..] == "\n\n\nb" && s[1..][1..] == "\n\nb" && s[1..][1..][1..] == "\nb";
    assert "\nb"[1..] == "b";
    assert Collapse("\nb", '\n') == "\nb";
    assert Collapse(s, '\n') == "a\nb";
    assert "a\nb"[1..] == "\nb";
    assert Collapse("\nb", ' ') == "\nb";
  }

  /** A run of three blanks between two words becomes one: `"a   b"` cleans to `"a b"`. */
  lemma CleanTextBlanks()
    ensures CleanText("a   b") == "a b"
  {
    var s := "a   b";
    assert LeadingCount(s, GoSpaces) == 0 && TrailingCount(s, GoSpaces) == 0;
    assert TrimSpace(s) == s;
    assert s[1..] == "   b" && s[1..][1..] == "  b" && s[1..][1..][1..] == " b";
    assert " b"[1..] == "b";
    assert Collapse(" b", '\n') == " b";
    assert Collapse("  b", '\n') == "  b";
    assert Collapse("   b", '\n') == "   b";
    assert Collapse(s, '\n') == s;
    assert Collapse(" b", ' ') == " b";
    assert Collapse(s, ' ') == "a b";
  }

  /** A string in which `c` does not occur has no run of `c`. */
  lemma NoRunAbsent(s: string, c: char)
    requires forall k :: 0 <= k < |s| ==> s[k] != c
    ensures NoRun(s, c)
  {
  }

  /** A string that neither starts nor ends with whitespace is its own trim. */
  lemma TrimSpaceFixed(s: string)
    requires s != [] && !GoSpaces.Has(s[0]) && !GoSpaces.Has(s[|s| - 1])
    ensures TrimSpace(s) == s
  {
    var r := TrimSpace(s);
    assert LeadingCount(s, GoSpaces) == 0;
    assert |r| == |s|;
  }

  /** A character absent from each of three strings is absent from their concatenation. */
  lemma AbsentConcat(x: string, w: string, y: string, c: char)
    requires forall k :: 0 <= k < |x| ==> x[k] != c
    requires forall k :: 0 <= k < |w| ==> w[k] != c
    requires forall k :: 0 <= k < |y| ==> y[k] != c
    ensures forall k :: 0 <= k < |x + w + y| ==> (x + w + y)[k] != c
  {
  }

  /** Collapsing runs of a character the string does not contain changes nothing. */
  lemma CollapseAbsent(s: string, c: char)
    requires forall k :: 0 <= k < |s| ==> s[k] != c
    ensures Collapse(s, c) == s
  {
    NoRunAbsent(s, c);
    CollapseFixed(s, c);
  }

  /** Between two words without `c`, a run of `c` becomes one `c` and nothing else changes. */
  lemma CollapseRunBetween(x: string, w: string, y: string, c: char)
    requires x != [] && y != []
    requires forall k :: 0 <= k < |x| ==> x[k] != c
    requires forall k :: 0 <= k < |y| ==> y[k] != c
    requires w != [] && forall k :: 0 <= k < |w| ==> w[k] == c
    ensures Collapse(x + w + y, c) == x + [c] + y
  {
    CollapseAbsent(x, c);
    CollapseAbsent(y, c);
    CollapseRun(x, w, y, c);
  }

  /**
   * Between two whitespace-free words, any run of newlines becomes one
   * newline and any run of blanks one blank.
   */
  lemma CleanTextRun(x: string, w: string, y: string, c: char)
    requires x != [] && y != []
    requires forall k :: 0 <= k < |x| ==> !GoSpaces.Has(x[k])
    requires forall k :: 0 <= k < |y| ==> !GoSpaces.Has(y[k])
    requires c == '\n' || c == ' '
    requires w != [] && forall k :: 0 <= k < |w| ==> w[k] == c
    ensures CleanText(x + w + y) == x + [c] + y
  {
    var s, r := x + w + y, x + [c] + y;
    assert s[0] == x[0] && s[|s| - 1] == y[|y| - 1];
    TrimSpaceFixed(s);
    assert GoSpaces.Has('\n') && GoSpaces.Has(' ');
    CollapseRunBetween(x, w, y, c);
    if c == '\n' {
      AbsentConcat(x, [c], y, ' ');
      CollapseAbsent(r, ' ');
      assert CleanText(s) == Collapse(r, ' ');
    } else {
      AbsentConcat(x, w, y, '\n');
      CollapseAbsent(s, '\n');
      assert CleanText(s) == Collapse(s, ' ');
    }
  }

  // ---------------------------------------------------------------------
  // Python's sep.join(parts) and its inverse
  // ---------------------------------------------------------------------

  /** `sep.join(parts)`: the parts with one `sep` between neighbours. */
  function Join(parts: seq<string>, sep: string): string {
    if |parts| == 0 then ""
    else if |parts| == 1 then parts[0]
    else Join(parts[..|parts| - 1], sep) + sep + parts[|parts| - 1]
  }

  /** `s.split(c)` for one character `c`: the pieces between occurrences of `c`. */
  function Split(s: string, c: char): (r: seq<string>)
    ensures |r| > 0
  {
    if s == [] then [""]
    else
      var rest := Split(s[1..], c);
      if s[0] == c then [""] + rest else [[s[0]] + rest[0]] + rest[1..]
  }

  /** Splitting `x + [c] + y` splits at that `c` when `x` holds no `c`. */
  lemma {:induction false} SplitAt(x: string, y: string, c: char)
    requires c !in x
    ensures Split(x + [c] + y, c) == [x] + Split(y, c)
    decreases |x|
  {
    if x == [] {
      assert x + [c] + y == [c] + y;
      assert ([c] + y)[1..] == y;
    } else {
      SplitAt(x[1..], y, c);
      assert (x + [c] + y)[1..] == x[1..] + [c] + y;
      assert [x[0]] + x[1..] == x;
    }
  }

  /** A `c`-free string splits into itself. */
  lemma {:induction false} SplitNone(x: string, c: char)
    requires c !in x
    ensures Split(x, c) == [x]
    decreases |x|
  {
    if x != [] {
      SplitNone(x[1..], c);
      assert [x[0]] + x[1..] == x;
    }
  }

  /** Joining with a newline and splitting at newlines gives the parts back, when no part holds a newline. */
  lemma {:induction false} SplitJoin(parts: seq<string>)
    requires |parts| > 0
    requires forall i :: 0 <= i < |parts| ==> '\n' !in parts[i]
    ensures Split(Join(parts, "\n"), '\n') == parts
    decreases |parts|
  {
    if |parts| == 1 {
      SplitNone(parts[0], '\n');
    } else {
      JoinFront(parts, "\n");
      SplitAt(parts[0], Join(parts[1..], "\n"), '\n');
      SplitJoin(parts[1..]);
      assert [parts[0]] + parts[1..] == parts;
    }
  }

  /** Join seen from the front: the first part, a separator, then the rest joined. */
  lemma {:induction false} JoinFront(parts: seq<string>, sep: string)
    requires |parts| > 1
    ensures Join(parts, sep) == parts[0] + sep + Join(parts[1..], sep)
    decreases |parts|
  {
    if |parts| > 2 {
      var init, rest := parts[..|parts| - 1], parts[1..];
      JoinFront(init, sep);
      assert init[1..] == rest[..|rest| - 1];
      assert init[0] == parts[0] && rest[|rest| - 1] == parts[|parts| - 1];
      assert Join(rest, sep) == Join(init[1..], sep) + sep + parts[|parts| - 1];
      assert Join(parts, sep) == (parts[0] + sep + Join(init[1..], sep)) + sep + parts[|parts| - 1];
    } else {
      assert parts[1..] == [parts[1]];
    }
  }
}
