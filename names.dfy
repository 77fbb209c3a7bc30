/**
 * File and folder names derived from addresses: the saved image name
 * (Go's downloadImage, Python's download_image) and the per-domain folder
 * (Go's getDomainFolder, Python's get_domain_folder).
 */
module Names {
  import opened Wrappers
  import opened Strings

  /** A word character of the regular expression `\w`, taken as ASCII `[0-9A-Za-z_]`. */
  predicate IsWordChar(c: char) {
    ('0' <= c <= '9') || ('A' <= c <= 'Z') || ('a' <= c <= 'z') || c == '_'
  }

  /** A letter or digit: a word character other than `_`. */
  predicate IsAlnum(c: char) {
    IsWordChar(c) && c != '_'
  }

  /** A character the pattern `[^\w\.]` leaves alone. */
  predicate IsNameChar(c: char) {
    IsWordChar(c) || c == '.'
  }

  // ---------------------------------------------------------------------
  // Base names
  // ---------------------------------------------------------------------

  /** The part of `s` after its last `/` (all of `s` when it has none). */
  function AfterLastSlash(s: string): (r: string)
    ensures |r| <= |s| && r == s[|s| - |r|..]
    ensures '/' !in r
    ensures |r| < |s| ==> s[|s| - |r| - 1] == '/'
  {
    if s == [] then []
    else if s[|s| - 1] == '/' then []
    else AfterLastSlash(s[..|s| - 1]) + [s[|s| - 1]]
  }

  /** `s` without its trailing slashes. */
  function DropTrailingSlashes(s: string): (r: string)
    ensures |r| <= |s| && r == s[..|r|]
    ensures forall k :: |r| <= k < |s| ==> s[k] == '/'
    ensures r != [] ==> r[|r| - 1] != '/'
  {
    if s != [] && s[|s| - 1] == '/' then DropTrailingSlashes(s[..|s| - 1]) else s
  }

  /**
   * Go's filepath.Base on a slash-separated path: "." for the empty path,
   * "/" for a path of slashes only, otherwise the last element once
   * trailing slashes are removed.
   */
  function GoBase(path: string): (r: string)
    ensures r != []
    ensures '/' in r ==> r == "/"
    ensures path == [] ==> r == "."
  {
    if path == [] then "."
    else
      var trimmed := DropTrailingSlashes(path);
      if trimmed == [] then "/" else AfterLastSlash(trimmed)
  }

  /** Python's os.path.basename: the slash-free tail of the path that follows its last `/`, or all of it. */
  function PyBasename(path: string): (r: string)
    ensures |r| <= |path| && '/' !in r && r == path[|path| - |r|..]
    ensures |r| < |path| ==> path[|path| - |r| - 1] == '/'
  {
    AfterLastSlash(path)
  }

  /** `s.split(c)[0]`: the part of `s` before its first `c`. */
  function BeforeFirst(s: string, c: char): (r: string)
    ensures |r| <= |s| && r == s[..|r|]
    ensures c !in r
    ensures |r| < |s| ==> s[|r|] == c
  {
    if s == [] || s[0] == c then [] else [s[0]] + BeforeFirst(s[1..], c)
  }

  // ---------------------------------------------------------------------
  // Image names (go_solution/main.go:44, 61-62; main.py:30-31)
  // ---------------------------------------------------------------------

  /** `re.sub(r"[^\w\.]", "_", name)`: every other character becomes `_`, one for one. */
  function SanitizeName(name: string): (r: string)
    ensures |r| == |name|
    ensures forall i :: 0 <= i < |r| ==> IsNameChar(r[i])
    ensures forall i :: 0 <= i < |r| ==> IsNameChar(name[i]) ==> r[i] == name[i]
    ensures forall i :: 0 <= i < |r| ==> !IsNameChar(name[i]) ==> r[i] == '_'
  {
    if name == [] then []
    else SanitizeName(name[..|name| - 1]) + [if IsNameChar(name[|name| - 1]) then name[|name| - 1] else '_']
  }

  /** Sanitising a sanitised name changes nothing. */
  lemma SanitizeNameIdempotent(name: string)
    ensures SanitizeName(SanitizeName(name)) == SanitizeName(name)
  {
  }

  /**
   * The file name Go's downloadImage saves an image under, or None when it
   * skips the address because it ends in ".svg".
   */
  function GoImageFile(imgUrl: string): (r: Option<string>)
    ensures r == None <==> HasSuffix(imgUrl, ".svg")
    ensures r.Some? ==> |r.value| > 0 && forall i :: 0 <= i < |r.value| ==> IsNameChar(r.value[i])
  {
    if HasSuffix(imgUrl, ".svg") then None else Some(SanitizeName(GoBase(imgUrl)))
  }

  /** The file name Python's download_image saves an image under (there is no SVG skip). */
  function PyImageFile(imgUrl: string): (r: string)
    ensures forall i :: 0 <= i < |r| ==> IsNameChar(r[i])
  {
    SanitizeName(PyBasename(BeforeFirst(imgUrl, '?')))
  }

  /** The part after the last slash of `x/y` is `y` when `y` holds no slash. */
  lemma {:induction false} AfterLastSlashAppend(x: string, y: string)
    requires '/' !in y
    ensures AfterLastSlash(x + "/" + y) == y
    decreases |y|
  {
    if y == [] {
      assert (x + "/" + y)[|x + "/" + y| - 1] == '/';
    } else {
      var s := x + "/" + y;
      assert s[..|s| - 1] == x + "/" + y[..|y| - 1];
      AfterLastSlashAppend(x, y[..|y| - 1]);
      assert y[..|y| - 1] + [y[|y| - 1]] == y;
    }
  }

  /**
   * Go names an image after the sanitised last path element, query
   * included: for `x/y` with `y` non-empty and slash-free, the name is
   * SanitizeName(y) unless the address ends in ".svg" (so `a.png?v=1` is
   * saved as `a.png_v_1`).
   */
  lemma GoImageFileOfPath(x: string, y: string)
    requires '/' !in y && y != []
    ensures GoImageFile(x + "/" + y) == if HasSuffix(x + "/" + y, ".svg") then None else Some(SanitizeName(y))
  {
    var u := x + "/" + y;
    assert u[|u| - 1] == y[|y| - 1];
    assert DropTrailingSlashes(u) == u;
    AfterLastSlashAppend(x, y);
  }

  /** The part before the first `?` of `u?q` is `u` when `u` holds no `?`. */
  lemma {:induction false} BeforeFirstAppend(u: string, q: string)
    requires '?' !in u
    ensures BeforeFirst(u + "?" + q, '?') == u
    decreases |u|
  {
    if u == [] {
      assert (u + "?" + q)[0] == '?';
    } else {
      assert (u + "?" + q)[1..] == u[1..] + "?" + q;
      BeforeFirstAppend(u[1..], q);
      assert [u[0]] + u[1..] == u;
    }
  }

  /** Python drops the query: the name of `u?q` is the name of `u` for a query-free `u`. */
  lemma PyImageFileIgnoresQuery(u: string, q: string)
    requires '?' !in u
    ensures PyImageFile(u + "?" + q) == PyImageFile(u)
  {
    BeforeFirstAppend(u, q);
    BeforeFirstAppend(u, "");
    assert BeforeFirst(u, '?') == u by {
      assert BeforeFirst(u + "?", '?') == u;
      if BeforeFirst(u, '?') != u {
        BeforeFirstNone(u);
      }
    }
  }

  /** A string without `?` is its own part before the first `?`. */
  lemma {:induction false} BeforeFirstNone(s: string)
    requires '?' !in s
    ensures BeforeFirst(s, '?') == s
    decreases |s|
  {
    if s != [] {
      BeforeFirstNone(s[1..]);
      assert [s[0]] + s[1..] == s;
    }
  }

  /** An image address ending in "/" gets the empty name in Python: the name of the image folder itself. */
  lemma PyImageFileEmpty(u: string)
    requires '?' !in u
    ensures PyImageFile(u + "/") == ""
  {
    BeforeFirstNone(u + "/");
  }

  // ---------------------------------------------------------------------
  // Domain folders (go_solution/main.go:35-36; main.py:16-17)
  // ---------------------------------------------------------------------

  /**
   * `regexp.MustCompile("[^\w]+").ReplaceAllString(s, "_")`: every maximal
   * run of non-word characters becomes one `_`. A non-word character
   * followed by another one is dropped; a last one of a run becomes `_`.
   */
  function DomainLabel(s: string): (r: string)
    ensures |r| <= |s|
    ensures forall i :: 0 <= i < |r| ==> IsWordChar(r[i])
    decreases |s|
  {
    if s == [] then []
    else if |s| >= 2 && !IsWordChar(s[0]) && !IsWordChar(s[1]) then DomainLabel(s[1..])
    else [if IsWordChar(s[0]) then s[0] else '_'] + DomainLabel(s[1..])
  }

  /** The letters and digits of `s`, in order. */
  function Alnums(s: string): string {
    if s == [] then [] else (if IsAlnum(s[0]) then [s[0]] else []) + Alnums(s[1..])
  }

  /** The label is empty only for the empty input, and keeps the input's letters and digits in order. */
  lemma {:induction false} DomainLabelShape(s: string)
    ensures var r := DomainLabel(s);
      && (r == [] <==> s == [])
      && Alnums(r) == Alnums(s)
    decreases |s|
  {
    if s != [] {
      DomainLabelShape(s[1..]);
      var r := DomainLabel(s);
      if !(|s| >= 2 && !IsWordChar(s[0]) && !IsWordChar(s[1])) {
        assert r[1..] == DomainLabel(s[1..]);
      }
    }
  }

  /** A label made of word characters only is its own label; in particular labelling is idempotent. */
  lemma {:induction false} DomainLabelFixed(s: string)
    requires forall i :: 0 <= i < |s| ==> IsWordChar(s[i])
    ensures DomainLabel(s) == s
    decreases |s|
  {
    if s != [] {
      DomainLabelFixed(s[1..]);
      assert [s[0]] + s[1..] == s;
    }
  }

  /** Labelling distributes over a concatenation whose seam is not inside a run of non-word characters. */
  lemma {:induction false} DomainLabelAppend(x: string, z: string)
    requires x == [] || z == [] || IsWordChar(x[|x| - 1]) || IsWordChar(z[0])
    ensures DomainLabel(x + z) == DomainLabel(x) + DomainLabel(z)
    decreases |x|
  {
    if x == [] {
      assert x + z == z;
    } else if z == [] {
      assert x + z == x;
    } else if |x| == 1 {
      assert (x + z)[0] == x[0] && (x + z)[1] == z[0];
      assert (x + z)[1..] == z;
    } else {
      assert (x + z)[0] == x[0] && (x + z)[1] == x[1];
      assert (x + z)[1..] == x[1..] + z;
      DomainLabelAppend(x[1..], z);
    }
  }

  /** A non-empty run of non-word characters in front of a word character, or of nothing, becomes one `_`. */
  lemma {:induction false} DomainLabelRunFront(w: string, y: string)
    requires w != [] && forall k :: 0 <= k < |w| ==> !IsWordChar(w[k])
    requires y == [] || IsWordChar(y[0])
    ensures DomainLabel(w + y) == "_" + DomainLabel(y)
    decreases |w|
  {
    if |w| == 1 {
      assert (w + y)[1..] == y;
    } else {
      assert (w + y)[1..] == w[1..] + y;
      DomainLabelRunFront(w[1..], y);
    }
  }

  /**
   * The replacement of `[^\w]+` by `_`: a maximal run of non-word
   * characters (non-empty, with a word character or nothing on either side)
   * becomes exactly one `_`, and each side is labelled on its own.
   */
  lemma DomainLabelRun(x: string, w: string, y: string)
    requires w != [] && forall k :: 0 <= k < |w| ==> !IsWordChar(w[k])
    requires x == [] || IsWordChar(x[|x| - 1])
    requires y == [] || IsWordChar(y[0])
    ensures DomainLabel(x + w + y) == DomainLabel(x) + "_" + DomainLabel(y)
  {
    DomainLabelRunFront(w, y);
    DomainLabelAppend(x, w + y);
    ConcatAssoc(x, w, y);
    ConcatAssoc(DomainLabel(x), "_", DomainLabel(y));
  }

  /** `"a?!b"` is labelled `"a_b"`, where the image-name sanitiser, replacing one for one, gives `"a__b"`. */
  lemma DomainLabelExample()
    ensures DomainLabel("a?!b") == "a_b"
    ensures SanitizeName("a?!b") == "a__b"
  {
    DomainLabelRun("a", "?!", "b");
    DomainLabelFixed("a");
    DomainLabelFixed("b");
    assert "a" + "?!" + "b" == "a?!b";
  }

  /**
   * Go's getDomainFolder without the directory creation: the registrable
   * domain (EffectiveTLDPlusOne, given as `etld`) is labelled and joined
   * under "data" with filepath.Join, which drops an empty element.
   */
  function GoDomainFolder(etld: string -> Option<string>, url: string): (r: Result<string, string>)
    ensures etld(url).None? <==> r.Err?
    ensures r.Ok? ==> var folderName := DomainLabel(etld(url).value);
      r.value == if folderName == [] then "data" else "data/" + folderName
  {
    match etld(url)
    case None => Err("EffectiveTLDPlusOne failed for " + url)
    case Some(d) => (var folderName := DomainLabel(d); Ok(if folderName == [] then "data" else "data/" + folderName))
  }

  /** `s.replace(a, b)` for single characters. */
  function ReplaceChar(s: string, a: char, b: char): (r: string)
    ensures |r| == |s|
    ensures forall i :: 0 <= i < |s| ==> r[i] == if s[i] == a then b else s[i]
  {
    if s == [] then [] else [if s[0] == a then b else s[0]] + ReplaceChar(s[1..], a, b)
  }

  /** Python's os.path.join of two components. */
  function PyJoin(a: string, b: string): string {
    if HasPrefix(b, "/") then b
    else if a == [] || a[|a| - 1] == '/' then a + b
    else a + "/" + b
  }

  /**
   * Python's get_domain_folder without the directory creation: the network
   * location (urlparse(url).netloc, given as `netloc`) with dots turned into
   * underscores, joined under "data".
   */
  function PyDomainFolder(netloc: string -> string, url: string): (r: string)
    ensures !HasPrefix(netloc(url), "/") ==> r == "data/" + ReplaceChar(netloc(url), '.', '_')
    ensures HasSuffix(r, ReplaceChar(netloc(url), '.', '_'))
  {
    PyJoin("data", ReplaceChar(netloc(url), '.', '_'))
  }
}
