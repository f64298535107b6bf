/**
 * The text handling both XYZ readers rely on: Python's `str.split()` with no
 * separator, `str.strip()`, and dropping the two header lines with `lines[2:]`.
 */
module XyzText {

  /** Python's `str.isspace()` for one character (the separators `str.split()` uses). */
  predicate IsSpace(c: char)
  {
    ('\t' <= c <= '\r') || ('\U{1C}' <= c <= ' ') || c == '\U{85}' || c == '\U{A0}'
    || c == '\U{1680}' || ('\U{2000}' <= c <= '\U{200A}') || c == '\U{2028}' || c == '\U{2029}'
    || c == '\U{202F}' || c == '\U{205F}' || c == '\U{3000}'
  }

  /** A field `str.split()` can return: non-empty and free of whitespace. */
  predicate IsWord(w: string)
  {
    w != [] && forall k :: 0 <= k < |w| ==> !IsSpace(w[k])
  }

  predicate AllSpace(s: string)
  {
    forall k :: 0 <= k < |s| ==> IsSpace(s[k])
  }

  /** Length of the run of non-space characters at the start of `s`. */
  function WordLength(s: string): (n: nat)
    ensures n <= |s|
    ensures forall k :: 0 <= k < n ==> !IsSpace(s[k])
    ensures n == |s| || IsSpace(s[n])
  {
    if s == [] || IsSpace(s[0]) then 0 else 1 + WordLength(s[1..])
  }

  /** `s.split()`: the maximal runs of non-space characters, in order. */
  function Split(s: string): (fields: seq<string>)
    ensures |fields| <= |s|
    decreases |s|
  {
    if s == [] then []
    else if IsSpace(s[0]) then Split(s[1..])
    else
      var n := WordLength(s);
      [s[..n]] + Split(s[n..])
  }

  /** Every field `str.split()` returns is a word. */
  lemma {:induction false} SplitFieldsAreWords(s: string)
    ensures forall k :: 0 <= k < |Split(s)| ==> IsWord(Split(s)[k])
    decreases |s|
  {
    if s == [] {
    } else if IsSpace(s[0]) {
      SplitFieldsAreWords(s[1..]);
    } else {
      var n := WordLength(s);
      SplitFieldsAreWords(s[n..]);
      assert Split(s) == [s[..n]] + Split(s[n..]);
    }
  }

  /** A line splits into no fields exactly when it is all whitespace (a blank line). */
  lemma {:induction false} SplitEmpty(s: string)
    ensures Split(s) == [] <==> AllSpace(s)
    decreases |s|
  {
    if s != [] && IsSpace(s[0]) {
      SplitEmpty(s[1..]);
      if AllSpace(s[1..]) {
        assert forall k :: 1 <= k < |s| ==> s[k] == s[1..][k - 1];
      }
    }
  }

  /** A word followed by whitespace (or nothing) is the first field. */
  lemma SplitWordThen(w: string, rest: string)
    requires IsWord(w)
    requires rest == [] || IsSpace(rest[0])
    ensures Split(w + rest) == [w] + Split(rest)
  {
    var s := w + rest;
    var n := WordLength(s);
    assert forall k :: 0 <= k < |w| ==> s[k] == w[k];
    assert |w| < |s| ==> s[|w|] == rest[0];
    assert n == |w|;
    assert s[..n] == w && s[n..] == rest;
  }

  /** Leading whitespace yields no field. */
  lemma {:induction false} SplitSpaceThen(sep: string, s: string)
    requires AllSpace(sep)
    ensures Split(sep + s) == Split(s)
    decreases |sep|
  {
    if sep != [] {
      assert (sep + s)[0] == sep[0] && IsSpace(sep[0]);
      assert (sep + s)[1..] == sep[1..] + s;
      assert Split(sep + s) == Split((sep + s)[1..]);
      assert AllSpace(sep[1..]) by {
        assert forall k :: 0 <= k < |sep| - 1 ==> sep[1..][k] == sep[k + 1];
      }
      SplitSpaceThen(sep[1..], s);
    } else {
      assert sep + s == s;
    }
  }

  /** A run of whitespace of any length after a word is one separator. */
  lemma SplitWordSep(w: string, sep: string, rest: string)
    requires IsWord(w) && sep != [] && AllSpace(sep)
    ensures Split(w + sep + rest) == [w] + Split(rest)
  {
    assert w + sep + rest == w + (sep + rest);
    SplitWordThen(w, sep + rest);
    SplitSpaceThen(sep, rest);
  }

  /** Each word followed by its gap: `ws[0] + gaps[0] + ws[1] + gaps[1] + ...`. */
  function Interleave(ws: seq<string>, gaps: seq<string>): (line: string)
    requires |ws| == |gaps|
  {
    if ws == [] then "" else ws[0] + gaps[0] + Interleave(ws[1..], gaps[1..])
  }

  /** Whitespace runs between words are non-empty; the last one (the line end) may be empty. */
  predicate Gaps(gaps: seq<string>)
  {
    (forall k :: 0 <= k < |gaps| ==> AllSpace(gaps[k]))
    && (forall k :: 0 <= k < |gaps| - 1 ==> gaps[k] != [])
  }

  /**
   * A column-padded line splits into its words: any leading whitespace, then
   * the words separated by whitespace runs of any non-empty length, then any
   * trailing whitespace.
   */
  lemma {:induction false} SplitPadded(lead: string, ws: seq<string>, gaps: seq<string>)
    requires AllSpace(lead) && |ws| == |gaps| && Gaps(gaps)
    requires forall k :: 0 <= k < |ws| ==> IsWord(ws[k])
    ensures Split(lead + Interleave(ws, gaps)) == ws
    decreases |ws|
  {
    SplitSpaceThen(lead, Interleave(ws, gaps));
    if ws == [] {
    } else {
      var rest := Interleave(ws[1..], gaps[1..]);
      assert Gaps(gaps[1..]) by {
        assert forall k :: 0 <= k < |gaps| - 1 ==> gaps[1..][k] == gaps[k + 1];
      }
      assert AllSpace("");
      SplitPadded("", ws[1..], gaps[1..]);
      assert "" + rest == rest;
      var line := Interleave(ws, gaps);
      assert line == ws[0] + gaps[0] + rest;
      if |ws| == 1 {
        assert rest == "" && line == ws[0] + gaps[0];
        assert gaps[0] == [] || IsSpace(gaps[0][0]);
        SplitWordThen(ws[0], gaps[0]);
        SplitEmpty(gaps[0]);
        assert Split(line) == [ws[0]];
      } else {
        SplitWordSep(ws[0], gaps[0], rest);
        assert Split(line) == [ws[0]] + ws[1..];
      }
      assert ws == [ws[0]] + ws[1..];
    }
  }

  /** The fields joined by single spaces, as an XYZ writer lays out an atom line. */
  function JoinFields(ws: seq<string>): string
  {
    if |ws| == 0 then ""
    else if |ws| == 1 then ws[0]
    else ws[0] + " " + JoinFields(ws[1..])
  }

  /**
   * Splitting inverts joining: words joined by spaces, followed by any
   * trailing whitespace such as the line's "\n", split back into the words.
   */
  lemma {:induction false} SplitJoin(ws: seq<string>, tail: string)
    requires forall k :: 0 <= k < |ws| ==> IsWord(ws[k])
    requires AllSpace(tail)
    ensures Split(JoinFields(ws) + tail) == ws
    decreases |ws|
  {
    if |ws| == 0 {
      assert JoinFields(ws) + tail == tail;
      SplitEmpty(tail);
    } else if |ws| == 1 {
      SplitWordThen(ws[0], tail);
      SplitEmpty(tail);
    } else {
      SplitFirstWord(ws, tail);
      SplitJoin(ws[1..], tail);
      assert ws == [ws[0]] + ws[1..];
    }
  }

  /** The first of several joined words splits off, leaving the join of the others. */
  lemma SplitFirstWord(ws: seq<string>, tail: string)
    requires |ws| >= 2 && IsWord(ws[0])
    ensures Split(JoinFields(ws) + tail) == [ws[0]] + Split(JoinFields(ws[1..]) + tail)
  {
    var rest := JoinFields(ws[1..]) + tail;
    var spaced := " " + rest;
    assert JoinFields(ws) + tail == ws[0] + spaced;
    SplitWordThen(ws[0], spaced);
    assert spaced[1..] == rest;
  }

  /** Length of the run of whitespace at the start of `s`. */
  function SpaceLength(s: string): (n: nat)
    ensures n <= |s|
    ensures forall k :: 0 <= k < n ==> IsSpace(s[k])
    ensures n == |s| || !IsSpace(s[n])
  {
    if s == [] || !IsSpace(s[0]) then 0 else 1 + SpaceLength(s[1..])
  }

  /** `s.lstrip()`. */
  function StripLeading(s: string): (t: string)
    ensures |t| <= |s| && t == s[|s| - |t|..]
    ensures AllSpace(s[..|s| - |t|])
    ensures t == [] || !IsSpace(t[0])
  {
    s[SpaceLength(s)..]
  }

  /** `s.rstrip()`. */
  function StripTrailing(s: string): (t: string)
    ensures |t| <= |s| && t == s[..|t|]
    ensures AllSpace(s[|t|..])
    ensures t == [] || !IsSpace(t[|t| - 1])
  {
    if s != [] && IsSpace(s[|s| - 1]) then
      var t := StripTrailing(s[..|s| - 1]);
      assert s[|t|..] == s[..|s| - 1][|t|..] + [s[|s| - 1]];
      t
    else s
  }

  /** `s.strip()`: `s` without its leading and trailing whitespace. */
  function Strip(s: string): (t: string)
    ensures t == [] || (!IsSpace(t[0]) && !IsSpace(t[|t| - 1]))
    ensures exists i, j :: SpaceAround(s, i, j) && t == s[i..j]
  {
    var l := StripLeading(s);
    var t := StripTrailing(l);
    StripIsSlice(s, l, t);
    assert SpaceAround(s, |s| - |l|, |s| - |l| + |t|);
    t
  }

  /** `s[i..j]` is a slice of `s` with only whitespace before and after it. */
  predicate SpaceAround(s: string, i: int, j: int)
  {
    0 <= i <= j <= |s| && AllSpace(s[..i]) && AllSpace(s[j..])
  }

  /** Stripping the front, then the back, leaves a slice with whitespace only outside it. */
  lemma StripIsSlice(s: string, l: string, t: string)
    requires l == StripLeading(s) && t == StripTrailing(l)
    ensures |l| <= |s| && |s| - |l| + |t| <= |s|
    ensures t == s[|s| - |l|..|s| - |l| + |t|]
    ensures AllSpace(s[..|s| - |l|])
    ensures AllSpace(s[|s| - |l| + |t|..])
  {
    var i := |s| - |l|;
    assert AllSpace(s[..i]);
    assert l == s[i..];
    assert t == l[..|t|];
    SliceOfSlice(s, i, |t|);
    assert t == s[i..i + |t|];
    assert AllSpace(l[|t|..]);
    assert s[i + |t|..] == l[|t|..];
  }

  /** Slicing a suffix again is slicing the whole. */
  lemma SliceOfSlice(s: string, i: nat, n: nat)
    requires i + n <= |s|
    ensures s[i..][..n] == s[i..i + n] && s[i..][n..] == s[i + n..]
  {
  }

  /** `lines[2:]`: everything after the count line and the comment line. */
  function AfterHeader(lines: seq<string>): (body: seq<string>)
    ensures |lines| >= 2 ==> lines == lines[..2] + body
    ensures |lines| <= 2 ==> body == []
  {
    if |lines| < 2 then [] else lines[2..]
  }
}
