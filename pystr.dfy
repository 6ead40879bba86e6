/**
  The few Python `str` operations the scripts rely on, stated on `seq<char>`:
  `str.replace`, `str.startswith`, `str.lower` and the argument-less `str.split`.
 */
module PyStr {

  /** `s[i:].startswith(pat)`: the pattern occurs in `s` at index `i`. */
  predicate OccursAt(s: string, pat: string, i: nat) {
    i <= |s| && pat <= s[i..]
  }

  /** Python's `pat in s`. */
  predicate Contains(s: string, pat: string) {
    exists i: nat | i <= |s| :: OccursAt(s, pat, i)
  }

  /** Python's `s.startswith(p)`. */
  predicate StartsWith(s: string, p: string) {
    OccursAt(s, p, 0)
  }

  /**
    Python's `s.replace(pat, rep)`: every non-overlapping occurrence of `pat`,
    found scanning left to right, is replaced by `rep`. An empty pattern matches
    before every character and at the end, as in Python.
   */
  function Replace(s: string, pat: string, rep: string): string {
    if pat == [] then InsertEverywhere(s, rep) else ReplaceNonEmpty(s, pat, rep)
  }

  /** `s.replace("", rep)`: `rep` before each character and once at the end. */
  function InsertEverywhere(s: string, rep: string): string {
    if s == [] then rep else rep + [s[0]] + InsertEverywhere(s[1..], rep)
  }

  /** The left-to-right scan of `Replace` for a non-empty pattern. */
  function ReplaceNonEmpty(s: string, pat: string, rep: string): string
    requires pat != []
    decreases |s|
  {
    if s == [] then []
    else if OccursAt(s, pat, 0) then rep + ReplaceNonEmpty(s[|pat|..], pat, rep)
    else [s[0]] + ReplaceNonEmpty(s[1..], pat, rep)
  }

  /** Text that does not contain the pattern comes back unchanged. */
  lemma {:induction false} ReplaceAbsent(s: string, pat: string, rep: string)
    requires pat != []
    requires !Contains(s, pat)
    ensures Replace(s, pat, rep) == s
    decreases |s|
  {
    if s != [] {
      assert !OccursAt(s, pat, 0);
      if Contains(s[1..], pat) {
        var j: nat :| j <= |s[1..]| && OccursAt(s[1..], pat, j);
        OccursInTail(s, pat, j);
        assert false;
      }
      ReplaceAbsent(s[1..], pat, rep);
    }
  }

  /** Occurrences in the tail of a text are the occurrences in the text, shifted by one. */
  lemma OccursInTail(s: string, pat: string, j: nat)
    requires s != []
    ensures OccursAt(s[1..], pat, j) <==> OccursAt(s, pat, j + 1)
  {
    if j + 1 <= |s| {
      assert s[1..][j..] == s[j + 1..];
    }
  }

  /** A pattern longer than the text does not occur in it. */
  lemma TooLongAbsent(s: string, pat: string)
    requires |s| < |pat|
    ensures !Contains(s, pat)
  {
  }

  /** A one-character pattern occurs exactly where that character does. */
  lemma CharAbsent(s: string, c: char)
    requires forall i :: 0 <= i < |s| ==> s[i] != c
    ensures !Contains(s, [c])
  {
    forall i: nat | i <= |s| ensures !OccursAt(s, [c], i) {
      if i < |s| {
        assert s[i..][0] == s[i];
      }
    }
  }

  /** Replacing a character the text does not hold changes nothing. */
  lemma ReplaceCharAbsent(s: string, c: char, rep: string)
    requires forall i :: 0 <= i < |s| ==> s[i] != c
    ensures Replace(s, [c], rep) == s
  {
    CharAbsent(s, c);
    ReplaceAbsent(s, [c], rep);
  }

  /** A text holding the character once, between two parts free of it, gets `rep` in its place. */
  lemma ReplaceCharOnce(a: string, c: char, b: string, rep: string)
    requires forall i :: 0 <= i < |a| ==> a[i] != c
    requires forall i :: 0 <= i < |b| ==> b[i] != c
    ensures Replace(a + [c] + b, [c], rep) == a + rep + b
  {
    var s := a + [c] + b;
    assert OccursAt(s, [c], |a|) by { assert s[|a|..][..1] == [c]; }
    assert NoneBefore(s, [c], |a|) by {
      forall j: nat | j < |a| ensures !OccursAt(s, [c], j) { assert s[j..][0] == s[j] == a[j]; }
    }
    ReplaceAtFirst(s, [c], rep, |a|);
    assert s[..|a|] == a;
    assert s[|a| + 1..] == b;
    ReplaceCharAbsent(b, c, rep);
  }

  /** One step of the scan when the text does not start with the pattern. */
  lemma ReplaceKeepsChar(s: string, pat: string, rep: string)
    requires pat != [] && s != []
    requires !OccursAt(s, pat, 0)
    ensures Replace(s, pat, rep) == [s[0]] + Replace(s[1..], pat, rep)
  {
  }

  /** One step of the scan when the text starts with the pattern. */
  lemma ReplaceTakesPattern(s: string, pat: string, rep: string)
    requires pat != []
    requires OccursAt(s, pat, 0)
    ensures Replace(s, pat, rep) == rep + Replace(s[|pat|..], pat, rep)
  {
  }

  /** No occurrence of the pattern starts before index `i`. */
  predicate NoneBefore(s: string, pat: string, i: nat) {
    forall j: nat :: j < i ==> !OccursAt(s, pat, j)
  }

  /** A prefix in which no occurrence of the pattern starts is copied unchanged. */
  lemma {:induction false} ReplaceSkipsPrefix(s: string, pat: string, rep: string, i: nat)
    requires pat != [] && i <= |s|
    requires NoneBefore(s, pat, i)
    ensures Replace(s, pat, rep) == s[..i] + Replace(s[i..], pat, rep)
    decreases i
  {
    if i == 0 {
      assert s[..0] + Replace(s[0..], pat, rep) == Replace(s, pat, rep);
    } else {
      NoneBeforeInTail(s, pat, i);
      ReplaceSkipsPrefix(s[1..], pat, rep, i - 1);
      SkipOneMore(s, pat, rep, i);
    }
  }

  lemma NoneBeforeInTail(s: string, pat: string, i: nat)
    requires 0 < i <= |s|
    requires NoneBefore(s, pat, i)
    ensures NoneBefore(s[1..], pat, i - 1)
  {
    forall j: nat | j < i - 1 ensures !OccursAt(s[1..], pat, j) {
      OccursInTail(s, pat, j);
    }
  }

  /** The inductive step of `ReplaceSkipsPrefix`: one more copied character. */
  lemma SkipOneMore(s: string, pat: string, rep: string, i: nat)
    requires pat != [] && 0 < i <= |s|
    requires !OccursAt(s, pat, 0)
    requires Replace(s[1..], pat, rep) == s[1..][..i - 1] + Replace(s[1..][i - 1..], pat, rep)
    ensures Replace(s, pat, rep) == s[..i] + Replace(s[i..], pat, rep)
  {
    var t := s[1..];
    var rest := Replace(s[i..], pat, rep);
    assert t[i - 1..] == s[i..];
    calc {
      Replace(s, pat, rep);
      { ReplaceKeepsChar(s, pat, rep); }
      [s[0]] + Replace(t, pat, rep);
      [s[0]] + (t[..i - 1] + rest);
      { assert [s[0]] + t[..i - 1] == s[..i]; }
      s[..i] + rest;
    }
  }

  /**
    The scan is left to right: the first occurrence, at index `i`, is replaced,
    the text before it is kept, and the scan resumes after the occurrence.
   */
  lemma ReplaceAtFirst(s: string, pat: string, rep: string, i: nat)
    requires pat != []
    requires OccursAt(s, pat, i)
    requires NoneBefore(s, pat, i)
    ensures Replace(s, pat, rep) == s[..i] + rep + Replace(s[i + |pat|..], pat, rep)
  {
    ReplaceSkipsPrefix(s, pat, rep, i);
    var u := s[i..];
    assert OccursAt(u, pat, 0);
    ReplaceTakesPattern(u, pat, rep);
    assert u[|pat|..] == s[i + |pat|..];
  }

  /** A text made of the pattern and a pattern-free tail becomes `rep` and that tail. */
  lemma ReplaceLeadingOccurrence(pat: string, tail: string, rep: string)
    requires pat != []
    requires !Contains(tail, pat)
    ensures Replace(pat + tail, pat, rep) == rep + tail
  {
    var s := pat + tail;
    assert s[..|pat|] == pat;
    assert s[|pat|..] == tail;
    ReplaceAtFirst(s, pat, rep, 0);
    ReplaceAbsent(tail, pat, rep);
  }

  /** ASCII case mapping of Python's `str.lower`. */
  function LowerChar(c: char): char {
    if 'A' <= c <= 'Z' then (c as int + 32) as char else c
  }

  /** Python's `s.lower()`, restricted to the ASCII letters. */
  function Lower(s: string): (r: string)
    ensures |r| == |s|
    ensures forall i :: 0 <= i < |s| ==> r[i] == LowerChar(s[i])
  {
    seq(|s|, i requires 0 <= i < |s| => LowerChar(s[i]))
  }

  predicate IsUpper(c: char) {
    'A' <= c <= 'Z'
  }

  /** The upper-case partner of a lower-case ASCII letter; any other character is its own. */
  function UpperChar(c: char): char {
    if 'a' <= c <= 'z' then (c as int - 32) as char else c
  }

  /** Only `l` itself and its upper-case partner lower to a character `l` that is not upper case. */
  lemma LowerCharIff(c: char, l: char)
    requires !IsUpper(l)
    ensures LowerChar(c) == l <==> c == l || c == UpperChar(l)
  {
  }

  /** `lower()` leaves no upper-case letter, so lowering twice is lowering once. */
  lemma {:induction false} LowerIdempotent(s: string)
    ensures forall i :: 0 <= i < |s| ==> !IsUpper(Lower(s)[i])
    ensures Lower(Lower(s)) == Lower(s)
  {
    var l := Lower(s);
    assert forall i :: 0 <= i < |l| ==> !IsUpper(l[i]) && LowerChar(l[i]) == l[i];
    assert Lower(l) == l;
  }

  /** `lower()` changes a text if and only if the text holds an upper-case letter. */
  lemma LowerFixedIff(s: string)
    ensures Lower(s) == s <==> forall i :: 0 <= i < |s| ==> !IsUpper(s[i])
  {
    if Lower(s) == s {
      forall i | 0 <= i < |s| ensures !IsUpper(s[i]) {
        assert LowerChar(s[i]) == s[i];
      }
    }
  }

  /**
    The case-insensitive prefix test `t.lower().startswith(p)` for a prefix without
    upper-case letters: each of the first `|p|` characters of `t` is the prefix's
    character or its upper-case partner.
   */
  lemma LowerStartsWith(t: string, p: string)
    requires forall k :: 0 <= k < |p| ==> !IsUpper(p[k])
    ensures StartsWith(Lower(t), p) <==> |p| <= |t| && forall k :: 0 <= k < |p| ==> t[k] == p[k] || t[k] == UpperChar(p[k])
  {
    var l := Lower(t);
    if StartsWith(l, p) {
      forall k | 0 <= k < |p| ensures t[k] == p[k] || t[k] == UpperChar(p[k]) {
        assert l[k] == p[k];
        LowerCharIff(t[k], p[k]);
      }
    }
    if |p| <= |t| && forall k :: 0 <= k < |p| ==> t[k] == p[k] || t[k] == UpperChar(p[k]) {
      forall k | 0 <= k < |p| ensures l[k] == p[k] {
        LowerCharIff(t[k], p[k]);
      }
      assert p == l[..|p|];
    }
  }

  /** Python's `str.isspace` for one character. */
  predicate IsSpace(c: char) {
    || c == ' '
    || '\t' <= c <= '\r'
    || '\U{1c}' <= c <= '\U{1f}'
    || c == '\U{85}' || c == '\U{a0}' || c == '\U{1680}'
    || '\U{2000}' <= c <= '\U{200a}'
    || c == '\U{2028}' || c == '\U{2029}' || c == '\U{202f}'
    || c == '\U{205f}' || c == '\U{3000}'
  }

  predicate NoSpace(s: string) {
    forall i :: 0 <= i < |s| ==> !IsSpace(s[i])
  }

  predicate AllSpace(s: string) {
    forall i :: 0 <= i < |s| ==> IsSpace(s[i])
  }

  /** The longest prefix of `s` that holds no whitespace. */
  function Word(s: string): (w: string)
    ensures |w| <= |s| && w == s[..|w|]
    ensures NoSpace(w)
    ensures |w| < |s| ==> IsSpace(s[|w|])
  {
    if s == [] || IsSpace(s[0]) then [] else [s[0]] + Word(s[1..])
  }

  /**
    Python's `s.split()` with no separator: the maximal runs of non-whitespace,
    in order; leading, trailing and repeated whitespace yield no empty tokens.
   */
  function Split(s: string): (r: seq<string>)
    ensures forall k :: 0 <= k < |r| ==> r[k] != [] && NoSpace(r[k])
    decreases |s|
  {
    if s == [] then []
    else if IsSpace(s[0]) then Split(s[1..])
    else
      var w := Word(s);
      [w] + Split(s[|w|..])
  }

  /** Whitespace in front of a text adds no token. */
  lemma {:induction false} SplitSkipsSpaces(ws: string, t: string)
    requires AllSpace(ws)
    ensures Split(ws + t) == Split(t)
    decreases |ws|
  {
    if ws != [] {
      var s := ws + t;
      assert s[0] == ws[0] && IsSpace(s[0]);
      assert s[1..] == ws[1..] + t;
      assert Split(s) == Split(s[1..]);
      SplitSkipsSpaces(ws[1..], t);
    } else {
      assert ws + t == t;
    }
  }

  /** A word followed by whitespace or the end of the text is the first token. */
  lemma SplitWord(w: string, rest: string)
    requires w != [] && NoSpace(w)
    requires rest == [] || IsSpace(rest[0])
    ensures Split(w + rest) == [w] + Split(rest)
  {
    var s := w + rest;
    WordOfWord(w, rest);
    assert s[|w|..] == rest;
  }

  lemma {:induction false} WordOfWord(w: string, rest: string)
    requires NoSpace(w)
    requires rest == [] || IsSpace(rest[0])
    ensures Word(w + rest) == w
    decreases |w|
  {
    if w == [] {
      assert w + rest == rest;
    } else {
      assert (w + rest)[1..] == w[1..] + rest;
      WordOfWord(w[1..], rest);
    }
  }

  /** `s.split()` is empty exactly when `s` is all whitespace. */
  lemma {:induction false} SplitEmptyIff(s: string)
    ensures Split(s) == [] <==> AllSpace(s)
    decreases |s|
  {
    if s != [] && IsSpace(s[0]) {
      SplitEmptyIff(s[1..]);
      if AllSpace(s[1..]) {
        assert AllSpace(s) by {
          forall i | 0 <= i < |s| ensures IsSpace(s[i]) {
            if i > 0 { assert s[i] == s[1..][i - 1]; }
          }
        }
      } else {
        var i :| 0 <= i < |s[1..]| && !IsSpace(s[1..][i]);
        assert !IsSpace(s[i + 1]);
      }
    }
  }
}
