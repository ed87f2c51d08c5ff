/** String primitives of the parser: JavaScript's character classes, ASCII case
    mapping, `trimStart`/`trimEnd`, `indexOf`, `split`/`join`, `filter` on empty
    strings and the order used to sort postings. */
module Text {

  /** JavaScript's `\s`, which is also the set `trimStart` and `trimEnd` remove:
      the WhiteSpace and LineTerminator code points. */
  predicate IsSpace(c: char) {
    || c == '\t' || c == '\n' || c == '\U{000B}' || c == '\U{000C}' || c == '\r' || c == ' '
    || c == '\U{00A0}' || c == '\U{1680}' || ('\U{2000}' <= c <= '\U{200A}')
    || c == '\U{2028}' || c == '\U{2029}' || c == '\U{202F}' || c == '\U{205F}'
    || c == '\U{3000}' || c == '\U{FEFF}'
  }

  /** The characters a regex `.` does not match (no `s` flag). */
  predicate IsLineTerminator(c: char) {
    c == '\n' || c == '\r' || c == '\U{2028}' || c == '\U{2029}'
  }

  /** `\d` */
  predicate IsDigit(c: char) {
    '0' <= c <= '9'
  }

  predicate IsUpper(c: char) {
    'A' <= c <= 'Z'
  }

  predicate IsLower(c: char) {
    'a' <= c <= 'z'
  }

  /** `[a-zA-Z]` */
  predicate IsLetter(c: char) {
    IsUpper(c) || IsLower(c)
  }

  /** The class `[a-zA-Z\s]` of the `from_account` and `to_account` groups. */
  predicate IsLetterOrSpace(c: char) {
    IsLetter(c) || IsSpace(c)
  }

  function LowerChar(c: char): (r: char)
    ensures !IsUpper(r)
    ensures IsLower(c) || IsUpper(c) <==> IsLower(r)
  {
    if IsUpper(c) then c - 'A' + 'a' else c
  }

  function UpperChar(c: char): (r: char)
    ensures !IsLower(r)
    ensures IsLower(c) || IsUpper(c) <==> IsUpper(r)
  {
    if IsLower(c) then c - 'a' + 'A' else c
  }

  /** `toLowerCase()`, restricted to ASCII letters. */
  function Lower(s: string): (r: string)
    ensures |r| == |s| && IsLowerCase(r)
    ensures forall i :: 0 <= i < |s| && !IsUpper(s[i]) ==> r[i] == s[i]
    ensures forall i :: 0 <= i < |s| ==> UpperChar(r[i]) == UpperChar(s[i])
  {
    seq(|s|, i requires 0 <= i < |s| => LowerChar(s[i]))
  }

  /** `toUpperCase()`, restricted to ASCII letters. */
  function Upper(s: string): (r: string)
    ensures |r| == |s| && forall i :: 0 <= i < |r| ==> !IsLower(r[i])
    ensures forall i :: 0 <= i < |s| && !IsLower(s[i]) ==> r[i] == s[i]
    ensures forall i :: 0 <= i < |s| ==> LowerChar(r[i]) == LowerChar(s[i])
  {
    seq(|s|, i requires 0 <= i < |s| => UpperChar(s[i]))
  }

  /** A string holding no ASCII upper-case letter, as `toLowerCase()` leaves it. */
  predicate IsLowerCase(s: string) {
    forall i :: 0 <= i < |s| ==> !IsUpper(s[i])
  }

  /** Lower-casing changes nothing in a string that has no upper-case letter,
      hence lower-casing twice is lower-casing once. */
  lemma LowerOfLowerCase(s: string)
    requires IsLowerCase(s)
    ensures Lower(s) == s
  {
    assert forall i :: 0 <= i < |s| ==> Lower(s)[i] == s[i];
  }

  lemma LowerIdempotent(s: string)
    ensures Lower(Lower(s)) == Lower(s)
  {
    LowerOfLowerCase(Lower(s));
  }

  predicate AllSpace(s: string) {
    forall i :: 0 <= i < |s| ==> IsSpace(s[i])
  }

  /** A string that `trim` leaves alone: empty, or neither end is white space. */
  predicate IsTrimmed(s: string) {
    s == [] || (!IsSpace(s[0]) && !IsSpace(s[|s| - 1]))
  }

  /** `trimStart()`: the longest suffix that does not start with white space. */
  function TrimStart(s: string): (r: string)
    ensures |r| <= |s| && r == s[|s| - |r|..]
    ensures AllSpace(s[..|s| - |r|])
    ensures r == [] || !IsSpace(r[0])
    decreases |s|
  {
    if |s| > 0 && IsSpace(s[0]) then
      var r := TrimStart(s[1..]);
      assert s[1..][|s| - 1 - |r|..] == s[|s| - |r|..];
      assert s[..|s| - |r|] == [s[0]] + s[1..][..|s| - 1 - |r|];
      r
    else s
  }

  /** `trimEnd()`: the longest prefix that does not end in white space. */
  function TrimEnd(s: string): (r: string)
    ensures |r| <= |s| && r == s[..|r|]
    ensures AllSpace(s[|r|..])
    ensures r == [] || !IsSpace(r[|r| - 1])
    decreases |s|
  {
    if |s| > 0 && IsSpace(s[|s| - 1]) then
      var r := TrimEnd(s[..|s| - 1]);
      var t := s[..|s| - 1];
      assert t[..|r|] == s[..|r|];
      assert t[|r|..] == s[|r|..|s| - 1];
      assert s[|r|..] == s[|r|..|s| - 1] + [s[|s| - 1]];
      r
    else s
  }

  /** The source's `trim`: `trimStart()` then `trimEnd()`. */
  function Trim(s: string): (r: string)
    ensures IsTrimmed(r)
    ensures |r| <= |s|
  {
    TrimEnd(TrimStart(s))
  }

  /** The result of `Trim` is a slice of the input and everything around it is
      white space. */
  lemma TrimIsInfix(s: string)
    ensures var r := Trim(s);
      exists i :: 0 <= i <= |s| - |r| && s[i..i + |r|] == r
                  && AllSpace(s[..i]) && AllSpace(s[i + |r|..])
  {
    var a, b := TrimSplit(s);
    var r := Trim(s);
    var i := |a|;
    assert s[..i] == a && s[i..i + |r|] == r && s[i + |r|..] == b;
  }

  /** The partner of `Trim`: white space around an already trimmed string is
      exactly what `Trim` removes. */
  lemma {:induction false} TrimPadded(a: string, m: string, b: string)
    requires AllSpace(a) && AllSpace(b) && IsTrimmed(m)
    ensures Trim(a + m + b) == m
  {
    if m == [] {
      assert a + m + b == (a + b) + [];
      TrimStartSkipsSpace(a + b, []);
    } else {
      assert a + m + b == a + (m + b);
      TrimStartSkipsSpace(a, m + b);
      TrimEndSkipsSpace(m, b);
    }
  }

  /** `trimStart` drops a white-space prefix and then carries on. */
  lemma {:induction false} TrimStartSkipsSpace(a: string, t: string)
    requires AllSpace(a)
    ensures TrimStart(a + t) == TrimStart(t)
    decreases |a|
  {
    if a != [] {
      assert (a + t)[1..] == a[1..] + t;
      TrimStartSkipsSpace(a[1..], t);
    } else {
      assert a + t == t;
    }
  }

  /** `trimEnd` drops a white-space suffix and then carries on. */
  lemma {:induction false} TrimEndSkipsSpace(m: string, b: string)
    requires AllSpace(b)
    ensures TrimEnd(m + b) == TrimEnd(m)
    decreases |b|
  {
    if b != [] {
      assert (m + b)[..|m + b| - 1] == m + b[..|b| - 1];
      TrimEndSkipsSpace(m, b[..|b| - 1]);
    } else {
      assert m + b == m;
    }
  }

  /** A lower-case string stays lower-case when trimmed. */
  lemma TrimKeepsLowerCase(s: string)
    requires IsLowerCase(s)
    ensures IsLowerCase(Trim(s))
  {
    var a, b := TrimSplit(s);
    var r := Trim(s);
    forall k | 0 <= k < |r| ensures !IsUpper(r[k]) {
      assert r[k] == s[|a| + k];
    }
  }

  /** A string that does not start with white space keeps its first character
      when trimmed. */
  lemma TrimKeepsFirst(y: string)
    requires |y| > 0 && !IsSpace(y[0])
    ensures |Trim(y)| > 0 && Trim(y)[0] == y[0]
  {
    assert TrimStart(y) == y;
    assert !AllSpace(y);
    assert y[0..] == y;
  }

  /** Trimming twice is trimming once. */
  lemma TrimIdempotent(s: string)
    ensures Trim(Trim(s)) == Trim(s)
  {
    var r := Trim(s);
    assert r == [] + r + [];
    TrimPadded([], r, []);
  }

  lemma LowerAppend(x: string, y: string)
    ensures Lower(x + y) == Lower(x) + Lower(y)
  {
    assert forall k :: 0 <= k < |x + y| ==> Lower(x + y)[k] == (Lower(x) + Lower(y))[k];
  }

  /** Lower-casing keeps white space where it is and turns nothing into it. */
  lemma LowerKeepsSpace(x: string)
    ensures AllSpace(x) ==> AllSpace(Lower(x))
    ensures IsTrimmed(x) ==> IsTrimmed(Lower(x))
  {
  }

  /** Lower-casing does not move white space, so it commutes with `Trim`. */
  lemma LowerTrimCommute(s: string)
    ensures Lower(Trim(s)) == Trim(Lower(s))
  {
    var a, b := TrimSplit(s);
    var r := Trim(s);
    LowerSplit3(a, r, b);
    LowerKeepsSpace(a);
    LowerKeepsSpace(r);
    LowerKeepsSpace(b);
    TrimPadded(Lower(a), Lower(r), Lower(b));
  }

  /** The white space `Trim` removes on either side. */
  lemma TrimSplit(s: string) returns (a: string, b: string)
    ensures s == a + Trim(s) + b && AllSpace(a) && AllSpace(b)
  {
    var t := TrimStart(s);
    var r := TrimEnd(t);
    a := TrimStartSplit(s);
    b := TrimEndSplit(t);
    AppendAssoc(a, r, b);
  }

  lemma AppendAssoc(a: string, r: string, b: string)
    ensures a + r + b == a + (r + b)
  {
  }

  /** The white space `trimStart` removes. */
  lemma TrimStartSplit(s: string) returns (a: string)
    ensures s == a + TrimStart(s) && AllSpace(a)
  {
    var t := TrimStart(s);
    a := s[..|s| - |t|];
    assert s == s[..|s| - |t|] + s[|s| - |t|..];
  }

  /** The white space `trimEnd` removes. */
  lemma TrimEndSplit(s: string) returns (b: string)
    ensures s == TrimEnd(s) + b && AllSpace(b)
  {
    var t := TrimEnd(s);
    b := s[|t|..];
    assert s == s[..|t|] + s[|t|..];
  }

  lemma LowerSplit3(a: string, r: string, b: string)
    ensures Lower(a + r + b) == Lower(a) + Lower(r) + Lower(b)
  {
    LowerAppend(a + r, b);
    LowerAppend(a, r);
  }

  /** `str[0].toUpperCase() + str.slice(1)`; the source throws on an empty string. */
  function Capitalize(s: string): (r: string)
    requires |s| > 0
    ensures |r| == |s| && r[1..] == s[1..]
    ensures !IsLower(r[0]) && LowerChar(r[0]) == LowerChar(s[0])
  {
    [UpperChar(s[0])] + s[1..]
  }

  /** Capitalizing changes nothing up to case. */
  lemma LowerCapitalize(s: string)
    requires |s| > 0
    ensures Lower(Capitalize(s)) == Lower(s)
  {
    var c := Capitalize(s);
    forall i | 0 <= i < |s| ensures Lower(c)[i] == Lower(s)[i] {
      if i > 0 {
        assert c[i] == c[1..][i - 1] == s[1..][i - 1] == s[i];
      }
    }
  }

  /** `s.startsWith(prefix)` */
  predicate StartsWith(s: string, prefix: string) {
    |prefix| <= |s| && s[..|prefix|] == prefix
  }

  /** `pat` occurs in `s` at position `i`. */
  predicate OccursAt(s: string, pat: string, i: int) {
    0 <= i && i + |pat| <= |s| && s[i..i + |pat|] == pat
  }

  /** `s.indexOf(pat) > -1`, searched from the left: it holds exactly when the
      pattern occurs at some position. */
  predicate Contains(s: string, pat: string)
    ensures Contains(s, pat) <==> exists i :: OccursAt(s, pat, i)
    decreases |s|
  {
    OccursStep(s, pat);
    |pat| <= |s| && (s[..|pat|] == pat || Contains(s[1..], pat))
  }

  /** An occurrence is at the start or, one character on, in the rest. */
  lemma OccursStep(s: string, pat: string)
    ensures (exists i :: OccursAt(s, pat, i)) <==>
      |pat| <= |s| && (s[..|pat|] == pat || (0 < |s| && exists i :: OccursAt(s[1..], pat, i)))
  {
    if |pat| <= |s| && s[..|pat|] == pat {
      assert OccursAt(s, pat, 0);
    } else if 0 < |s| {
      if exists i :: OccursAt(s[1..], pat, i) {
        var i :| OccursAt(s[1..], pat, i);
        assert s[i + 1..i + 1 + |pat|] == s[1..][i..i + |pat|];
        assert OccursAt(s, pat, i + 1);
      }
      forall i | OccursAt(s, pat, i)
        ensures OccursAt(s[1..], pat, i - 1)
      {
        assert i != 0;
        assert s[1..][i - 1..i - 1 + |pat|] == s[i..i + |pat|];
      }
    }
  }

  /** `segs.join(sep)` */
  function Join(segs: seq<string>, sep: char): (r: string)
    ensures |segs| > 0 ==> StartsWith(r, segs[0])
    ensures |segs| > 1 ==> |r| > |segs[0]| && r[|segs[0]|] == sep
    decreases |segs|
  {
    if |segs| == 0 then ""
    else if |segs| == 1 then segs[0]
    else segs[0] + [sep] + Join(segs[1..], sep)
  }

  /** `s.split(sep)`: the pieces between the separators, at least one. */
  function Split(s: string, sep: char): (r: seq<string>)
    ensures |r| >= 1
    decreases |s|
  {
    if |s| == 0 then [""]
    else
      var rest := Split(s[1..], sep);
      if s[0] == sep then [""] + rest
      else [[s[0]] + rest[0]] + rest[1..]
  }

  lemma {:induction false} SplitNoSep(a: string, sep: char)
    requires sep !in a
    ensures Split(a, sep) == [a]
    decreases |a|
  {
    if |a| > 0 {
      SplitNoSep(a[1..], sep);
      assert [a[0]] + a[1..] == a;
    }
  }

  lemma {:induction false} SplitAtSep(a: string, sep: char, b: string)
    requires sep !in a
    ensures Split(a + [sep] + b, sep) == [a] + Split(b, sep)
    decreases |a|
  {
    var s := a + [sep] + b;
    if |a| == 0 {
      assert s[1..] == b;
    } else {
      assert s[1..] == a[1..] + [sep] + b;
      SplitAtSep(a[1..], sep, b);
      assert [a[0]] + a[1..] == a;
    }
  }

  /** `split` undoes `join` when no piece holds the separator: the pieces come back
      one for one. */
  lemma {:induction false} SplitJoin(segs: seq<string>, sep: char)
    requires |segs| >= 1
    requires forall i :: 0 <= i < |segs| ==> sep !in segs[i]
    ensures Split(Join(segs, sep), sep) == segs
    decreases |segs|
  {
    if |segs| == 1 {
      SplitNoSep(segs[0], sep);
    } else {
      SplitJoin(segs[1..], sep);
      SplitAtSep(segs[0], sep, Join(segs[1..], sep));
      assert [segs[0]] + segs[1..] == segs;
    }
  }

  /** `segs.filter((t) => t)`: the non-empty strings, in order. */
  function FilterNonEmpty(segs: seq<string>): (r: seq<string>)
    ensures |r| <= |segs|
    ensures forall i :: 0 <= i < |r| ==> r[i] != ""
    ensures forall x :: x in r <==> x in segs && x != ""
    decreases |segs|
  {
    if |segs| == 0 then []
    else if segs[0] == "" then FilterNonEmpty(segs[1..])
    else [segs[0]] + FilterNonEmpty(segs[1..])
  }

  /** The filter removes nothing from a sequence of non-empty strings. */
  lemma {:induction false} FilterNonEmptyKeepsAll(segs: seq<string>)
    requires forall i :: 0 <= i < |segs| ==> segs[i] != ""
    ensures FilterNonEmpty(segs) == segs
    decreases |segs|
  {
    if |segs| > 0 {
      FilterNonEmptyKeepsAll(segs[1..]);
      assert [segs[0]] + segs[1..] == segs;
    }
  }

  /** The filter works segment by segment: filtering a concatenation filters each
      part and keeps their order and their repeats. */
  lemma {:induction false} FilterNonEmptyAppend(a: seq<string>, b: seq<string>)
    ensures FilterNonEmpty(a + b) == FilterNonEmpty(a) + FilterNonEmpty(b)
    decreases |a|
  {
    if |a| > 0 {
      FilterNonEmptyAppend(a[1..], b);
      assert (a + b)[1..] == a[1..] + b;
    } else {
      assert a + b == b;
    }
  }

  /** Lexicographic order on code points, standing for `localeCompare(...) < 0`. */
  predicate LexLess(a: string, b: string)
    decreases |a|
  {
    |b| > 0 && (|a| == 0 || a[0] < b[0] || (a[0] == b[0] && LexLess(a[1..], b[1..])))
  }

  /** The order is a strict total order: never both ways, and two distinct
      strings are always ordered one way. */
  lemma {:induction false} LexLessAsymmetric(a: string, b: string)
    ensures !(LexLess(a, b) && LexLess(b, a))
    decreases |a|
  {
    if |a| > 0 && |b| > 0 && a[0] == b[0] {
      LexLessAsymmetric(a[1..], b[1..]);
    }
  }

  lemma {:induction false} LexLessTotal(a: string, b: string)
    ensures a == b || LexLess(a, b) || LexLess(b, a)
    decreases |a|
  {
    if |a| > 0 && |b| > 0 && a[0] == b[0] {
      LexLessTotal(a[1..], b[1..]);
      if a[1..] == b[1..] {
        assert a == [a[0]] + a[1..] && b == [b[0]] + b[1..];
      }
    }
  }
}
