/** The regular expression of the spending parser,

      (?<from_account>[a-zA-Z\s]*\s)?(?<amount>\d{1,}\.{0,1}\d{1,})\s?
      (?<currency>try|usd|eur|rub)\s(?<to_account>[A-Za-z\s]+)\;?(?<comment>.*){0,1}

    with the `i` flag and no anchors, as `String.prototype.match` runs it: the
    leftmost start position at which the pattern matches, and there the match
    the backtracking order prefers.

    `ValidSpans` is the pattern read as a grammar over the positions of the
    capture groups, `Greedy` is the preference of the greedy quantifiers, and
    `MatchSpending` is a matcher that is proved to return the leftmost valid,
    greedy spans, or nothing exactly when no position of the input matches. */
module SpendingRegex {
  import opened Results
  import opened Text
  import opened Decimals

  /** The character classes the matcher scans runs of. */
  datatype CharClass = Digits | LettersOrSpaces | NotLineTerminators

  predicate InClass(c: char, k: CharClass) {
    match k
    case Digits => IsDigit(c)                        // \d
    case LettersOrSpaces => IsLetterOrSpace(c)       // [a-zA-Z\s]
    case NotLineTerminators => !IsLineTerminator(c)  // .
  }

  /** Every character of `s[i..j]` is in the class. */
  predicate AllIn(s: string, i: nat, j: nat, k: CharClass)
    requires i <= j <= |s|
  {
    forall n :: i <= n < j ==> InClass(s[n], k)
  }

  /** The end of the longest run of class `k` that starts at `i`. */
  function RunEnd(s: string, i: nat, k: CharClass): (e: nat)
    requires i <= |s|
    ensures i <= e <= |s| && AllIn(s, i, e, k)
    ensures e == |s| || !InClass(s[e], k)
    decreases |s| - i
  {
    if i < |s| && InClass(s[i], k) then RunEnd(s, i + 1, k) else i
  }

  /** A run of the class that cannot be extended is the one `RunEnd` finds. */
  lemma {:induction false} RunEndIs(s: string, i: nat, e: nat, k: CharClass)
    requires i <= e <= |s| && AllIn(s, i, e, k)
    requires e == |s| || !InClass(s[e], k)
    ensures RunEnd(s, i, k) == e
    decreases e - i
  {
    if i < e {
      RunEndIs(s, i + 1, e, k);
    }
  }

  /** The currency alternatives, compared case-insensitively (`i` flag). */
  const CurrencyWords: set<string> := {"try", "usd", "eur", "rub"}

  /** Positions of the capture groups of one match: `from_account` is
      `[start, amountStart)` (absent when empty), `amount` is
      `[amountStart, amountEnd)`, `currency` the three characters at
      `currencyStart`, `to_account` is `[currencyStart + 4, toEnd)` and `comment`
      is `[commentStart, commentEnd)` (absent when empty). */
  datatype Spans = Spans(start: nat, amountStart: nat, amountEnd: nat, currencyStart: nat,
                         toEnd: nat, commentStart: nat, commentEnd: nat)

  /** The positions are ordered and inside the input. */
  predicate InBounds(s: string, m: Spans) {
    && m.start <= m.amountStart <= m.amountEnd <= m.currencyStart
    && m.currencyStart + 4 < m.toEnd <= m.commentStart <= m.commentEnd <= |s|
  }

  /** The spans are a match of the pattern, group by group. */
  ghost predicate ValidSpans(s: string, m: Spans) {
    && InBounds(s, m)
    // (?<from_account>[a-zA-Z\s]*\s)?
    && (m.start < m.amountStart ==>
          AllIn(s, m.start, m.amountStart, LettersOrSpaces) && IsSpace(s[m.amountStart - 1]))
    && ValidTail(s, m)
  }

  /** The groups from the amount on. */
  ghost predicate ValidTail(s: string, m: Spans)
    requires InBounds(s, m)
  {
    // (?<amount>\d{1,}\.{0,1}\d{1,})
    && IsAmountText(s[m.amountStart..m.amountEnd])
    // \s?
    && (m.currencyStart == m.amountEnd || (m.currencyStart == m.amountEnd + 1 && IsSpace(s[m.amountEnd])))
    // (?<currency>try|usd|eur|rub)\s
    && Lower(s[m.currencyStart..m.currencyStart + 3]) in CurrencyWords
    && IsSpace(s[m.currencyStart + 3])
    // (?<to_account>[A-Za-z\s]+)
    && AllIn(s, m.currencyStart + 4, m.toEnd, LettersOrSpaces)
    // \;?
    && (m.commentStart == m.toEnd || (m.commentStart == m.toEnd + 1 && s[m.toEnd] == ';'))
    // (?<comment>.*){0,1}
    && AllIn(s, m.commentStart, m.commentEnd, NotLineTerminators)
  }

  /** The greedy quantifiers take as much as they can: `to_account` stops only
      where a letter or white space cannot follow, a `;` after it is consumed,
      and the comment runs to the end of the line. */
  ghost predicate Greedy(s: string, m: Spans)
    requires InBounds(s, m)
  {
    && (m.toEnd == |s| || !IsLetterOrSpace(s[m.toEnd]))
    && (m.toEnd < |s| && s[m.toEnd] == ';' ==> m.commentStart == m.toEnd + 1)
    && (m.commentEnd == |s| || IsLineTerminator(s[m.commentEnd]))
  }

  /** The pattern matches at position `p`. */
  ghost predicate MatchesAt(s: string, p: nat) {
    exists m: Spans :: m.start == p && ValidSpans(s, m)
  }

  /** `\d{1,}\.{0,1}\d{1,}` at `a`: the end of the amount that can be followed by
      the rest of the pattern, which needs a character that is neither a digit
      nor a dot (backtracking into the digits never helps). */
  function MatchAmount(s: string, a: nat): (r: Option<nat>)
    requires a <= |s|
    ensures r.Some? ==> a < r.value <= |s| && IsAmountText(s[a..r.value])
    ensures r.Some? ==> r.value == |s| || !IsDigit(s[r.value])
  {
    if a == |s| || !IsDigit(s[a]) then None
    else
      var x := RunEnd(s, a, Digits);
      if x + 1 < |s| && s[x] == '.' && IsDigit(s[x + 1]) then
        var e := RunEnd(s, x + 1, Digits);
        DotAmount(s, a, x, e);
        Some(e)
      else if x - a >= 2 then
        DigitsSlice(s, a, x);
        Some(x)
      else None
  }

  /** A run of digits read as a string of its own. */
  lemma DigitsSlice(s: string, i: nat, j: nat)
    requires i <= j <= |s| && AllIn(s, i, j, Digits)
    ensures AllDigits(s[i..j])
  {
    forall k | 0 <= k < j - i ensures IsDigit(s[i..j][k]) {
      assert s[i..j][k] == s[i + k];
    }
  }

  /** Two runs of digits with a dot between them are an amount. */
  lemma DotAmount(s: string, a: nat, x: nat, e: nat)
    requires a < x && x + 1 < e <= |s| && s[x] == '.'
    requires AllIn(s, a, x, Digits) && AllIn(s, x + 1, e, Digits)
    ensures DotSplitAt(s[a..e], x - a)
  {
    var t := s[a..e];
    DigitsSlice(s, a, x);
    DigitsSlice(s, x + 1, e);
    assert t[..x - a] == s[a..x];
    assert t[x - a + 1..] == s[x + 1..e];
    assert t[x - a] == s[x];
  }

  /** An amount that is followed by neither a digit nor a dot is the one
      `MatchAmount` finds. */
  lemma MatchAmountComplete(s: string, a: nat, e: nat)
    requires a <= e < |s| && IsAmountText(s[a..e])
    requires !IsDigit(s[e]) && s[e] != '.'
    ensures MatchAmount(s, a) == Some(e)
  {
    var t := s[a..e];
    if AllDigits(t) {
      assert AllIn(s, a, e, Digits) by {
        forall n | a <= n < e ensures IsDigit(s[n]) { assert t[n - a] == s[n]; }
      }
      RunEndIs(s, a, e, Digits);
    } else {
      var d :| DotSplitAt(t, d);
      assert AllIn(s, a, a + d, Digits) by {
        forall n | a <= n < a + d ensures IsDigit(s[n]) { assert t[..d][n - a] == s[n]; }
      }
      assert AllIn(s, a + d + 1, e, Digits) by {
        forall n | a + d + 1 <= n < e ensures IsDigit(s[n]) { assert t[d + 1..][n - a - d - 1] == s[n]; }
      }
      assert s[a + d] == t[d];
      RunEndIs(s, a, a + d, Digits);
      RunEndIs(s, a + d + 1, e, Digits);
    }
  }

  /** The rest of the pattern after `from_account` starts at `a`:
      the amount, `\s?`, the currency, `\s`, `to_account`, `\;?` and the comment. */
  function MatchFrom(s: string, p: nat, a: nat): (r: Option<Spans>)
    requires p <= a <= |s|
    ensures r.Some? ==> InBounds(s, r.value) && r.value.start == p && r.value.amountStart == a
  {
    match MatchAmount(s, a)
    case None => None
    case Some(e) => MatchAfterAmount(s, p, a, e)
  }

  /** The rest of the pattern once the amount is `[a, e)`. */
  function MatchAfterAmount(s: string, p: nat, a: nat, e: nat): (r: Option<Spans>)
    requires p <= a <= e <= |s|
    ensures r.Some? ==> InBounds(s, r.value) && r.value.start == p && r.value.amountStart == a
  {
    var c := if e < |s| && IsSpace(s[e]) then e + 1 else e;
    if CurrencyAt(s, c) then
      var t := RunEnd(s, c + 4, LettersOrSpaces);
      var cs := if t < |s| && s[t] == ';' then t + 1 else t;
      Some(Spans(p, a, e, c, t, cs, RunEnd(s, cs, NotLineTerminators)))
    else None
  }

  /** `(?<currency>try|usd|eur|rub)\s` at `c`, followed by the first character of
      `to_account`. */
  predicate CurrencyAt(s: string, c: nat) {
    c + 4 < |s| && Lower(s[c..c + 3]) in CurrencyWords && IsSpace(s[c + 3])
    && IsLetterOrSpace(s[c + 4])
  }

  /** One attempt of the pattern at `p`. A letter or white space there can only
      begin `from_account`, which must then take the whole run of letters and
      white space (the amount's digit has to follow it) and end in white space;
      otherwise `from_account` is skipped and the amount must start at `p`. */
  function MatchAt(s: string, p: nat): (r: Option<Spans>)
    requires p <= |s|
    ensures r.Some? ==> InBounds(s, r.value) && r.value.start == p
  {
    if p < |s| && IsLetterOrSpace(s[p]) then
      var e := RunEnd(s, p, LettersOrSpaces);
      if IsSpace(s[e - 1]) then MatchFrom(s, p, e) else None
    else MatchFrom(s, p, p)
  }

  /** What `MatchFrom` finds is a match of the pattern from the amount on, with
      the greedy spans. */
  lemma MatchFromSound(s: string, p: nat, a: nat)
    requires p <= a <= |s|
    ensures var r := MatchFrom(s, p, a);
      r.Some? ==> ValidTail(s, r.value) && Greedy(s, r.value)
  {
  }

  /** What `MatchAt` finds is a match of the whole pattern, with the greedy
      spans. */
  lemma MatchAtSound(s: string, p: nat)
    requires p <= |s|
    ensures var r := MatchAt(s, p);
      r.Some? ==> ValidSpans(s, r.value) && Greedy(s, r.value)
  {
    if p < |s| && IsLetterOrSpace(s[p]) {
      MatchFromSound(s, p, RunEnd(s, p, LettersOrSpaces));
    } else {
      MatchFromSound(s, p, p);
    }
  }

  /** A currency word, in whatever case, is three letters. */
  lemma CurrencyWordIsLetters(w: string)
    requires Lower(w) in CurrencyWords
    ensures |w| == 3 && forall i :: 0 <= i < 3 ==> IsLetter(w[i])
  {
    forall i | 0 <= i < 3 ensures IsLetter(w[i]) {
      assert Lower(w)[i] == LowerChar(w[i]);
    }
  }

  /** From the amount on, valid spans are found by `MatchFrom`, and exactly
      when they are also greedy. */
  lemma MatchFromComplete(s: string, m: Spans)
    requires ValidSpans(s, m)
    ensures MatchFrom(s, m.start, m.amountStart).Some?
    ensures Greedy(s, m) ==> MatchFrom(s, m.start, m.amountStart) == Some(m)
  {
    AmountThenCurrency(s, m);
    var t := RunEnd(s, m.currencyStart + 4, LettersOrSpaces);
    var cs := if t < |s| && s[t] == ';' then t + 1 else t;
    MatchFromShape(s, m.start, m.amountStart, m.amountEnd, m.currencyStart,
                   t, cs, RunEnd(s, cs, NotLineTerminators));
    if Greedy(s, m) {
      MatchFromGreedy(s, m);
    }
  }

  lemma MatchFromGreedy(s: string, m: Spans)
    requires ValidSpans(s, m) && Greedy(s, m)
    ensures MatchFrom(s, m.start, m.amountStart) == Some(m)
  {
    AmountThenCurrency(s, m);
    RunEndIs(s, m.currencyStart + 4, m.toEnd, LettersOrSpaces);
    RunEndIs(s, m.commentStart, m.commentEnd, NotLineTerminators);
    MatchFromShape(s, m.start, m.amountStart, m.amountEnd, m.currencyStart,
                   m.toEnd, m.commentStart, m.commentEnd);
    assert m == Spans(m.start, m.amountStart, m.amountEnd, m.currencyStart,
                      m.toEnd, m.commentStart, m.commentEnd);
  }

  /** `MatchFrom` once the amount and the currency are known to fit. */
  lemma MatchFromShape(s: string, p: nat, a: nat, e: nat, c: nat, t: nat, cs: nat, ce: nat)
    requires p <= a <= |s| && MatchAmount(s, a) == Some(e)
    requires (if e < |s| && IsSpace(s[e]) then e + 1 else e) == c
    requires CurrencyAt(s, c)
    requires t == RunEnd(s, c + 4, LettersOrSpaces)
    requires cs == (if t < |s| && s[t] == ';' then t + 1 else t)
    requires ce == RunEnd(s, cs, NotLineTerminators)
    ensures MatchFrom(s, p, a) == Some(Spans(p, a, e, c, t, cs, ce))
  {
    MatchFromAmount(s, p, a, e);
    AfterAmountShape(s, p, a, e, c, t, cs, ce);
  }

  lemma MatchFromAmount(s: string, p: nat, a: nat, e: nat)
    requires p <= a <= |s| && MatchAmount(s, a) == Some(e)
    ensures e <= |s| && MatchFrom(s, p, a) == MatchAfterAmount(s, p, a, e)
  {
  }

  lemma AfterAmountShape(s: string, p: nat, a: nat, e: nat, c: nat, t: nat, cs: nat, ce: nat)
    requires p <= a <= e <= |s|
    requires (if e < |s| && IsSpace(s[e]) then e + 1 else e) == c
    requires CurrencyAt(s, c)
    requires t == RunEnd(s, c + 4, LettersOrSpaces)
    requires cs == (if t < |s| && s[t] == ';' then t + 1 else t)
    requires ce == RunEnd(s, cs, NotLineTerminators)
    ensures MatchAfterAmount(s, p, a, e) == Some(Spans(p, a, e, c, t, cs, ce))
  {
  }

  /** In valid spans, the amount is the one `MatchAmount` finds, the optional
      white space after it is taken exactly when it is there, and `to_account`
      begins with a letter or white space. */
  lemma AmountThenCurrency(s: string, m: Spans)
    requires ValidSpans(s, m)
    ensures MatchAmount(s, m.amountStart) == Some(m.amountEnd)
    ensures var e := m.amountEnd;
      (if e < |s| && IsSpace(s[e]) then e + 1 else e) == m.currencyStart
    ensures IsLetterOrSpace(s[m.currencyStart + 4])
  {
    var a, e, c := m.amountStart, m.amountEnd, m.currencyStart;
    CurrencyWordIsLetters(s[c..c + 3]);
    assert s[c..c + 3][0] == s[c];
    assert !IsDigit(s[e]) && s[e] != '.';
    MatchAmountComplete(s, a, e);
  }

  /** An amount starts with a digit. */
  lemma AmountStartsWithDigit(t: string)
    requires IsAmountText(t)
    ensures |t| > 0 && IsDigit(t[0])
  {
    if !AllDigits(t) {
      var d :| DotSplitAt(t, d);
      assert t[..d][0] == t[0];
    }
  }

  /** `MatchAt` hands over to `MatchFrom` at the first digit after a
      `from_account` run that ends in white space. */
  lemma MatchAtDelegates(s: string, p: nat, a: nat)
    requires p <= a < |s| && IsDigit(s[a])
    requires p < a ==> AllIn(s, p, a, LettersOrSpaces) && IsSpace(s[a - 1])
    ensures MatchAt(s, p) == MatchFrom(s, p, a)
  {
    if p < a {
      RunEndIs(s, p, a, LettersOrSpaces);
    }
  }

  /** Wherever the pattern matches, `MatchAt` finds a match, and when the spans
      are also greedy it finds exactly them. */
  lemma MatchAtComplete(s: string, m: Spans)
    requires ValidSpans(s, m)
    ensures MatchAt(s, m.start).Some?
    ensures Greedy(s, m) ==> MatchAt(s, m.start) == Some(m)
  {
    var a := m.amountStart;
    AmountStartsWithDigit(s[a..m.amountEnd]);
    assert s[a..m.amountEnd][0] == s[a];
    MatchAtDelegates(s, m.start, a);
    MatchFromComplete(s, m);
  }

  /** Valid, greedy spans are determined by where they start. */
  lemma SpansUnique(s: string, m1: Spans, m2: Spans)
    requires ValidSpans(s, m1) && Greedy(s, m1)
    requires ValidSpans(s, m2) && Greedy(s, m2)
    requires m1.start == m2.start
    ensures m1 == m2
  {
    MatchAtComplete(s, m1);
    MatchAtComplete(s, m2);
  }

  /** `MatchAt` failing means the pattern does not match at `p`. */
  lemma MatchAtNone(s: string, p: nat)
    requires p <= |s|
    ensures MatchAt(s, p).None? ==> !MatchesAt(s, p)
  {
    forall m: Spans | m.start == p && ValidSpans(s, m)
      ensures MatchAt(s, p).Some?
    {
      MatchAtComplete(s, m);
    }
  }

  /** The search over start positions from `p` on. */
  function Search(s: string, p: nat): (r: Option<Spans>)
    requires p <= |s|
    ensures r.Some? ==> p <= r.value.start && ValidSpans(s, r.value) && Greedy(s, r.value)
    ensures r.Some? ==> forall q :: p <= q < r.value.start ==> !MatchesAt(s, q)
    ensures r.None? ==> forall q :: p <= q <= |s| ==> !MatchesAt(s, q)
    decreases |s| - p
  {
    MatchAtNone(s, p);
    MatchAtSound(s, p);
    match MatchAt(s, p)
    case Some(m) => Some(m)
    case None => if p == |s| then None else Search(s, p + 1)
  }

  /** `input.match(regex)`: the leftmost match with the greedy spans, or no match
      exactly when the pattern matches nowhere in the input. */
  function MatchSpending(s: string): (r: Option<Spans>)
    ensures r.Some? ==> ValidSpans(s, r.value) && Greedy(s, r.value)
    ensures r.Some? ==> forall q :: 0 <= q < r.value.start ==> !MatchesAt(s, q)
    ensures r.None? ==> forall m :: !ValidSpans(s, m)
  {
    var r := Search(s, 0);
    assert r.None? ==> forall m :: !ValidSpans(s, m) by {
      forall m | ValidSpans(s, m) ensures r.Some? {
        assert MatchesAt(s, m.start);
      }
    }
    r
  }

  /** `MatchSpending` finds nothing exactly when no spans are valid. */
  lemma MatchSpendingNone(s: string)
    ensures MatchSpending(s).None? <==> forall m :: !ValidSpans(s, m)
  {
  }

  /** Conversely, spans that are valid, greedy and leftmost are what
      `MatchSpending` returns. */
  lemma MatchSpendingIs(s: string, m: Spans)
    requires ValidSpans(s, m) && Greedy(s, m)
    requires forall q :: 0 <= q < m.start ==> !MatchesAt(s, q)
    ensures MatchSpending(s) == Some(m)
  {
    assert MatchSpending(s).Some?;
    var m' := MatchSpending(s).value;
    assert MatchesAt(s, m.start);
    assert MatchesAt(s, m'.start);
    SpansUnique(s, m, m');
  }

  /** The named groups of a match; an empty `comment` group reads as absent, as an
      empty iteration of `(.*){0,1}` does not count. */
  datatype Groups = Groups(fromAccount: Option<string>, amount: string, currency: string,
                           toAccount: string, comment: Option<string>)

  function GroupsOf(s: string, m: Spans): (g: Groups)
    requires InBounds(s, m)
  {
    Groups(
      if m.start < m.amountStart then Some(s[m.start..m.amountStart]) else None,
      s[m.amountStart..m.amountEnd],
      s[m.currencyStart..m.currencyStart + 3],
      s[m.currencyStart + 4..m.toEnd],
      if m.commentStart < m.commentEnd then Some(s[m.commentStart..m.commentEnd]) else None)
  }

  /** What the groups of a valid match hold: `from_account` is letters and white
      space ending in white space, the amount is an amount text, the currency is
      one of the four words up to case, `to_account` is non-empty letters and
      white space, and the comment holds no line terminator. */
  ghost predicate WellFormed(g: Groups) {
    && (g.fromAccount.Some? ==>
          && |g.fromAccount.value| > 0
          && (forall i :: 0 <= i < |g.fromAccount.value| ==> IsLetterOrSpace(g.fromAccount.value[i]))
          && IsSpace(g.fromAccount.value[|g.fromAccount.value| - 1]))
    && IsAmountText(g.amount)
    && Lower(g.currency) in CurrencyWords
    && |g.currency| == 3 && (forall i :: 0 <= i < 3 ==> IsLetter(g.currency[i]))
    && |g.toAccount| > 0 && (forall i :: 0 <= i < |g.toAccount| ==> IsLetterOrSpace(g.toAccount[i]))
    && (g.comment.Some? ==>
          && |g.comment.value| > 0
          && forall i :: 0 <= i < |g.comment.value| ==> !IsLineTerminator(g.comment.value[i]))
  }

  /** The groups of a valid match are well formed. */
  lemma GroupsOfValid(s: string, m: Spans)
    requires ValidSpans(s, m)
    ensures WellFormed(GroupsOf(s, m))
  {
    var g := GroupsOf(s, m);
    CurrencyWordIsLetters(g.currency);
    if g.fromAccount.Some? {
      forall i | 0 <= i < |g.fromAccount.value| ensures IsLetterOrSpace(g.fromAccount.value[i]) {
        assert g.fromAccount.value[i] == s[m.start + i];
      }
    }
    forall i | 0 <= i < |g.toAccount| ensures IsLetterOrSpace(g.toAccount[i]) {
      assert g.toAccount[i] == s[m.currencyStart + 4 + i];
    }
    if g.comment.Some? {
      forall i | 0 <= i < |g.comment.value| ensures !IsLineTerminator(g.comment.value[i]) {
        assert g.comment.value[i] == s[m.commentStart + i];
      }
    }
  }

  /** The text of an optional group, empty when absent. */
  function OrEmpty(o: Option<string>): string {
    match o
    case Some(x) => x
    case None => ""
  }

  /** The `;` and the comment, when there is one. */
  function CommentPart(comment: Option<string>): string {
    match comment
    case Some(x) => ";" + x
    case None => ""
  }

  /** The line that spells out the groups, with one space after the amount and
      none around the `;`. */
  function Line(g: Groups): string {
    OrEmpty(g.fromAccount) + g.amount + " " + g.currency + " " + g.toAccount + CommentPart(g.comment)
  }

  /** Where the groups lie in `Line(g)`. */
  function LineSpans(g: Groups): Spans {
    var a := |OrEmpty(g.fromAccount)|;
    var e := a + |g.amount|;
    var t := e + 5 + |g.toAccount|;
    var cs := if g.comment.Some? then t + 1 else t;
    Spans(0, a, e, e + 1, t, cs, cs + |OrEmpty(g.comment)|)
  }

  /** `Line(g)` cut at `LineSpans(g)` gives back the pieces it was made of. */
  lemma LineParts(g: Groups)
    requires |g.currency| == 3 && |g.toAccount| > 0
    ensures var s := Line(g); var m := LineSpans(g);
      && InBounds(s, m) && m.commentEnd == |s|
      && s[..m.amountStart] == OrEmpty(g.fromAccount)
      && s[m.amountStart..m.amountEnd] == g.amount
      && s[m.amountEnd] == ' '
      && s[m.currencyStart..m.currencyStart + 3] == g.currency
      && s[m.currencyStart + 3] == ' '
      && s[m.currencyStart + 4..m.toEnd] == g.toAccount
      && s[m.toEnd..] == CommentPart(g.comment)
  {
    var p1 := OrEmpty(g.fromAccount);
    var p2 := p1 + g.amount;
    var p3 := p2 + " ";
    var p4 := p3 + g.currency;
    var p5 := p4 + " ";
    var p6 := p5 + g.toAccount;
    var s := p6 + CommentPart(g.comment);
    assert s[..|p6|] == p6;
    PrefixOfPrefix(s, p6, p5);
    PrefixOfPrefix(s, p6, p4);
    PrefixOfPrefix(s, p6, p3);
    PrefixOfPrefix(s, p6, p2);
    PrefixOfPrefix(s, p6, p1);
    assert s[|p1|..|p2|] == p2[|p1|..];
    assert s[|p3|..|p4|] == p4[|p3|..];
    assert s[|p5|..|p6|] == p6[|p5|..];
    assert s[|p2|] == p3[|p2|];
    assert s[|p4|] == p5[|p4|];
  }

  /** A prefix of a prefix of `s` is a prefix of `s`. */
  lemma PrefixOfPrefix(s: string, p: string, q: string)
    requires |q| <= |p| <= |s| && s[..|p|] == p && p[..|q|] == q
    ensures s[..|q|] == q
  {
    assert s[..|q|] == s[..|p|][..|q|];
  }

  /** A run of the class inside `s` that is known as a string of its own. */
  lemma AllInSlice(s: string, i: nat, j: nat, k: CharClass)
    requires i <= j <= |s|
    requires forall n :: 0 <= n < j - i ==> InClass(s[i..j][n], k)
    ensures AllIn(s, i, j, k)
  {
    forall n | i <= n < j ensures InClass(s[n], k) {
      assert s[n] == s[i..j][n - i];
    }
  }

  /** Well-formed groups spelt out as a line are valid, greedy spans of it. */
  lemma LineValid(g: Groups)
    requires WellFormed(g)
    ensures var s := Line(g); var m := LineSpans(g);
      InBounds(s, m) && ValidSpans(s, m) && Greedy(s, m)
  {
    var s, m := Line(g), LineSpans(g);
    LineParts(g);
    if m.start < m.amountStart {
      AllInSlice(s, 0, m.amountStart, LettersOrSpaces);
      assert s[m.amountStart - 1] == s[..m.amountStart][m.amountStart - 1];
    }
    AllInSlice(s, m.currencyStart + 4, m.toEnd, LettersOrSpaces);
    if g.comment.Some? {
      LineComment(g);
    }
    AllInSlice(s, m.commentStart, m.commentEnd, NotLineTerminators);
  }

  /** The comment of `Line(g)` follows the `;` and runs to the end. */
  lemma LineComment(g: Groups)
    requires |g.currency| == 3 && |g.toAccount| > 0 && g.comment.Some?
    ensures var s := Line(g); var m := LineSpans(g);
      && InBounds(s, m) && s[m.toEnd] == ';'
      && s[m.commentStart..m.commentEnd] == g.comment.value
  {
    var s, m := Line(g), LineSpans(g);
    LineParts(g);
    assert s[m.toEnd] == s[m.toEnd..][0];
    assert s[m.commentStart..m.commentEnd] == s[m.toEnd..][1..];
  }

  /** Reading the groups back from `Line(g)` gives the same groups. */
  lemma LineGroups(g: Groups)
    requires |g.currency| == 3 && |g.toAccount| > 0
    requires g.fromAccount != Some("") && g.comment != Some("")
    ensures InBounds(Line(g), LineSpans(g)) && GroupsOf(Line(g), LineSpans(g)) == g
  {
    LineParts(g);
    if g.comment.Some? {
      LineComment(g);
    }
  }

  /** The round trip of the pattern: the spending regex run on the line that
      spells out well-formed groups matches at its start and captures exactly
      those groups. */
  lemma LineRoundTrip(g: Groups)
    requires WellFormed(g)
    ensures MatchSpending(Line(g)) == Some(LineSpans(g))
    ensures GroupsOf(Line(g), LineSpans(g)) == g
  {
    LineValid(g);
    LineGroups(g);
    MatchSpendingIs(Line(g), LineSpans(g));
  }

  /** The groups of a lower-case input are in lower case. */
  lemma GroupsOfLowerCase(s: string, m: Spans)
    requires InBounds(s, m) && IsLowerCase(s)
    ensures IsLowerCase(GroupsOf(s, m).currency)
  {
    var g := GroupsOf(s, m);
    forall i | 0 <= i < |g.currency| ensures !IsUpper(g.currency[i]) {
      assert g.currency[i] == s[m.currencyStart + i];
    }
  }
}
