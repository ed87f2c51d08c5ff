/** What the parser promises about its results: the balanced pair of a
    spending, the unreachable guards, the fields taken from the regex groups,
    the error cases and the dispatch on `transfer`. */
module LedgerProperties {
  import opened Results
  import opened Text
  import opened Decimals
  import opened Currencies
  import opened Accounts
  import opened SpendingRegex
  import opened Ledger

  /** The asset account always starts with `Assets:`, the expense account with
      `Expenses:`, so the sort puts the asset posting first. */
  lemma AssetsBeforeExpenses(asset: string, expense: string)
    requires StartsWith(asset, "Assets:") && StartsWith(expense, "Expenses:")
    ensures LexLess(asset, expense) && !LexLess(expense, asset)
  {
    assert asset[0] == 'A' && expense[0] == 'E';
    LexLessAsymmetric(asset, expense);
  }

  /** A currency token the regex accepted is known to `getCurrency` exactly when
      it is written in lower case. */
  lemma CurrencyOfMatchedToken(token: string)
    requires Lower(token) in CurrencyWords
    ensures CurrencyOf(token).Ok? <==> IsLowerCase(token)
  {
    if IsLowerCase(token) {
      LowerOfLowerCase(token);
    }
  }

  /** The asset account of well-formed groups starts with `Assets:`. */
  lemma AssetAccountOfGroups(g: Groups)
    requires WellFormed(g)
    ensures StartsWith(AssetAccount(FromHint(g), g.currency), "Assets:")
  {
    assert ':' !in g.currency by {
      forall i | 0 <= i < |g.currency| ensures g.currency[i] != ':' {
        assert IsLetter(g.currency[i]);
      }
    }
    AssetAccountSegments(FromHint(g), g.currency);
    var asset := AssetAccount(FromHint(g), g.currency);
    assert asset[..7] == "Assets:";
  }

  /** Built from well-formed groups, a spending is a balanced pair: two postings,
      the asset debit first and the expense credit second, in one currency and at
      one precision, with amounts and mantissas that are exact negatives; the debit
      is never positive, and a lower-case currency token always gets 2 decimal
      places. */
  lemma SpendingOfBalanced(input: string, g: Groups, date: string)
    requires WellFormed(g)
    requires SpendingOf(input, g, date).Ok?
    ensures var ps := SpendingOf(input, g, date).value.postings;
      && |ps| == 2
      && StartsWith(ps[0].account, "Assets:") && StartsWith(ps[1].account, "Expenses:")
      && ps[0].currency == ps[1].currency
      && ps[0].decimalPlaces == ps[1].decimalPlaces
      && ps[0].amount == Negate(ps[1].amount)
      && ps[0].decimalMantissa == -ps[1].decimalMantissa
      && ps[0].amount.mant <= 0 <= ps[1].amount.mant
      && ps[0].decimalMantissa <= 0 <= ps[1].decimalMantissa
      && (IsLowerCase(g.currency) ==> ps[0].decimalPlaces == 2)
  {
    SpendingOfErrors(input, g, date);
    SpendingOfOrdered(input, g, date);
    AssetAccountOfGroups(g);
    var amount, places := ToDecimal(g.amount), DecimalPlaces(g.currency);
    MantissaNegate(amount, places);
    MantissaSign(amount, places);
  }

  /** With a lower-case currency token the building step succeeds, and the sort
      leaves the asset debit first. */
  lemma SpendingOfOrdered(input: string, g: Groups, date: string)
    requires WellFormed(g) && IsLowerCase(g.currency)
    ensures var amount := ToDecimal(g.amount); var places := DecimalPlaces(g.currency);
      var currency := CurrencyOf(g.currency);
      && currency.Ok?
      && SpendingOf(input, g, date) == Ok(Transaction(date, Trim(Capitalize(g.toAccount)),
           [Posting(AssetAccount(FromHint(g), g.currency), Negate(amount), currency.value,
                    places, Mantissa(Negate(amount), places)),
            Posting(ExpenseAccount(g.toAccount, g.currency), amount, currency.value,
                    places, Mantissa(amount, places))],
           CommentOf(g.comment)))
  {
    var amount := ToDecimal(g.amount);
    var places := DecimalPlaces(g.currency);
    CurrencyOfMatchedToken(g.currency);
    var currency := CurrencyOf(g.currency).value;
    var asset, expense := AssetAccount(FromHint(g), g.currency), ExpenseAccount(g.toAccount, g.currency);
    AssetAccountOfGroups(g);
    AssetsBeforeExpenses(asset, expense);
    var fromPosting := Posting(asset, Negate(amount), currency, places, Mantissa(Negate(amount), places));
    var toPosting := Posting(expense, amount, currency, places, Mantissa(amount, places));
    assert SortByAccount(toPosting, fromPosting) == [fromPosting, toPosting];
  }

  /** The errors of the building step: an unknown currency exactly when the token
      is not in lower case, and never the "from amount is negative" error, whose
      guard no input reaches. */
  lemma SpendingOfErrors(input: string, g: Groups, date: string)
    requires WellFormed(g)
    ensures var r := SpendingOf(input, g, date);
      && (r.Err? <==> !IsLowerCase(g.currency))
      && (r.Err? ==> r.error == UnknownCurrency(g.currency))
  {
    CurrencyOfMatchedToken(g.currency);
  }

  /** The description is `to_account` capitalized and trimmed: trimmed, equal to
      the trimmed `to_account` up to case, and starting with a capital letter when
      `to_account` starts with a letter. */
  lemma DescriptionOf(toAccount: string)
    requires |toAccount| > 0
    ensures var d := Trim(Capitalize(toAccount));
      && IsTrimmed(d)
      && Lower(d) == Trim(Lower(toAccount))
      && (IsLetter(toAccount[0]) ==> |d| > 0 && IsUpper(d[0]))
  {
    DescriptionCase(toAccount);
    if IsLetter(toAccount[0]) {
      DescriptionInitial(toAccount);
    }
  }

  lemma DescriptionCase(toAccount: string)
    requires |toAccount| > 0
    ensures Lower(Trim(Capitalize(toAccount))) == Trim(Lower(toAccount))
  {
    LowerTrimCommute(Capitalize(toAccount));
    LowerCapitalize(toAccount);
  }

  lemma DescriptionInitial(toAccount: string)
    requires |toAccount| > 0 && IsLetter(toAccount[0])
    ensures var d := Trim(Capitalize(toAccount)); |d| > 0 && IsUpper(d[0])
  {
    TrimKeepsFirst(Capitalize(toAccount));
  }

  /** `capitalize` runs before `trim`: a `to_account` that starts with white
      space, which the regex allows when two spaces follow the currency, is only
      trimmed, so its first letter stays as it was (`120 usd  cafe` is described
      as `cafe`). */
  lemma DescriptionLeadingSpace(toAccount: string)
    requires |toAccount| > 0 && IsSpace(toAccount[0])
    ensures Trim(Capitalize(toAccount)) == Trim(toAccount)
  {
    assert Capitalize(toAccount) == toAccount;
  }

  /** What a spending built from well-formed groups holds: the date given, the
      asset account of `from_account` and the expense account of `to_account`, the
      amount the `amount` text denotes at the currency named by the token, its
      mantissa at the currency's precision, the description of `to_account`, and
      the trimmed comment when there is one. */
  lemma SpendingOfFields(input: string, g: Groups, date: string)
    requires WellFormed(g)
    requires SpendingOf(input, g, date).Ok?
    ensures var t := SpendingOf(input, g, date).value;
      && |t.postings| == 2
      && t.date == date
      && t.postings[0].account == AssetAccount(FromHint(g), g.currency)
      && t.postings[1].account == ExpenseAccount(g.toAccount, g.currency)
      && t.postings[1].amount == ToDecimal(g.amount)
      && Code(t.postings[1].currency) == Upper(g.currency)
      && t.postings[1].decimalPlaces == DecimalPlaces(g.currency)
      && t.postings[1].decimalMantissa == Mantissa(ToDecimal(g.amount), t.postings[1].decimalPlaces)
      && IsTrimmed(t.description) && Lower(t.description) == Trim(Lower(g.toAccount))
      && (IsLetter(g.toAccount[0]) ==> |t.description| > 0 && IsUpper(t.description[0]))
      && (t.comment.None? <==> g.comment.None?)
      && (t.comment.Some? ==> t.comment.value == Trim(g.comment.value))
  {
    SpendingOfErrors(input, g, date);
    SpendingOfOrdered(input, g, date);
    DescriptionOf(g.toAccount);
  }

  /** Where the regex matches, `parseSpending` builds the transaction from the
      groups of the match, which are well formed. */
  lemma SpendingMatched(s: string, date: string)
    requires MatchSpending(s).Some?
    ensures WellFormed(GroupsOf(s, MatchSpending(s).value))
    ensures ParseSpending(s, date) == SpendingOf(s, GroupsOf(s, MatchSpending(s).value), date)
  {
    GroupsOfValid(s, MatchSpending(s).value);
  }

  /** The errors of `parseSpending`: a parse error exactly when the regex matches
      nowhere, carrying the input; an unknown currency only for a currency word the
      `i` flag let through not in lower case; and never the "from amount is
      negative" error, whose guard no input reaches. On lower-case input, which is
      what `parse` passes, it fails exactly when the regex does not match. */
  lemma SpendingErrors(s: string, date: string)
    ensures var r := ParseSpending(s, date);
      && (r.Err? ==> !r.error.NegativeFromAmount?)
      && ((r.Err? && r.error.ParseError?) <==> forall m :: !ValidSpans(s, m))
      && (r.Err? && r.error.ParseError? ==> r.error.input == s)
      && (r.Err? && r.error.UnknownCurrency? ==>
            Lower(r.error.token) in CurrencyWords && !IsLowerCase(r.error.token))
      && (IsLowerCase(s) ==> (r.Err? <==> forall m :: !ValidSpans(s, m)))
  {
    MatchSpendingNone(s);
    if MatchSpending(s).None? {
      assert ParseSpending(s, date) == Err(ParseError(s));
    } else {
      var m := MatchSpending(s).value;
      var g := GroupsOf(s, m);
      SpendingMatched(s, date);
      SpendingOfErrors(s, g, date);
      if IsLowerCase(s) {
        GroupsOfLowerCase(s, m);
      }
    }
  }

  /** A successful `parseSpending` comes from the leftmost match and is a balanced
      pair (`SpendingOfBalanced`); on lower-case input both postings have 2
      decimal places. */
  lemma SpendingBalanced(s: string, date: string)
    requires ParseSpending(s, date).Ok?
    ensures MatchSpending(s).Some?
    ensures var ps := ParseSpending(s, date).value.postings;
      && |ps| == 2
      && StartsWith(ps[0].account, "Assets:") && StartsWith(ps[1].account, "Expenses:")
      && ps[0].currency == ps[1].currency
      && ps[0].decimalPlaces == ps[1].decimalPlaces
      && ps[0].amount == Negate(ps[1].amount)
      && ps[0].decimalMantissa == -ps[1].decimalMantissa
      && ps[0].amount.mant <= 0 <= ps[1].amount.mant
      && ps[0].decimalMantissa <= 0 <= ps[1].decimalMantissa
      && (IsLowerCase(s) ==> ps[0].decimalPlaces == 2 == ps[1].decimalPlaces)
  {
    var m := MatchSpending(s).value;
    var g := GroupsOf(s, m);
    GroupsOfValid(s, m);
    SpendingOfBalanced(s, g, date);
    if IsLowerCase(s) {
      GroupsOfLowerCase(s, m);
    }
  }

  /** `parse` on a line that starts with `transfer` is the transfer stub on the
      normalized line; on any other line it fails exactly when the spending regex
      matches nowhere in the normalized line, and then with a parse error that
      carries that line. A spending it returns is balanced at 2 decimal places. */
  lemma ParseDispatch(input: string, date: string)
    ensures var n := Normalize(input); var r := Parse(input, date);
      && (StartsWith(n, "transfer") ==> r == Ok(Transaction(date, n, [], None)))
      && (r.Err? <==> !StartsWith(n, "transfer") && forall m :: !ValidSpans(n, m))
      && (r.Err? ==> r.error == ParseError(n))
      && (r.Ok? && !StartsWith(n, "transfer") ==>
            && |r.value.postings| == 2
            && r.value.postings[0].amount == Negate(r.value.postings[1].amount)
            && r.value.postings[0].decimalPlaces == 2 == r.value.postings[1].decimalPlaces)
  {
    var n := Normalize(input);
    if !StartsWith(n, "transfer") {
      SpendingErrors(n, date);
      if ParseSpending(n, date).Ok? {
        SpendingBalanced(n, date);
      }
    }
  }

  /** `parse` sees its input only through the normalized line: lower-casing it,
      trimming it or normalizing it first changes nothing. */
  lemma ParseNormalizes(input: string, date: string)
    ensures Parse(Lower(input), date) == Parse(input, date)
    ensures Parse(Trim(input), date) == Parse(input, date)
    ensures Parse(Normalize(input), date) == Parse(input, date)
  {
    NormalizeAbsorbs(input);
  }

  /** Lower-casing, trimming or normalizing before normalizing changes nothing. */
  lemma NormalizeAbsorbs(input: string)
    ensures Normalize(Lower(input)) == Normalize(input)
    ensures Normalize(Trim(input)) == Normalize(input)
    ensures Normalize(Normalize(input)) == Normalize(input)
  {
    LowerIdempotent(input);
    LowerTrimCommute(input);
    TrimIdempotent(Lower(input));
    var n := Normalize(input);
    LowerOfLowerCase(n);
    TrimIdempotent(n);
  }
}
