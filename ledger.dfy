/** The parser proper: `parse`, its spending and transfer branches, and the
    transactions and postings they build. The date is a parameter, standing for
    `dateFormat(new Date())`. */
module Ledger {
  import opened Results
  import opened Text
  import opened Decimals
  import opened Currencies
  import opened Accounts
  import opened SpendingRegex

  /** One line of a double-entry transaction. */
  datatype Posting = Posting(account: string, amount: Decimal, currency: Currency,
                             decimalPlaces: nat, decimalMantissa: int)

  /** A parsed transaction; `comment` is `None` where the source leaves it
      `undefined`. */
  datatype Transaction = Transaction(date: string, description: string,
                                     postings: seq<Posting>, comment: Option<string>)

  /** `[first, second].sort((a, b) => a.account.localeCompare(b.account))`:
      the two postings in account order, kept in place when the accounts are
      equal, as the sort is stable. */
  function SortByAccount(first: Posting, second: Posting): (r: seq<Posting>)
    ensures r == [first, second] || r == [second, first]
    ensures !LexLess(r[1].account, r[0].account)
    ensures first.account == second.account ==> r == [first, second]
  {
    LexLessAsymmetric(first.account, second.account);
    LexLessAsymmetric(first.account, first.account);
    if LexLess(second.account, first.account) then [second, first] else [first, second]
  }

  /** `input.toLowerCase().trimStart().trimEnd()` */
  function Normalize(input: string): (n: string)
    ensures IsLowerCase(n) && IsTrimmed(n)
  {
    TrimKeepsLowerCase(Lower(input));
    Trim(Lower(input))
  }

  /** `match.groups.comment ? trim(match.groups.comment) : undefined`: an absent
      or empty comment is dropped, any other is trimmed. */
  function CommentOf(group: Option<string>): (r: Option<string>)
    ensures r.None? <==> group.None? || group.value == ""
    ensures r.Some? ==> IsTrimmed(r.value) && |r.value| <= |group.value|
    ensures r.Some? ==> r.value == Trim(group.value)
  {
    match group
    case Some(c) => if c != "" then Some(Trim(c)) else None
    case None => None
  }

  /** `parseSpending`: match the regex and check that the groups it needs are
      there, then build the transaction from the groups. A parse error, carrying
      the input, comes exactly when the regex does not match; the only other error
      is an unknown currency. */
  function ParseSpending(input: string, date: string): (r: Result<Transaction>)
    ensures r.Err? ==> r.error == ParseError(input) || r.error.UnknownCurrency?
    ensures r == Err(ParseError(input)) <==> MatchSpending(input).None?
    ensures r.Ok? ==> r.value.date == date && |r.value.postings| == 2
  {
    match MatchSpending(input)
    case None => Err(ParseError(input))
    case Some(m) =>
      var g := GroupsOf(input, m);
      GroupsOfValid(input, m);
      if g.amount == "" || g.currency == "" || g.toAccount == "" then Err(ParseError(input))
      else SpendingOf(input, g, date)
  }

  /** The hint `match.groups.from_account || ""`. */
  function FromHint(g: Groups): string {
    OrEmpty(g.fromAccount)
  }

  /** The body of `parseSpending` after the match: build the asset debit and the
      expense credit, refuse a positive debit, and sort the two postings by
      account. */
  function SpendingOf(input: string, g: Groups, date: string): (r: Result<Transaction>)
    requires IsAmountText(g.amount) && |g.toAccount| > 0
    ensures r.Err? <==> CurrencyOf(g.currency).Err?
    ensures r.Err? ==> r.error == UnknownCurrency(g.currency)
    ensures r.Ok? ==> r.value.date == date && |r.value.postings| == 2
                      && IsTrimmed(r.value.description)
  {
    var amount := ToDecimal(g.amount);
    var debit := Negate(amount);
    match CurrencyOf(g.currency)
    case Err(e) => Err(e)
    case Ok(currency) =>
      var places := DecimalPlaces(g.currency);
      var fromPosting := Posting(AssetAccount(FromHint(g), g.currency), debit, currency,
                                 places, Mantissa(debit, places));
      if debit.mant > 0 then Err(NegativeFromAmount(input))
      else
        var toPosting := Posting(ExpenseAccount(g.toAccount, g.currency), amount, currency,
                                 places, Mantissa(amount, places));
        Ok(Transaction(date, Trim(Capitalize(g.toAccount)),
                       SortByAccount(toPosting, fromPosting), CommentOf(g.comment)))
  }

  /** `parseTransfer`: a stub that echoes its input as the description and books
      nothing. */
  function ParseTransfer(input: string, date: string): (t: Transaction)
    ensures t.postings == [] && t.comment.None?
    ensures t.date == date && t.description == input
  {
    Transaction(date, input, [], None)
  }

  /** `parse`: normalize, then dispatch on the `transfer` prefix. The only error
      it can give is a parse error carrying the normalized line, as the currency
      word of a normalized line is always in lower case. */
  function Parse(input: string, date: string): (r: Result<Transaction>)
    ensures r.Err? ==> r.error == ParseError(Normalize(input))
    ensures StartsWith(Normalize(input), "transfer") ==> r.Ok? && r.value.postings == []
    ensures r.Ok? ==> r.value.date == date
  {
    var n := Normalize(input);
    ParseLowerCase(n, date);
    if StartsWith(n, "transfer") then Ok(ParseTransfer(n, date)) else ParseSpending(n, date)
  }

  /** On a lower-case line `parseSpending` never reports an unknown currency: the
      currency group is a substring of the line, so it is in lower case too. */
  lemma ParseLowerCase(s: string, date: string)
    requires IsLowerCase(s)
    ensures ParseSpending(s, date).Err? ==> ParseSpending(s, date).error == ParseError(s)
  {
    if MatchSpending(s).Some? {
      var m := MatchSpending(s).value;
      var g := GroupsOf(s, m);
      GroupsOfValid(s, m);
      GroupsOfLowerCase(s, m);
      LowerOfLowerCase(g.currency);
      assert g.currency in CurrencyWords;
      assert CurrencyOf(g.currency).Ok?;
    }
  }
}
