/** Whole lines through `parse`, as the repository's own test suite writes them.
    Each line is taken apart in the same steps: the texts of its groups, the spans
    of the regex match, the normalized line, and the transaction built from the
    groups. */
module Scenarios {
  import opened Results
  import opened Text
  import opened Decimals
  import opened Currencies
  import opened Accounts
  import opened SpendingRegex
  import opened Ledger
  import opened LedgerProperties

  /** A lower-case, trimmed line is its own normal form. */
  lemma NormalizeNormal(s: string)
    requires IsLowerCase(s) && IsTrimmed(s)
    ensures Normalize(s) == s
  {
    LowerOfLowerCase(s);
    assert "" + s + "" == s;
    TrimPadded("", s, "");
  }

  /** A normalized spending line whose regex match is known goes to the building
      step with the groups of that match. */
  lemma SpendingLine(s: string, m: Spans, g: Groups, date: string)
    requires IsLowerCase(s) && IsTrimmed(s) && !StartsWith(s, "transfer")
    requires MatchSpending(s) == Some(m) && GroupsOf(s, m) == g
    ensures WellFormed(g)
    ensures Parse(s, date) == SpendingOf(s, g, date)
  {
    NormalizeNormal(s);
    SpendingMatched(s, date);
  }

  /** The building step once every value it computes is known. */
  lemma SpendingOfValues(input: string, g: Groups, date: string, description: string,
                         asset: string, expense: string, currency: Currency,
                         amount: Decimal, debitMantissa: int, creditMantissa: int)
    requires WellFormed(g)
    requires Trim(Capitalize(g.toAccount)) == description
    requires AssetAccount(FromHint(g), g.currency) == asset
    requires ExpenseAccount(g.toAccount, g.currency) == expense
    requires CurrencyOf(g.currency) == Ok(currency) && DecimalPlaces(g.currency) == 2
    requires ToDecimal(g.amount) == amount
    requires Mantissa(Negate(amount), 2) == debitMantissa && Mantissa(amount, 2) == creditMantissa
    ensures SpendingOf(input, g, date) == Ok(Transaction(date, description,
      [Posting(asset, Negate(amount), currency, 2, debitMantissa),
       Posting(expense, amount, currency, 2, creditMantissa)], CommentOf(g.comment)))
  {
    AssetAccountOfGroups(g);
    AssetsBeforeExpenses(asset, expense);
    var fromPosting := Posting(asset, Negate(amount), currency, 2, debitMantissa);
    var toPosting := Posting(expense, amount, currency, 2, creditMantissa);
    assert SortByAccount(toPosting, fromPosting) == [fromPosting, toPosting];
  }

  // Values shared by the lines below.

  /** An asset account whose three tokens are known. */
  lemma AssetAccountIs(hint: string, currency: string, category: string, person: string, code: string)
    requires CategoryToken(hint) == category && PersonToken(hint) == person
    requires Upper(currency) == code && code != ""
    ensures AssetAccount(hint, currency) == "Assets:" + category + ":" + person + ":" + code
  {
  }

  /** An expense account whose path and code are known. */
  lemma ExpenseAccountIs(hint: string, currency: string, path: string, code: string)
    requires ExpensePath(Trim(Lower(hint))) == path && Upper(currency) == code
    ensures ExpenseAccount(hint, currency) == "Expenses:" + path + ":" + code
  {
  }

  /** The amount `120` is 120 exactly, 12000 hundredths. */
  lemma Amount120()
    ensures ToDecimal("120") == Decimal(120, 0)
    ensures Mantissa(Decimal(120, 0), 2) == 12000
    ensures Mantissa(Decimal(-120, 0), 2) == -12000
  {
    assert AllDigits("120");
    assert "120"[..2] == "12" && "12"[..1] == "1" && "1"[..0] == "";
    assert DigitsValue("120") == 120;
  }

  lemma PavelUsd()
    ensures AssetAccount("", "usd") == "Assets:Cash:Pavel:USD"
  {
    assert "Assets:" + "Cash" + ":" + "Pavel" + ":" + "USD" == "Assets:Cash:Pavel:USD";
    assert CategoryToken("") == "Cash" && PersonToken("") == "Pavel";
    TokenNamesCurrency(USD);
    AssetAccountIs("", Token(USD), "Cash", "Pavel", "USD");
  }

  lemma PavelTry()
    ensures AssetAccount("", "try") == "Assets:Cash:Pavel:TRY"
  {
    assert "Assets:" + "Cash" + ":" + "Pavel" + ":" + "TRY" == "Assets:Cash:Pavel:TRY";
    assert CategoryToken("") == "Cash" && PersonToken("") == "Pavel";
    TokenNamesCurrency(TRY);
    AssetAccountIs("", Token(TRY), "Cash", "Pavel", "TRY");
  }

  lemma AlenaNotCategory()
    ensures !Contains("alena ", "cash") && !Contains("alena ", "deniz") && !Contains("alena ", "papara")
  {
    var h := "alena ";
    assert h[1..] == "lena " && h[1..][1..] == "ena " && h[1..][1..][1..] == "na ";
    assert h[..4] != "cash" && h[..5] != "deniz" && h[..6] != "papara" by {
      assert h[..4][0] == 'a' && h[..5][0] == 'a' && h[..6][0] == 'a';
    }
    assert "lena "[..4] != "cash" && "lena "[..5] != "deniz" by {
      assert "lena "[..4][0] == 'l' && "lena "[..5][0] == 'l';
    }
    assert "ena "[..4] != "cash" by {
      assert "ena "[..4][0] == 'e';
    }
  }

  /** `alena ` names Alena's cash. */
  lemma AlenaTokens()
    ensures CategoryToken("alena ") == "Cash" && PersonToken("alena ") == "Alena"
  {
    AlenaNotCategory();
    assert "alena "[..5] == "alena";
  }

  lemma AlenaTry(hint: string, currency: string)
    requires hint == "alena " && currency == "try"
    ensures AssetAccount(hint, currency) == "Assets:Cash:Alena:TRY"
  {
    assert "Assets:" + "Cash" + ":" + "Alena" + ":" + "TRY" == "Assets:Cash:Alena:TRY";
    AlenaTokens();
    TokenNamesCurrency(TRY);
    AssetAccountIs("alena ", Token(TRY), "Cash", "Alena", "TRY");
  }

  /** A hint that normalizes to `cafe` has the expense account of `cafe`. */
  lemma Restaurant(hint: string, currency: string)
    requires Trim(Lower(hint)) == "cafe"
    ensures ExpenseAccount(hint, currency) == ExpenseAccount("cafe", currency)
  {
    CafeLower();
  }

  lemma CafeLower()
    ensures Trim(Lower("cafe")) == "cafe"
  {
    assert IsLowerCase("cafe") && IsTrimmed("cafe");
    LowerOfLowerCase("cafe");
    assert "" + "cafe" + "" == "cafe";
    TrimPadded("", "cafe", "");
  }

  lemma CafeCapitalized()
    ensures Trim(Capitalize("cafe")) == "Cafe"
  {
    assert Capitalize("cafe") == "Cafe";
    assert IsTrimmed("Cafe");
    assert "" + "Cafe" + "" == "Cafe";
    TrimPadded("", "Cafe", "");
  }

  /** With two spaces after the currency, `to_account` is ` cafe` and the
      description stays in lower case. */
  lemma SpacedCafeDescription()
    ensures Trim(Capitalize(" cafe")) == "cafe"
  {
    DescriptionLeadingSpace(" cafe");
    CafeLower();
    assert " cafe" == " " + "cafe" + "" && AllSpace(" ");
    TrimPadded(" ", "cafe", "");
  }

  /** The expense table sends `cafe` to the restaurant account. */
  lemma CafePath()
    ensures ExpensePath("cafe") == "Live:Restraunt"
  {
  }

  lemma RestaurantUsd()
    ensures ExpenseAccount("cafe", "usd") == "Expenses:Live:Restraunt:USD"
  {
    assert "Expenses:" + "Live:Restraunt" + ":" + "USD" == "Expenses:Live:Restraunt:USD";
    CafeLower();
    CafePath();
    TokenNamesCurrency(USD);
    ExpenseAccountIs("cafe", Token(USD), "Live:Restraunt", "USD");
  }

  lemma RestaurantTry()
    ensures ExpenseAccount("cafe", "try") == "Expenses:Live:Restraunt:TRY"
  {
    assert "Expenses:" + "Live:Restraunt" + ":" + "TRY" == "Expenses:Live:Restraunt:TRY";
    CafeLower();
    CafePath();
    TokenNamesCurrency(TRY);
    ExpenseAccountIs("cafe", Token(TRY), "Live:Restraunt", "TRY");
  }

  // 120 usd cafe

  lemma CafeGroups()
    ensures var g := Groups(None, "120", "usd", "cafe", None);
      WellFormed(g) && Line(g) == "120 usd cafe" && LineSpans(g) == Spans(0, 0, 3, 4, 12, 12, 12)
  {
    var g := Groups(None, "120", "usd", "cafe", None);
    TestGroupsWellFormed(None, USD, "cafe", None);
    assert Line(g) == "120 usd cafe" && LineSpans(g) == Spans(0, 0, 3, 4, 12, 12, 12);
  }

  /** The groups the repository's test lines spell out are well formed: amount
      `120`, a lower-case currency token, and letters and spaces around them. */
  lemma TestGroupsWellFormed(from: Option<string>, c: Currency, to: string, comment: Option<string>)
    requires from == None || from == Some("alena ") || from == Some("pavel ")
    requires c == USD || c == TRY || c == RUB
    requires to == "cafe" || to == "cafe " || to == "yandex plus "
    requires comment == None || comment == Some(" some comment")
    ensures WellFormed(Groups(from, "120", Token(c), to, comment))
  {
    assert AllDigits("120");
    var token := Token(c);
    assert |token| == 3 && IsLowerCase(token) && forall i :: 0 <= i < 3 ==> IsLetter(token[i]);
    LowerOfLowerCase(token);
    assert forall i :: 0 <= i < |to| ==> IsLetterOrSpace(to[i]) by {
      if to == "cafe" {} else if to == "cafe " {} else {}
    }
  }

  /** The regex on `120 usd cafe`: no `from_account`, amount `120`, currency
      `usd` after one space, `to_account` `cafe` to the end, no comment. */
  lemma CafeMatch()
    ensures MatchSpending("120 usd cafe") == Some(Spans(0, 0, 3, 4, 12, 12, 12))
    ensures GroupsOf("120 usd cafe", Spans(0, 0, 3, 4, 12, 12, 12))
         == Groups(None, "120", "usd", "cafe", None)
  {
    CafeGroups();
    LineRoundTrip(Groups(None, "120", "usd", "cafe", None));
  }

  lemma CafeSpendingOf(date: string)
    ensures SpendingOf("120 usd cafe", Groups(None, "120", "usd", "cafe", None), date)
         == Ok(Transaction(date, "Cafe",
              [Posting("Assets:Cash:Pavel:USD", Decimal(-120, 0), USD, 2, -12000),
               Posting("Expenses:Live:Restraunt:USD", Decimal(120, 0), USD, 2, 12000)], None))
  {
    var g := Groups(None, "120", "usd", "cafe", None);
    TestGroupsWellFormed(None, USD, "cafe", None);
    assert FromHint(g) == "" && g.currency == Token(USD);
    TokenNamesCurrency(USD);
    Amount120();
    PavelUsd();
    RestaurantUsd();
    CafeCapitalized();
    SpendingOfValues("120 usd cafe", g, date, "Cafe", "Assets:Cash:Pavel:USD",
                     "Expenses:Live:Restraunt:USD", USD, Decimal(120, 0), -12000, 12000);
  }

  lemma CafeLine()
    ensures var s := "120 usd cafe";
      IsLowerCase(s) && IsTrimmed(s) && !StartsWith(s, "transfer")
  {
    var s := "120 usd cafe";
    assert IsLowerCase(s);
    assert s[0] == '1';
  }

  /** `120 usd cafe`: 120 dollars from Pavel's cash to the restaurant account,
      described as `Cafe`, at 2 decimal places. */
  lemma CafeSpending(date: string)
    ensures Parse("120 usd cafe", date) == Ok(Transaction(date, "Cafe",
      [Posting("Assets:Cash:Pavel:USD", Decimal(-120, 0), USD, 2, -12000),
       Posting("Expenses:Live:Restraunt:USD", Decimal(120, 0), USD, 2, 12000)], None))
  {
    var s := "120 usd cafe";
    CafeLine();
    CafeMatch();
    SpendingLine(s, Spans(0, 0, 3, 4, 12, 12, 12), Groups(None, "120", "usd", "cafe", None), date);
    CafeSpendingOf(date);
  }

  // alena 120 try cafe

  lemma AlenaGroups()
    ensures var g := Groups(Some("alena "), "120", "try", "cafe", None);
      WellFormed(g) && Line(g) == "alena 120 try cafe" && LineSpans(g) == Spans(0, 6, 9, 10, 18, 18, 18)
  {
    var g := Groups(Some("alena "), "120", "try", "cafe", None);
    TestGroupsWellFormed(Some("alena "), TRY, "cafe", None);
    assert Line(g) == "alena 120 try cafe" && LineSpans(g) == Spans(0, 6, 9, 10, 18, 18, 18);
  }

  /** The regex on `alena 120 try cafe`: `from_account` is `alena ` with its
      space, then the amount, the currency and `to_account`. */
  lemma AlenaMatch()
    ensures MatchSpending("alena 120 try cafe") == Some(Spans(0, 6, 9, 10, 18, 18, 18))
    ensures GroupsOf("alena 120 try cafe", Spans(0, 6, 9, 10, 18, 18, 18))
         == Groups(Some("alena "), "120", "try", "cafe", None)
  {
    AlenaGroups();
    LineRoundTrip(Groups(Some("alena "), "120", "try", "cafe", None));
  }

  lemma AlenaLine()
    ensures var s := "alena 120 try cafe";
      IsLowerCase(s) && IsTrimmed(s) && !StartsWith(s, "transfer")
  {
    var s := "alena 120 try cafe";
    assert IsLowerCase(s) by {
      forall i | 0 <= i < |s| ensures !IsUpper(s[i]) {
        assert s == "alena " + "120 try cafe";
      }
    }
    assert s[1] == 'l';
  }

  /** `alena 120 try cafe`: the money comes from Alena's cash. */
  lemma AlenaSpending(date: string)
    ensures Parse("alena 120 try cafe", date) == Ok(Transaction(date, "Cafe",
      [Posting("Assets:Cash:Alena:TRY", Decimal(-120, 0), TRY, 2, -12000),
       Posting("Expenses:Live:Restraunt:TRY", Decimal(120, 0), TRY, 2, 12000)], None))
  {
    var s := "alena 120 try cafe";
    var g := Groups(Some("alena "), "120", "try", "cafe", None);
    AlenaLine();
    AlenaGroups();
    LineRoundTrip(g);
    SpendingLine(s, Spans(0, 6, 9, 10, 18, 18, 18), g, date);
    assert FromHint(g) == "alena ";
    TokenNamesCurrency(TRY);
    Amount120();
    AlenaTry(FromHint(g), g.currency);
    CafeLower();
    Restaurant(g.toAccount, g.currency);
    RestaurantTry();
    CafeCapitalized();
    SpendingOfValues(s, g, date, "Cafe", "Assets:Cash:Alena:TRY",
                     "Expenses:Live:Restraunt:TRY", TRY, Decimal(120, 0), -12000, 12000);
  }

  // 120 try cafe ; some comment

  lemma CommentGroups()
    ensures var g := Groups(None, "120", "try", "cafe ", Some(" some comment"));
      && WellFormed(g) && Line(g) == "120 try cafe ; some comment"
      && LineSpans(g) == Spans(0, 0, 3, 4, 13, 14, 27)
  {
    var g := Groups(None, "120", "try", "cafe ", Some(" some comment"));
    TestGroupsWellFormed(None, TRY, "cafe ", Some(" some comment"));
    assert "" + "120" + " " + "try" + " " == "120 try ";
    assert "120 try " + "cafe " + (";" + " some comment") == "120 try cafe ; some comment";
    assert Line(g) == "120 try cafe ; some comment" && LineSpans(g) == Spans(0, 0, 3, 4, 13, 14, 27);
  }

  /** The regex on `120 try cafe ; some comment`: `to_account` stops at the `;`
      with its trailing space, the `;` is consumed and the comment runs to the
      end. */
  lemma CommentMatch()
    ensures MatchSpending("120 try cafe ; some comment") == Some(Spans(0, 0, 3, 4, 13, 14, 27))
    ensures GroupsOf("120 try cafe ; some comment", Spans(0, 0, 3, 4, 13, 14, 27))
         == Groups(None, "120", "try", "cafe ", Some(" some comment"))
  {
    CommentGroups();
    LineRoundTrip(Groups(None, "120", "try", "cafe ", Some(" some comment")));
  }

  lemma CommentLine()
    ensures var s := "120 try cafe ; some comment";
      IsLowerCase(s) && IsTrimmed(s) && !StartsWith(s, "transfer")
  {
    CommentLowerCase();
    assert "120 try cafe ; some comment"[0] == '1';
  }

  lemma CommentLowerCase()
    ensures IsLowerCase("120 try cafe ; some comment")
  {
    assert IsLowerCase("120 try cafe") && IsLowerCase(" ; some comment");
    LowerCaseAppend("120 try cafe", " ; some comment");
    assert "120 try cafe ; some comment" == "120 try cafe" + " ; some comment";
  }

  lemma LowerCaseAppend(a: string, b: string)
    requires IsLowerCase(a) && IsLowerCase(b)
    ensures IsLowerCase(a + b)
  {
  }

  lemma CommentHintLower()
    ensures Trim(Lower("cafe ")) == "cafe"
  {
    assert IsLowerCase("cafe ");
    LowerOfLowerCase("cafe ");
    assert IsTrimmed("cafe") && "" + "cafe" + " " == "cafe ";
    TrimPadded("", "cafe", " ");
  }

  lemma CommentDescription()
    ensures Trim(Capitalize("cafe ")) == "Cafe"
  {
    assert IsTrimmed("Cafe") && Capitalize("cafe ") == "" + "Cafe" + " ";
    TrimPadded("", "Cafe", " ");
  }

  lemma CommentText()
    ensures CommentOf(Some(" some comment")) == Some("some comment")
  {
    assert IsTrimmed("some comment") && " some comment" == " " + "some comment" + "";
    TrimPadded(" ", "some comment", "");
  }

  lemma CommentRestaurant()
    ensures ExpenseAccount("cafe ", "try") == "Expenses:Live:Restraunt:TRY"
  {
    CommentHintLower();
    Restaurant("cafe ", "try");
    RestaurantTry();
  }

  lemma CommentSpendingOf(date: string)
    ensures SpendingOf("120 try cafe ; some comment",
                       Groups(None, "120", "try", "cafe ", Some(" some comment")), date)
         == Ok(Transaction(date, "Cafe",
              [Posting("Assets:Cash:Pavel:TRY", Decimal(-120, 0), TRY, 2, -12000),
               Posting("Expenses:Live:Restraunt:TRY", Decimal(120, 0), TRY, 2, 12000)],
              Some("some comment")))
  {
    var g := Groups(None, "120", "try", "cafe ", Some(" some comment"));
    TestGroupsWellFormed(None, TRY, "cafe ", Some(" some comment"));
    assert FromHint(g) == "";
    TokenNamesCurrency(TRY);
    Amount120();
    PavelTry();
    CommentRestaurant();
    CommentDescription();
    CommentText();
    SpendingOfValues("120 try cafe ; some comment", g, date, "Cafe", "Assets:Cash:Pavel:TRY",
                     "Expenses:Live:Restraunt:TRY", TRY, Decimal(120, 0), -12000, 12000);
  }

  /** `120 try cafe ; some comment`: the space before `;` is trimmed from the
      description and the expense hint, and the comment is trimmed. */
  lemma CommentSpending(date: string)
    ensures Parse("120 try cafe ; some comment", date) == Ok(Transaction(date, "Cafe",
      [Posting("Assets:Cash:Pavel:TRY", Decimal(-120, 0), TRY, 2, -12000),
       Posting("Expenses:Live:Restraunt:TRY", Decimal(120, 0), TRY, 2, 12000)],
      Some("some comment")))
  {
    var s := "120 try cafe ; some comment";
    CommentLine();
    CommentMatch();
    SpendingLine(s, Spans(0, 0, 3, 4, 13, 14, 27),
                 Groups(None, "120", "try", "cafe ", Some(" some comment")), date);
    CommentSpendingOf(date);
  }

  // 120 try cafe

  lemma TryCafeGroups()
    ensures var g := Groups(None, "120", "try", "cafe", None);
      WellFormed(g) && Line(g) == "120 try cafe" && LineSpans(g) == Spans(0, 0, 3, 4, 12, 12, 12)
  {
    var g := Groups(None, "120", "try", "cafe", None);
    TestGroupsWellFormed(None, TRY, "cafe", None);
    assert Line(g) == "120 try cafe" && LineSpans(g) == Spans(0, 0, 3, 4, 12, 12, 12);
  }

  lemma TryCafeLine()
    ensures var s := "120 try cafe";
      IsLowerCase(s) && IsTrimmed(s) && !StartsWith(s, "transfer")
  {
    var s := "120 try cafe";
    assert IsLowerCase(s);
    assert s[0] == '1';
  }

  /** `120 try cafe`: the same spending in lira. */
  lemma TryCafeSpending(date: string)
    ensures Parse("120 try cafe", date) == Ok(Transaction(date, "Cafe",
      [Posting("Assets:Cash:Pavel:TRY", Decimal(-120, 0), TRY, 2, -12000),
       Posting("Expenses:Live:Restraunt:TRY", Decimal(120, 0), TRY, 2, 12000)], None))
  {
    var s := "120 try cafe";
    var g := Groups(None, "120", "try", "cafe", None);
    TryCafeLine();
    TryCafeGroups();
    LineRoundTrip(g);
    SpendingLine(s, Spans(0, 0, 3, 4, 12, 12, 12), g, date);
    assert FromHint(g) == "";
    TokenNamesCurrency(TRY);
    Amount120();
    PavelTry();
    RestaurantTry();
    CafeCapitalized();
    SpendingOfValues(s, g, date, "Cafe", "Assets:Cash:Pavel:TRY",
                     "Expenses:Live:Restraunt:TRY", TRY, Decimal(120, 0), -12000, 12000);
  }

  // pavel 120 try cafe

  lemma PavelNotMentioned()
    ensures !Contains("pavel ", "cash") && !Contains("pavel ", "deniz")
    ensures !Contains("pavel ", "papara") && !Contains("pavel ", "alena")
  {
    var h := "pavel ";
    assert h[1..] == "avel " && h[1..][1..] == "vel ";
    assert h[..4][0] == 'p' && h[..5][0] == 'p' && h[..6][2] == 'v';
    assert "avel "[..4][0] == 'a' && "avel "[..5][0] == 'a' && "avel "[..5][1] == 'v';
    assert "vel "[..4][0] == 'v';
  }

  /** `pavel ` names no category and not Alena: Pavel's cash, as with no hint. */
  lemma PavelHintTokens()
    ensures CategoryToken("pavel ") == "Cash" && PersonToken("pavel ") == "Pavel"
  {
    PavelNotMentioned();
  }

  lemma PavelHintTry(hint: string, currency: string)
    requires hint == "pavel " && currency == "try"
    ensures AssetAccount(hint, currency) == "Assets:Cash:Pavel:TRY"
  {
    assert "Assets:" + "Cash" + ":" + "Pavel" + ":" + "TRY" == "Assets:Cash:Pavel:TRY";
    PavelHintTokens();
    TokenNamesCurrency(TRY);
    AssetAccountIs("pavel ", Token(TRY), "Cash", "Pavel", "TRY");
  }

  lemma PavelGroups()
    ensures var g := Groups(Some("pavel "), "120", "try", "cafe", None);
      WellFormed(g) && Line(g) == "pavel 120 try cafe" && LineSpans(g) == Spans(0, 6, 9, 10, 18, 18, 18)
  {
    var g := Groups(Some("pavel "), "120", "try", "cafe", None);
    TestGroupsWellFormed(Some("pavel "), TRY, "cafe", None);
    assert Line(g) == "pavel 120 try cafe" && LineSpans(g) == Spans(0, 6, 9, 10, 18, 18, 18);
  }

  lemma PavelLine()
    ensures var s := "pavel 120 try cafe";
      IsLowerCase(s) && IsTrimmed(s) && !StartsWith(s, "transfer")
  {
    var s := "pavel 120 try cafe";
    assert IsLowerCase("pavel ") && IsLowerCase("120 try cafe");
    LowerCaseAppend("pavel ", "120 try cafe");
    assert s == "pavel " + "120 try cafe";
    assert s[0] == 'p';
  }

  /** `pavel 120 try cafe`: naming Pavel changes nothing, his cash is the
      default. */
  lemma PavelSpending(date: string)
    ensures Parse("pavel 120 try cafe", date) == Ok(Transaction(date, "Cafe",
      [Posting("Assets:Cash:Pavel:TRY", Decimal(-120, 0), TRY, 2, -12000),
       Posting("Expenses:Live:Restraunt:TRY", Decimal(120, 0), TRY, 2, 12000)], None))
  {
    var s := "pavel 120 try cafe";
    var g := Groups(Some("pavel "), "120", "try", "cafe", None);
    PavelLine();
    PavelGroups();
    LineRoundTrip(g);
    SpendingLine(s, Spans(0, 6, 9, 10, 18, 18, 18), g, date);
    assert FromHint(g) == "pavel ";
    TokenNamesCurrency(TRY);
    Amount120();
    PavelHintTry(FromHint(g), g.currency);
    CafeLower();
    Restaurant(g.toAccount, g.currency);
    RestaurantTry();
    CafeCapitalized();
    SpendingOfValues(s, g, date, "Cafe", "Assets:Cash:Pavel:TRY",
                     "Expenses:Live:Restraunt:TRY", TRY, Decimal(120, 0), -12000, 12000);
  }

  // 120 rub yandex plus ; some comment

  lemma YandexGroups()
    ensures var g := Groups(None, "120", "rub", "yandex plus ", Some(" some comment"));
      && WellFormed(g) && Line(g) == "120 rub yandex plus ; some comment"
      && LineSpans(g) == Spans(0, 0, 3, 4, 20, 21, 34)
  {
    var g := Groups(None, "120", "rub", "yandex plus ", Some(" some comment"));
    TestGroupsWellFormed(None, RUB, "yandex plus ", Some(" some comment"));
    assert "" + "120" + " " + "rub" + " " == "120 rub ";
    assert "120 rub " + "yandex plus " == "120 rub yandex plus ";
    assert "120 rub yandex plus " + (";" + " some comment") == "120 rub yandex plus ; some comment";
    assert Line(g) == "120 rub yandex plus ; some comment" && LineSpans(g) == Spans(0, 0, 3, 4, 20, 21, 34);
  }

  lemma YandexLine()
    ensures var s := "120 rub yandex plus ; some comment";
      IsLowerCase(s) && IsTrimmed(s) && !StartsWith(s, "transfer")
  {
    YandexLowerCase();
    assert "120 rub yandex plus ; some comment"[0] == '1';
  }

  lemma YandexLowerCase()
    ensures IsLowerCase("120 rub yandex plus ; some comment")
  {
    assert IsLowerCase("120 rub yandex plus") && IsLowerCase(" ; some comment");
    LowerCaseAppend("120 rub yandex plus", " ; some comment");
    assert "120 rub yandex plus ; some comment" == "120 rub yandex plus" + " ; some comment";
  }

  lemma YandexHintLower()
    ensures Trim(Lower("yandex plus ")) == "yandex plus"
  {
    assert IsLowerCase("yandex plus ");
    LowerOfLowerCase("yandex plus ");
    assert IsTrimmed("yandex plus") && "" + "yandex plus" + " " == "yandex plus ";
    TrimPadded("", "yandex plus", " ");
  }

  /** The description keeps the inner space and loses the trailing one. */
  lemma YandexDescription()
    ensures Trim(Capitalize("yandex plus ")) == "Yandex plus"
  {
    assert IsTrimmed("Yandex plus") && Capitalize("yandex plus ") == "" + "Yandex plus" + " ";
    TrimPadded("", "Yandex plus", " ");
  }

  lemma YandexExpense(hint: string, currency: string)
    requires hint == "yandex plus " && currency == "rub"
    ensures ExpenseAccount(hint, currency) == "Expenses:Subscriptions:Yandex:RUB"
  {
    assert "Expenses:" + "Subscriptions:Yandex" + ":" + "RUB" == "Expenses:Subscriptions:Yandex:RUB";
    YandexHintLower();
    assert currency == Token(RUB);
    TokenNamesCurrency(RUB);
    Subscription(hint, currency, "RUB");
  }

  /** A hint that normalizes to `yandex plus` is the subscription expense. */
  lemma Subscription(hint: string, currency: string, code: string)
    requires Trim(Lower(hint)) == "yandex plus" && Upper(currency) == code
    ensures ExpenseAccount(hint, currency) == "Expenses:" + "Subscriptions:Yandex" + ":" + code
  {
    YandexPath();
    ExpenseAccountIs(hint, currency, "Subscriptions:Yandex", code);
  }

  /** The expense table sends `yandex plus` to the subscription account. */
  lemma YandexPath()
    ensures ExpensePath("yandex plus") == "Subscriptions:Yandex"
  {
  }

  lemma PavelRub()
    ensures AssetAccount("", "rub") == "Assets:Cash:Pavel:RUB"
  {
    assert "Assets:" + "Cash" + ":" + "Pavel" + ":" + "RUB" == "Assets:Cash:Pavel:RUB";
    assert CategoryToken("") == "Cash" && PersonToken("") == "Pavel";
    TokenNamesCurrency(RUB);
    AssetAccountIs("", Token(RUB), "Cash", "Pavel", "RUB");
  }

  /** `120 rub yandex plus ; some comment`: a two-word `to_account` picks the
      subscription account, and the description is `Yandex plus`. */
  lemma YandexSpending(date: string)
    ensures Parse("120 rub yandex plus ; some comment", date) == Ok(Transaction(date, "Yandex plus",
      [Posting("Assets:Cash:Pavel:RUB", Decimal(-120, 0), RUB, 2, -12000),
       Posting("Expenses:Subscriptions:Yandex:RUB", Decimal(120, 0), RUB, 2, 12000)],
      Some("some comment")))
  {
    var s := "120 rub yandex plus ; some comment";
    var g := Groups(None, "120", "rub", "yandex plus ", Some(" some comment"));
    assert FromHint(g) == "" && g.currency == Token(RUB);
    YandexLine();
    YandexGroups();
    LineRoundTrip(g);
    SpendingLine(s, Spans(0, 0, 3, 4, 20, 21, 34), g, date);
    TokenNamesCurrency(RUB);
    Amount120();
    PavelRub();
    YandexExpense(g.toAccount, g.currency);
    YandexDescription();
    CommentText();
    SpendingOfValues(s, g, date, "Yandex plus", "Assets:Cash:Pavel:RUB",
                     "Expenses:Subscriptions:Yandex:RUB", RUB, Decimal(120, 0), -12000, 12000);
  }

  // transfer

  /** A line starting with `Transfer` comes back as the stub: the normalized
      line as the description, no postings and no comment. */
  lemma TransferStub(date: string)
    ensures Parse(" Transfer ", date) == Ok(Transaction(date, "transfer", [], None))
  {
    assert StartsWith("transfer", "transfer");
    TransferNormal();
    TransferLine(" Transfer ", "transfer", date);
  }

  /** A line whose normal form starts with `transfer` goes to the stub. */
  lemma TransferLine(input: string, n: string, date: string)
    requires Normalize(input) == n && StartsWith(n, "transfer")
    ensures Parse(input, date) == Ok(Transaction(date, n, [], None))
  {
  }

  lemma TransferNormal()
    ensures Normalize(" Transfer ") == "transfer"
  {
    assert Lower(" Transfer ") == " " + "transfer" + " ";
    assert IsTrimmed("transfer");
    TrimPadded(" ", "transfer", " ");
  }
}
