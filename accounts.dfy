/** Resolution of the free-text hints of a spending into account paths. */
module Accounts {
  import opened Text

  /** The word `w` occurs somewhere in the hint. */
  ghost predicate Mentions(hint: string, w: string) {
    exists i :: OccursAt(hint, w, i)
  }

  /** `getAssetCategoryToken`: the first of `cash`, `deniz`, `papara` that occurs
      in the hint picks the category; `Cash` when none does. Each rule holds in
      both directions. */
  function CategoryToken(hint: string): (r: string)
    ensures r in {"Cash", "Deniz", "Papara"}
    ensures r == "Cash" <==>
      Mentions(hint, "cash") || (!Mentions(hint, "deniz") && !Mentions(hint, "papara"))
    ensures r == "Deniz" <==> !Mentions(hint, "cash") && Mentions(hint, "deniz")
    ensures r == "Papara" <==>
      !Mentions(hint, "cash") && !Mentions(hint, "deniz") && Mentions(hint, "papara")
  {
    if Contains(hint, "cash") then "Cash"
    else if Contains(hint, "deniz") then "Deniz"
    else if Contains(hint, "papara") then "Papara"
    else "Cash"
  }

  /** `getAssetPersonToken`: `Alena` exactly when the hint mentions her, else
      `Pavel`. */
  function PersonToken(hint: string): (r: string)
    ensures r in {"Alena", "Pavel"}
    ensures r == "Alena" <==> Mentions(hint, "alena")
  {
    if Contains(hint, "alena") then "Alena" else "Pavel"
  }

  /** `getAssetAccount`: `Assets`, the category, the person and the upper-cased
      currency, empty parts dropped, joined with `:`. */
  function AssetAccount(hint: string, currency: string): (r: string)
    ensures r == "Assets:" + CategoryToken(hint) + ":" + PersonToken(hint)
                 + (if currency == "" then "" else ":" + Upper(currency))
  {
    JoinNonEmpty(CategoryToken(hint), PersonToken(hint), Upper(currency));
    Join(FilterNonEmpty(["Assets", CategoryToken(hint), PersonToken(hint), Upper(currency)]), ':')
  }

  /** Filtering and joining four segments of which the first three are never
      empty: only an empty last segment is dropped. */
  lemma JoinNonEmpty(cat: string, person: string, cur: string)
    requires cat != "" && person != ""
    ensures Join(FilterNonEmpty(["Assets", cat, person, cur]), ':')
         == "Assets:" + cat + ":" + person + (if cur == "" then "" else ":" + cur)
  {
    if cur == "" {
      var head := ["Assets", cat, person];
      FilterNonEmptyKeepsAll(head);
      FilterNonEmptyAppend(head, [cur]);
      assert head + [cur] == ["Assets", cat, person, cur];
      assert FilterNonEmpty([cur]) == [] && head + [] == head;
      JoinThree("Assets", cat, person, ':');
    } else {
      FilterNonEmptyKeepsAll(["Assets", cat, person, cur]);
      JoinFour("Assets", cat, person, cur, ':');
    }
  }

  lemma UpperKeepsColon(s: string)
    ensures ':' in Upper(s) <==> ':' in s
  {
    if ':' in Upper(s) {
      var i :| 0 <= i < |s| && Upper(s)[i] == ':';
      assert s[i] == ':';
    }
    if ':' in s {
      var i :| 0 <= i < |s| && s[i] == ':';
      assert Upper(s)[i] == ':';
    }
  }

  lemma JoinThree(a: string, b: string, c: string, sep: char)
    ensures Join([a, b, c], sep) == a + [sep] + b + [sep] + c
  {
    var segs := [a, b, c];
    assert segs[1..] == [b, c] && segs[1..][1..] == [c];
    assert Join([c], sep) == c;
    assert Join([b, c], sep) == b + [sep] + c;
    assert Join(segs, sep) == a + [sep] + (b + [sep] + c);
  }

  lemma JoinFour(a: string, b: string, c: string, d: string, sep: char)
    ensures Join([a, b, c, d], sep) == a + [sep] + b + [sep] + c + [sep] + d
  {
    var segs := [a, b, c, d];
    assert segs[1..] == [b, c, d] && segs[1..][1..] == [c, d] && segs[1..][1..][1..] == [d];
    assert Join([c, d], sep) == c + [sep] + d;
    assert Join([b, c, d], sep) == b + [sep] + (c + [sep] + d);
    assert Join(segs, sep) == a + [sep] + (b + [sep] + (c + [sep] + d));
  }

  /** The asset account has exactly four `:`-separated segments,
      `Assets:<Category>:<Person>:<CURRENCY>`: the tokens are never empty, so the
      filter removes nothing. */
  lemma AssetAccountSegments(hint: string, currency: string)
    requires currency != "" && ':' !in currency
    ensures Split(AssetAccount(hint, currency), ':') ==
      ["Assets", CategoryToken(hint), PersonToken(hint), Upper(currency)]
    ensures AssetAccount(hint, currency) ==
      "Assets" + ":" + CategoryToken(hint) + ":" + PersonToken(hint) + ":" + Upper(currency)
  {
    var cat, person, cur := CategoryToken(hint), PersonToken(hint), Upper(currency);
    var segs := ["Assets", cat, person, cur];
    assert |cur| == |currency|;
    FilterNonEmptyKeepsAll(segs);
    UpperKeepsColon(currency);
    assert forall i :: 0 <= i < |segs| ==> ':' !in segs[i];
    SplitJoin(segs, ':');
    JoinFour("Assets", cat, person, cur, ':');
  }

  /** The lower-cased, trimmed hints `getExpenseAccount` knows. */
  const ExpenseHints: set<string> :=
    {"medical", "groceries", "cafe", "bar", "taxi", "bus", "hookah", "yandex plus"}

  /** The table of `getExpenseAccount`: the account path between `Expenses` and
      the currency for a trimmed, lower-cased hint; `taxi` and `bus` share one, and
      any other hint goes to `Inbox`. */
  function ExpensePath(key: string): (r: string)
    ensures r == "Inbox" <==> key !in ExpenseHints
  {
    if key == "medical" then "Occasional:Medical"
    else if key == "groceries" then "Live:Groceries"
    else if key == "cafe" then "Live:Restraunt"
    else if key == "bar" then "Fun:Bar"
    else if key == "taxi" || key == "bus" then "Live:Transportation"
    else if key == "hookah" then "Fun:Hookah"
    else if key == "yandex plus" then "Subscriptions:Yandex"
    else "Inbox"
  }

  /** `getExpenseAccount`: `Expenses:`, the table entry of the trimmed, lower-cased
      hint and `:` with the upper-cased currency. Every expense account starts with
      `Expenses:` and ends with `:` and the upper-cased currency; it is the inbox
      exactly when the hint is not in the table. */
  function ExpenseAccount(hint: string, currency: string): (r: string)
    ensures StartsWith(r, "Expenses:")
    ensures |r| > |currency| && r[|r| - |currency| - 1..] == ":" + Upper(currency)
    ensures r == "Expenses:Inbox:" + Upper(currency) <==> Trim(Lower(hint)) !in ExpenseHints
  {
    ExpenseForm(ExpensePath(Trim(Lower(hint))), Upper(currency));
    "Expenses:" + ExpensePath(Trim(Lower(hint))) + ":" + Upper(currency)
  }

  /** `Expenses:<path>:<code>` shows its prefix and its suffix, and determines
      the path. */
  lemma ExpenseForm(path: string, code: string)
    ensures var r := "Expenses:" + path + ":" + code;
      && StartsWith(r, "Expenses:")
      && |r| > |code| && r[|r| - |code| - 1..] == ":" + code
      && (r == "Expenses:Inbox:" + code <==> path == "Inbox")
  {
    var r := "Expenses:" + path + ":" + code;
    assert r[..9] == "Expenses:";
    assert r[|r| - |code| - 1..] == ":" + code;
    var inbox := "Expenses:Inbox:" + code;
    assert inbox == "Expenses:" + "Inbox" + ":" + code;
    if r == inbox {
      assert r[9..|r| - |code| - 1] == path;
      assert inbox[9..|r| - |code| - 1] == "Inbox";
    }
  }

  /** Only the trimmed, lower-cased hint matters: normalizing it first changes
      nothing. */
  lemma ExpenseAccountNormalizes(hint: string, currency: string)
    ensures ExpenseAccount(Trim(Lower(hint)), currency) == ExpenseAccount(hint, currency)
  {
    var key := Trim(Lower(hint));
    calc {
      Trim(Lower(key));
      { LowerTrimCommute(Lower(hint)); }
      Trim(Trim(Lower(Lower(hint))));
      { LowerIdempotent(hint); }
      Trim(Trim(Lower(hint)));
      { TrimIdempotent(Lower(hint)); }
      key;
    }
  }
}
