# finance-parse in Dafny

finance-parse turns one line of free text about money into a double-entry
transaction in the style of a plain-text ledger. `parse` lower-cases and trims
the line. If the result starts with `transfer`, it is handed to the transfer
parser, which is a stub. Any other line is a spending such as
`alena 120 try cafe ; dinner`. One regular expression cuts a spending line into
these groups:

- an optional `from_account` hint;
- the amount;
- a currency word;
- a `to_account` hint;
- an optional comment.

The parser then builds two postings:

- an asset debit (`Assets:<Category>:<Person>:<CURRENCY>`);
- an expense credit (`Expenses:<path>:<CURRENCY>`, the path looked up from the
  trimmed, lower-cased `to_account`).

Both postings carry their amount, currency, number of decimal places and
fixed-point mantissa, and are sorted by account. The description is the
capitalized `to_account` and the comment is trimmed.

The model is written in pure functions and lemmas, as the source is. Its modules:

- `Results`: the error values the source throws, as a `Result`.
- `Text`: case mapping, `trim`, `indexOf`, `split`/`join`, the account order.
- `Decimals`: the exact value of an amount text and the `toFixed(0)` mantissa.
- `Currencies`: `getCurrency` and `getDecimalPlaces`.
- `Accounts`: the asset and expense account helpers.
- `SpendingRegex`: the spending regex under JavaScript's matching rules. Three
  predicates state it:
  - the grammar of the group positions (`ValidSpans`);
  - the greedy choices (`Greedy`);
  - the leftmost start.

  A matcher is proved to return exactly the leftmost valid, greedy match. A
  round-trip lemma ties the regex to the line it parses.
- `Ledger`: `parse`, `parseSpending`, `parseTransfer` and the transaction types.
- `LedgerProperties`: what the parser promises:
  - the balanced pair;
  - the unreachable guard;
  - the error cases;
  - the fields;
  - the dispatch.
- `Scenarios`: the repository's own test lines, carried through `parse` to the
  transaction.

## Model

| member | source | states |
|---|---|---|
| Text.Lower | src/index.ts:27 | `toLowerCase` keeps the length, leaves no upper-case letter, changes nothing but letters and gives a string equal to its input up to case, so each upper-case letter becomes its own lower-case letter |
| Text.Upper | src/index.ts:93 | `toUpperCase` keeps the length, leaves no lower-case letter, changes nothing but letters and gives a string equal to its input up to case, so each lower-case letter becomes its own upper-case letter |
| Text.Trim | src/index.ts:177-179 | `trim` returns a string with no white space at either end, no longer than its input |
| Text.TrimIsInfix | src/index.ts:177-179 | the trimmed string is a slice of the input with only white space before and after it |
| Text.TrimPadded | src/index.ts:177-179 | trimming white space around an already trimmed string gives that string back |
| Text.TrimIdempotent | src/index.ts:177-179 | trimming twice is trimming once |
| Text.TrimKeepsLowerCase | src/index.ts:27 | trimming a lower-case line keeps it lower-case |
| Text.TrimKeepsFirst | src/index.ts:177-179 | a string that does not start with white space keeps its first character when trimmed |
| Text.LowerTrimCommute | src/index.ts:27 | lower-casing and trimming commute |
| Text.LowerOfLowerCase | src/index.ts:27 | `toLowerCase` leaves a lower-case string unchanged |
| Text.LowerIdempotent | src/index.ts:27 | lower-casing twice is lower-casing once |
| Text.Capitalize | src/index.ts:112-114 | `capitalize` upper-cases the first character and keeps the rest |
| Text.LowerCapitalize | src/index.ts:112-114 | capitalizing changes nothing up to case |
| Text.Contains | src/index.ts:100-110 | `indexOf(pat) > -1` holds exactly when the pattern occurs at some position |
| Text.FilterNonEmpty | src/index.ts:96 | `filter((t) => t)` keeps exactly the non-empty segments |
| Text.FilterNonEmptyAppend | src/index.ts:96 | filtering a concatenation filters each part, keeping the order and the repeats of the kept segments |
| Text.FilterNonEmptyKeepsAll | src/index.ts:96 | the filter removes nothing when no segment is empty |
| Text.Join | src/index.ts:97 | `join(":")` starts with the first segment and, when there is a second, puts the separator right after it |
| Text.SplitJoin | src/index.ts:97 | splitting a `join(":")` on `:` gives the segments back when none holds a `:` |
| Text.LexLessAsymmetric | src/index.ts:74-76 | the account order never holds both ways |
| Text.LexLessTotal | src/index.ts:74-76 | two distinct accounts are always ordered one way |
| Decimals.ToDecimal | src/index.ts:61 | `+amount` is the exact decimal the amount text denotes: its digits without the dot, scaled by the number of fractional digits |
| Decimals.DigitsValueAppend | src/index.ts:61 | appending digits shifts the value of the prefix left by their count |
| Decimals.DotSplitIsFirstDot | src/index.ts:35 | an amount text has at most one dot, so it splits at the first one |
| Decimals.Mantissa | src/index.ts:128-130 | `toFixed(0)` of `amount * 10^places`: with no more fractional digits than places, `mantissa / 10^places` equals the amount; otherwise the mantissa is a nearest integer to `amount * 10^places`, and a tie goes away from zero |
| Decimals.MantissaTrailingZero | src/index.ts:128-130 | a trailing zero in the amount text (`1.5` against `1.50`) does not change the mantissa at any number of places |
| Decimals.MantissaSign | src/index.ts:128-130 | the mantissa has the sign of the amount |
| Decimals.Negate | src/index.ts:51 | `-1 * amount` keeps the scale and gives the opposite value |
| Decimals.MantissaNegate | src/index.ts:50-53 | the mantissa of `-1 * amount` is minus the mantissa of the amount |
| Currencies.CurrencyOf | src/index.ts:132-151 | `getCurrency` returns the currency whose code is the upper-cased token, for exactly the seven lower-case tokens; any other token is an unknown currency |
| Currencies.TokenIsLowerCode | src/index.ts:132-151 | each token is its code lower-cased, and each code its token upper-cased |
| Currencies.CodePlaces | src/index.ts:116-126 | `getDecimalPlaces` gives 10 for the codes TETHER, BTC and BUSD and 2 for the other codes |
| Currencies.DecimalPlaces | src/index.ts:116-126 | `getDecimalPlaces` gives 10 exactly for the names TETHER, BTC and BUSD and 2 for every other name, so a lower-case name, which is what the spending parser passes, always gets 2 |
| Currencies.TokenNamesCurrency | src/index.ts:116-151 | the token of a currency reads back as that currency, its code is the token upper-cased, and it gets 2 places |
| Accounts.CategoryToken | src/index.ts:105-110 | the category is Cash, Deniz or Papara: the first of `cash`, `deniz`, `papara` in the hint wins and Cash is the default, each rule in both directions |
| Accounts.PersonToken | src/index.ts:100-103 | the person is Alena exactly when the hint mentions `alena`, and Pavel otherwise |
| Accounts.AssetAccount | src/index.ts:89-98 | the asset account is `Assets:<Category>:<Person>` followed by `:` and the upper-cased currency, the last segment dropped only when the currency is empty |
| Accounts.AssetAccountSegments | src/index.ts:89-98 | the asset account has exactly four `:`-separated segments: Assets, the category, the person and the upper-cased currency |
| Accounts.ExpensePath | src/index.ts:155-173 | the table falls through to Inbox exactly when the key is not one of its eight hints |
| Accounts.ExpenseAccount | src/index.ts:153-175 | an expense account starts with `Expenses:` and ends with `:` and the upper-cased currency; it is the inbox exactly when the trimmed, lower-cased hint is unknown |
| Accounts.ExpenseAccountNormalizes | src/index.ts:155 | lower-casing and trimming the hint first changes nothing |
| SpendingRegex.RunEnd | src/index.ts:35 | a greedy character-class run ends where the class no longer matches |
| SpendingRegex.RunEndIs | src/index.ts:35 | a run that cannot be extended is the one the greedy scan finds |
| SpendingRegex.MatchAmount | src/index.ts:35 | the amount found at a position is an amount text followed by no digit |
| SpendingRegex.MatchAmountComplete | src/index.ts:35 | an amount text followed by neither a digit nor a dot is the one found |
| SpendingRegex.CurrencyWordIsLetters | src/index.ts:35 | a currency word matched case-insensitively is three letters |
| SpendingRegex.MatchFrom | src/index.ts:35 | an attempt from a known amount position gives spans inside the line that start there and put the amount there |
| SpendingRegex.MatchAt | src/index.ts:35 | an attempt at a position gives spans inside the line that start there |
| SpendingRegex.MatchAtSound | src/index.ts:35 | an attempt at a position returns a valid match with the greedy spans |
| SpendingRegex.MatchAtComplete | src/index.ts:35 | wherever the pattern matches, the attempt there succeeds, with exactly the greedy spans |
| SpendingRegex.SpansUnique | src/index.ts:35 | valid greedy spans are fixed by where they start |
| SpendingRegex.Search | src/index.ts:34-36 | the scan from a position finds the first start that matches, or shows that none does |
| SpendingRegex.MatchSpending | src/index.ts:34-36 | `input.match(regex)` is the leftmost valid greedy match, and no match means no spans are valid anywhere |
| SpendingRegex.MatchSpendingNone | src/index.ts:38 | the match fails exactly when no spans are valid |
| SpendingRegex.MatchSpendingIs | src/index.ts:34-36 | valid, greedy, leftmost spans are what the match returns |
| SpendingRegex.GroupsOfValid | src/index.ts:40-43 | the groups of a match are well formed, so the checks on lines 42-43 never fire |
| SpendingRegex.LineRoundTrip | src/index.ts:35 | the regex on the line that spells out well-formed groups matches at its start and captures exactly those groups |
| SpendingRegex.GroupsOfLowerCase | src/index.ts:27 | the currency group of a lower-case line is lower-case |
| Ledger.CommentOf | src/index.ts:73 | the comment is absent exactly when the group is missing or empty, and otherwise it is the trimmed group |
| Ledger.SpendingOf | src/index.ts:45-77 | building fails exactly when `getCurrency` does, with the unknown-currency error; a built transaction has the date, two postings and a trimmed description |
| Ledger.ParseSpending | src/index.ts:33-43 | `parseSpending` gives a parse error exactly when the regex matches nowhere, and otherwise only the unknown-currency error; a transaction has the date and two postings |
| Ledger.ParseTransfer | src/index.ts:80-87 | the transfer stub is the line as description, with the date, no postings and no comment |
| Ledger.ParseLowerCase | src/index.ts:33-57 | on a lower-case line `parseSpending` fails only with a parse error |
| Ledger.Parse | src/index.ts:26-31 | `parse` fails only with a parse error on the normalized line, returns the stub with no postings when that line starts with `transfer`, and keeps the date |
| Ledger.SortByAccount | src/index.ts:74-76 | the two postings come out in account order, as a permutation, and stay in place when the accounts are equal |
| Ledger.Normalize | src/index.ts:27 | the normalized line is lower-case and trimmed |
| LedgerProperties.AssetsBeforeExpenses | src/index.ts:74-76 | an `Assets:` account sorts before an `Expenses:` account |
| LedgerProperties.CurrencyOfMatchedToken | src/index.ts:48 | a currency word the `i` flag accepted is known to `getCurrency` exactly when it is lower-case |
| LedgerProperties.AssetAccountOfGroups | src/index.ts:46 | the asset account of a match starts with `Assets:` |
| LedgerProperties.SpendingOfBalanced | src/index.ts:45-68 | a spending built from a match is a balanced pair: two postings, asset debit first and expense credit second, in one currency and precision, with opposite amounts and mantissas, the debit never positive |
| LedgerProperties.SpendingOfOrdered | src/index.ts:70-77 | with a lower-case token, building succeeds and the sort leaves the asset debit first |
| LedgerProperties.SpendingOfErrors | src/index.ts:56-57 | building fails exactly on a non-lower-case token, with an unknown currency; the "from amount is negative" guard is never reached |
| LedgerProperties.DescriptionOf | src/index.ts:72 | the description is trimmed and equals the trimmed `to_account` up to case, and it is capitalized when `to_account` starts with a letter |
| LedgerProperties.DescriptionLeadingSpace | src/index.ts:72 | `capitalize` runs before `trim`, so a `to_account` starting with white space is only trimmed |
| LedgerProperties.SpendingOfFields | src/index.ts:45-77 | each field of the built transaction: the date, both accounts, the exact amount, the currency code, places and mantissa, the description and the trimmed comment |
| LedgerProperties.SpendingMatched | src/index.ts:38-43 | where the regex matches, `parseSpending` builds from that match's groups |
| LedgerProperties.SpendingErrors | src/index.ts:33-57 | `parseSpending` gives a parse error exactly when the regex matches nowhere, an unknown currency only for a non-lower-case word, never the negative-amount error; on lower-case input it fails exactly when the regex does not match |
| LedgerProperties.SpendingBalanced | src/index.ts:33-78 | a successful `parseSpending` comes from the leftmost match and is a balanced pair, at 2 places on lower-case input |
| LedgerProperties.ParseDispatch | src/index.ts:26-31 | `parse` returns the transfer stub on the normalized line when it starts with `transfer`; otherwise it fails exactly when the regex matches nowhere, with a parse error; a spending it returns is balanced at 2 places |
| LedgerProperties.NormalizeAbsorbs | src/index.ts:27 | lower-casing, trimming or normalizing before normalizing changes nothing |
| LedgerProperties.ParseNormalizes | src/index.ts:26-31 | `parse` depends only on the normalized line: lower-casing, trimming or normalizing first changes nothing |
| Scenarios.CafeMatch | src/index.ts:35 | the regex on `120 usd cafe` captures amount `120`, currency `usd` and `to_account` `cafe` |
| Scenarios.AlenaMatch | src/index.ts:35 | on `alena 120 try cafe`, `from_account` is `alena ` with its trailing space |
| Scenarios.CommentMatch | src/index.ts:35 | on `120 try cafe ; some comment`, `to_account` keeps its trailing space, the `;` is consumed and the comment runs to the end |
| Scenarios.CafeSpending | src/index.test.ts:4-25 | `120 usd cafe` is 120 USD from Assets:Cash:Pavel:USD to Expenses:Live:Restraunt:USD, described as Cafe, mantissas -12000 and 12000 |
| Scenarios.TryCafeSpending | src/index.test.ts:26-47 | `120 try cafe` is the same spending in TRY |
| Scenarios.PavelSpending | src/index.test.ts:48-69 | `pavel 120 try cafe` comes from Assets:Cash:Pavel:TRY |
| Scenarios.AlenaSpending | src/index.test.ts:70-91 | `alena 120 try cafe` comes from Assets:Cash:Alena:TRY |
| Scenarios.CommentSpending | src/index.test.ts:93-115 | `120 try cafe ; some comment` has description Cafe and comment `some comment` |
| Scenarios.YandexSpending | src/index.test.ts:116-138 | `120 rub yandex plus ; some comment` goes to Expenses:Subscriptions:Yandex:RUB with description `Yandex plus` |
| Scenarios.SpacedCafeDescription | src/index.ts:72 | with `to_account` ` cafe`, the description is `cafe`, not capitalized |
| Scenarios.TransferStub | src/index.ts:80-87 | a `Transfer` line comes back as the stub: the normalized line as description, no postings, no comment |

## Left out

- The date is a parameter. It stands for `dateFormat(new Date())`, as the clock is outside the model.
- Amounts are exact decimals, not IEEE doubles. A `Decimal` is not kept in lowest terms: `1.5` gives `Decimal(15, 1)` and `1.50` gives `Decimal(150, 2)`. These are two different `Posting.amount` values for one JavaScript number, so amounts are equal in the source exactly when their values `mant / 10^scale` are equal. The mantissas agree: `MantissaTrailingZero` shows that a trailing zero never changes the mantissa. `+text`, `-1 * x` and `toFixed(0)` are modelled on exact values. Rounding errors of floating point are not modelled. Neither are amounts too large for a double, nor the negative zero that `-1 * 0` gives; the model has a single zero.
- Case mapping covers ASCII letters only. `toLowerCase`/`toUpperCase` of other letters, and locale rules, are not modelled. The regex's `[a-zA-Z]` and its `i` flag are ASCII in the source too.
- `localeCompare` is modelled as code-point lexicographic order. The only property used is that `Assets:...` sorts before `Expenses:...`, which holds in any locale.
- Characters are modelled one per code point, not as UTF-16 code units. So the order on strings is code-point order. UTF-16 order differs from it above U+FFFF: there U+10000 (stored as D800 DC00) comes before U+FF00. Account names are ASCII, so the two orders agree on them.
- White space (`\s`, `trimStart`, `trimEnd`) is the ECMAScript set of white space and line terminators. `.` excludes the four line terminators.
- ParseTransfer: a stub, as in the source. The tests in src/index.test.ts from line 141 on expect transfer postings, `Equity:Conversion` legs, a `Crypto` category and 10-place mantissas. The code implements none of these, and the model follows the code.
- The thrown errors are `Err` values. The message texts are kept as the data they carry: the input, or the currency token.
- The `!match.groups` test on src/index.ts:38 is not modelled. A match of a regex with named groups always carries a groups object in JavaScript, and the model takes that as given. Only the empty-group checks on src/index.ts:42-43 are modelled. `GroupsOfValid` and `SpendingMatched` show that they are never taken.
- `dateFormat` and the module exports are not part of this model.
