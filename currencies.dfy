/** Currency tokens, the currency codes of postings and their decimal places. */
module Currencies {
  import opened Results
  import opened Text

  /** The `currency` field of a posting. */
  datatype Currency = TRY | USD | EUR | RUB | TETHER | BTC | BUSD

  /** The code a posting carries for the currency. */
  function Code(c: Currency): string {
    match c
    case TRY => "TRY"
    case USD => "USD"
    case EUR => "EUR"
    case RUB => "RUB"
    case TETHER => "TETHER"
    case BTC => "BTC"
    case BUSD => "BUSD"
  }

  /** The lower-case token the parser reads for the currency. */
  function Token(c: Currency): string {
    match c
    case TRY => "try"
    case USD => "usd"
    case EUR => "eur"
    case RUB => "rub"
    case TETHER => "tether"
    case BTC => "btc"
    case BUSD => "busd"
  }

  /** Tokens and codes are each other's case mapping. */
  lemma TokenIsLowerCode(c: Currency)
    ensures Lower(Code(c)) == Token(c) && Upper(Token(c)) == Code(c)
  {
    LowerCode(c);
    UpperToken(c);
  }

  lemma LowerCode(c: Currency)
    ensures Lower(Code(c)) == Token(c)
  {
    var code, token := Code(c), Token(c);
    assert forall i :: 0 <= i < |code| ==> LowerChar(code[i]) == token[i];
  }

  lemma UpperToken(c: Currency)
    ensures Upper(Token(c)) == Code(c)
  {
    var code, token := Code(c), Token(c);
    assert forall i :: 0 <= i < |token| ==> UpperChar(token[i]) == code[i];
  }

  /** `getCurrency`: the seven lower-case tokens name their currency, whose code is
      the token upper-cased; any other token, upper-case spellings included, is an
      unknown currency. */
  function CurrencyOf(token: string): (r: Result<Currency>)
    ensures r.Ok? ==> Lower(Code(r.value)) == token && Upper(token) == Code(r.value)
    ensures r.Err? ==> r.error == UnknownCurrency(token)
                       && forall c: Currency :: Lower(Code(c)) != token
  {
    forall c: Currency ensures Lower(Code(c)) == Token(c) && Upper(Token(c)) == Code(c) {
      TokenIsLowerCode(c);
    }
    if token == "try" then Ok(TRY)
    else if token == "usd" then Ok(USD)
    else if token == "eur" then Ok(EUR)
    else if token == "rub" then Ok(RUB)
    else if token == "tether" then Ok(TETHER)
    else if token == "btc" then Ok(BTC)
    else if token == "busd" then Ok(BUSD)
    else Err(UnknownCurrency(token))
  }

  /** The token of a currency reads back as that currency, its code is the token
      upper-cased, and the spending parser gives it 2 places. */
  lemma TokenNamesCurrency(c: Currency)
    ensures CurrencyOf(Token(c)) == Ok(c)
    ensures Upper(Token(c)) == Code(c) && DecimalPlaces(Token(c)) == 2
  {
    TokenIsLowerCode(c);
  }

  /** `getDecimalPlaces`: 10 for the three crypto names written in upper case,
      2 for every other string; so a lower-case name, which is what the spending
      parser passes, always gets 2, whatever the currency. */
  function DecimalPlaces(name: string): (r: nat)
    ensures r == 10 <==> name in {"TETHER", "BTC", "BUSD"}
    ensures r == 10 || r == 2
    ensures IsLowerCase(name) ==> r == 2
  {
    if name == "TETHER" || name == "BTC" || name == "BUSD" then
      assert IsUpper(name[0]);
      10
    else 2
  }

  /** Given a currency's code, the crypto currencies get 10 places and the fiat
      ones 2. */
  lemma CodePlaces(c: Currency)
    ensures DecimalPlaces(Code(c)) == (if c in {TETHER, BTC, BUSD} then 10 else 2)
  {
  }
}
