/** The currency-code to display-symbol lookup of src/lib/currency.ts. */
module Currency {

  /** The fixed table: twelve ISO 4217 alphabetic codes and their symbols. */
  const Symbols: map<string, string> := map[
    "USD" := "$",
    "EUR" := "€",
    "INR" := "₹",
    "GBP" := "£",
    "JPY" := "¥",
    "CAD" := "C$",
    "AUD" := "A$",
    "CHF" := "Fr",
    "CNY" := "¥",
    "SEK" := "kr",
    "NOK" := "kr",
    "DKK" := "kr"
  ]

  /** `getCurrencySymbol(code)`: `currencyMap[code] || code`. A code outside the table, including
      a differently-cased one, comes back unchanged; the result is never itself a table key, and
      a non-empty code never gives an empty symbol. */
  function CurrencySymbol(code: string): (sym: string)
    ensures code in Symbols ==> sym == Symbols[code]
    ensures code !in Symbols ==> sym == code
    ensures sym !in Symbols
    ensures code != "" ==> sym != ""
  {
    if code in Symbols && Symbols[code] != "" then Symbols[code] else code
  }

  /** Looking a symbol up again changes nothing. */
  lemma CurrencySymbolIdempotent(code: string)
    ensures CurrencySymbol(CurrencySymbol(code)) == CurrencySymbol(code)
  {
  }

  /** The table is not injective: two codes share the yen sign and three share "kr". */
  lemma CurrencySymbolNotInjective()
    ensures CurrencySymbol("JPY") == CurrencySymbol("CNY") == "¥"
    ensures CurrencySymbol("SEK") == CurrencySymbol("NOK") == CurrencySymbol("DKK") == "kr"
  {
  }

  /** No case folding: the lower-case code is not in the table and comes back as it is. */
  lemma CurrencySymbolCaseSensitive()
    ensures CurrencySymbol("usd") == "usd" && CurrencySymbol("USD") == "$"
  {
  }
}
