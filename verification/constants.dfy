/** Fixed tables of the client (src/utils/constants.ts). */
module Constants {
  import opened Text

  datatype Currency = Currency(code: string, symbol: string, name: string)

  /** The selectable currencies, in table order. */
  function Currencies(): seq<Currency> {
    [ Currency("EUR", "€", "Euro"),
      Currency("USD", "$", "US Dollar"),
      Currency("GBP", "£", "British Pound"),
      Currency("PLN", "zł", "Polish Złoty"),
      Currency("SEK", "kr", "Swedish Krona"),
      Currency("NOK", "kr", "Norwegian Krone"),
      Currency("DKK", "kr", "Danish Krone") ]
  }

  const DefaultCurrency: string := "EUR"

  datatype PassengerOption = PassengerOption(value: int, text: string)

  /** The passenger counts offered by the form: one to nine adults. */
  function PassengerCounts(): seq<PassengerOption> {
    [ PassengerOption(1, "1 Adult"),
      PassengerOption(2, "2 Adults"),
      PassengerOption(3, "3 Adults"),
      PassengerOption(4, "4 Adults"),
      PassengerOption(5, "5 Adults"),
      PassengerOption(6, "6 Adults"),
      PassengerOption(7, "7 Adults"),
      PassengerOption(8, "8 Adults"),
      PassengerOption(9, "9 Adults") ]
  }

  /** Currency codes are unique, so a lookup by code is unambiguous;
      every symbol is non-empty, so `symbol || code` always takes the symbol. */
  lemma CurrencyTableWellFormed()
    ensures forall i, j :: 0 <= i < j < |Currencies()| ==> Currencies()[i].code != Currencies()[j].code
    ensures forall i :: 0 <= i < |Currencies()| ==> Currencies()[i].symbol != ""
  {
  }
}
