/** `TestOrderDiscoverer`: turns a `TestOrderAttribute` into the "TestOrder" trait. */
module TestOrderDiscoverer {
  import opened Wrappers
  import opened Numerals
  import opened TestCases

  /** The text of an order: a literal table for 0 to 20, `order.ToString()` otherwise.
      The table agrees with the general formatting, so the result is always the
      decimal numeral of `order`, with a '-' in front of negatives. */
  function ConvertOrderNumberToString(order: Int32): (r: string)
    ensures r == FormatInt32(order)
  {
    match order
    case 0 => "0"
    case 1 => "1"
    case 2 => "2"
    case 3 => "3"
    case 4 => "4"
    case 5 => "5"
    case 6 => "6"
    case 7 => "7"
    case 8 => "8"
    case 9 => "9"
    case 10 => "10"
    case 11 => "11"
    case 12 => "12"
    case 13 => "13"
    case 14 => "14"
    case 15 => "15"
    case 16 => "16"
    case 17 => "17"
    case 18 => "18"
    case 19 => "19"
    case 20 => "20"
    case _ => FormatInt32(order)
  }

  /** Parsing the text back with `int.TryParse` yields the original order. */
  lemma ConvertThenParse(order: Int32)
    ensures TryParseInt32(ConvertOrderNumberToString(order)) == Some(order)
  {
    FormatThenParse(order);
  }

  /** Distinct orders give distinct texts. */
  lemma ConvertIsInjective(a: Int32, b: Int32)
    requires ConvertOrderNumberToString(a) == ConvertOrderNumberToString(b)
    ensures a == b
  {
    FormatIsInjective(a, b);
  }

  /** `GetTraits` for a `TestOrderAttribute` whose `Order` is `order`: exactly one
      pair, named "TestOrder", whose value parses back to `order`. */
  function GetTraits(order: Int32): (r: seq<(string, string)>)
    ensures |r| == 1 && r[0].0 == TestOrderTraitName
    ensures TryParseInt32(r[0].1) == Some(order)
  {
    ConvertThenParse(order);
    [(TestOrderTraitName, ConvertOrderNumberToString(order))]
  }
}
