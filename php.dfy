/** The PHP value semantics the plugin relies on: truthiness of strings and
    ids, and the `(int)` cast of a numeric string. */
module Php {
  import opened Wrappers
  import opened Decimal

  /** `empty($s)` for a string, and `!$s`: only "" and "0" are false. */
  predicate StringIsEmpty(s: string) {
    s == "" || s == "0"
  }

  /** A nullable string slot used as a condition: null, "" and "0" are false. */
  predicate StringTruthy(v: Option<string>) {
    v.Some? && !StringIsEmpty(v.value)
  }

  /** A nullable user id used as a condition: null and 0 are false. */
  predicate IdTruthy(v: Option<int>) {
    v.Some? && v.value != 0
  }

  /** PHP_INT_MAX on a 64-bit build. */
  const PhpIntMax: nat := 0x7FFF_FFFF_FFFF_FFFF

  /** `(int) $s` for a string of digits: its value, saturated at PHP_INT_MAX. */
  function IntCast(s: string): (n: nat)
    requires IsDigits(s)
    ensures n <= PhpIntMax
    ensures ParseDigits(s) <= PhpIntMax ==> n == ParseDigits(s)
    ensures ParseDigits(s) > PhpIntMax ==> n == PhpIntMax
  {
    var v := ParseDigits(s);
    if v <= PhpIntMax then v else PhpIntMax
  }

  /** `(int)` reads back the decimal spelling of any value up to
      PHP_INT_MAX, with or without leading zeros: "7" and "007" both give 7. */
  lemma IntCastReadsSpelling(n: nat, k: nat)
    requires n <= PhpIntMax
    ensures IntCast(NatToString(n)) == n
    ensures IsDigits(Zeros(k) + NatToString(n)) && IntCast(Zeros(k) + NatToString(n)) == n
  {
    ParseIgnoresLeadingZeros(k, NatToString(n));
  }
}
