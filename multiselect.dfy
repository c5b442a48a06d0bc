/** The multi-select input: toggling one option in the selected list, and
    the label shown on the closed control. */
module MultiSelect {
  import opened Common

  /** The list handed to `onChange` when option `x` is clicked: a selected
      option is dropped (every occurrence), any other is appended. The
      current list is a value and is left as it was. */
  function Toggle<T(==)>(value: seq<T>, x: T): (r: seq<T>)
    ensures x in value ==> x !in r
    ensures x !in value ==> r == value + [x]
    ensures Without(r, x) == Without(value, x)
  {
    if x in value then
      WithoutAbsent(Without(value, x), x);
      Without(value, x)
    else
      WithoutAppendSelf(value, x);
      value + [x]
  }

  /** Toggling an option that is not selected twice gives the original list. */
  lemma ToggleTwice<T>(value: seq<T>, x: T)
    requires x !in value
    ensures Toggle(Toggle(value, x), x) == value
  {
    WithoutAppendSelf(value, x);
    WithoutAbsent(value, x);
  }

  /** Toggling a selected option removes exactly its occurrences. */
  lemma ToggleRemoves<T>(value: seq<T>, x: T)
    requires x in value
    ensures multiset(Toggle(value, x)) == multiset(value)[x := 0]
  {
    WithoutMultiset(value, x);
  }

  /** Decimal digits of a natural number. */
  function Decimal(n: nat): (r: string)
    ensures |r| >= 1
    ensures forall i :: 0 <= i < |r| ==> '0' <= r[i] <= '9'
    ensures n > 0 ==> r[0] != '0'
    ensures n == 0 ==> r == "0"
  {
    var d := ['0', '1', '2', '3', '4', '5', '6', '7', '8', '9'][n % 10];
    if n < 10 then [d] else Decimal(n / 10) + [d]
  }

  function DigitValue(c: char): nat
    requires '0' <= c <= '9'
  {
    (c as int - '0' as int) as nat
  }

  function DecimalValue(s: string): nat
    requires forall i :: 0 <= i < |s| ==> '0' <= s[i] <= '9'
  {
    if s == [] then 0 else DecimalValue(s[..|s| - 1]) * 10 + DigitValue(s[|s| - 1])
  }

  /** `Decimal` writes the number it is given. */
  lemma {:induction false} DecimalRoundTrip(n: nat)
    ensures DecimalValue(Decimal(n)) == n
  {
    var r := Decimal(n);
    if n >= 10 {
      DecimalRoundTrip(n / 10);
      assert r[..|r| - 1] == Decimal(n / 10);
    }
  }

  /** "N selected" for a non-empty selection, the placeholder otherwise: the
      text before the suffix is a run of digits without a leading zero that
      reads back as the number of selected options. Without a `placeholder`
      prop the component's default "Select..." is shown. */
  function Label<T>(value: seq<T>, placeholder: Option<string>): (r: string)
    ensures |value| > 0 ==>
      |r| > 9 && r[|r| - 9..] == " selected" &&
      (forall i :: 0 <= i < |r| - 9 ==> '0' <= r[i] <= '9') &&
      DecimalValue(r[..|r| - 9]) == |value| && r[0] != '0'
    ensures |value| == 0 ==> r == if placeholder.Some? then placeholder.value else "Select..."
  {
    if |value| > 0 then
      var digits := Decimal(|value|);
      DecimalRoundTrip(|value|);
      assert (digits + " selected")[..|digits|] == digits;
      digits + " selected"
    else if placeholder.Some? then placeholder.value
    else "Select..."
  }
}
