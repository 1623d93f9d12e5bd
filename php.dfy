/** The PHP built-ins the plugin leans on, as they behave on the strings a
    submitted form carries, and PHP's ordered arrays with string keys. */
module Php {

  datatype Option<+T> = None | Some(value: T)

  /** `empty($s)` for a string: true exactly for "" and "0". */
  predicate Empty(s: string) {
    s == "" || s == "0"
  }

  predicate IsDigit(c: char) {
    '0' <= c <= '9'
  }

  predicate AllDigits(s: string) {
    forall i :: 0 <= i < |s| ==> IsDigit(s[i])
  }

  /** `ctype_digit($s)` for a string: non-empty and made of ASCII digits only. */
  predicate CtypeDigit(s: string) {
    |s| > 0 && AllDigits(s)
  }

  /** The number a digit string stands for when PHP compares it with an integer
      (`"0010" <= 0` compares 10 with 0). */
  function DigitsValue(s: string): nat
    requires AllDigits(s)
    decreases |s|
  {
    if s == [] then 0 else 10 * DigitsValue(s[..|s| - 1]) + (s[|s| - 1] as int - '0' as int)
  }

  /** A digit string that `empty()` accepts ("0") stands for zero. */
  lemma EmptyDigitsAreZero(s: string)
    ensures CtypeDigit(s) && Empty(s) ==> DigitsValue(s) == 0
  {
    if CtypeDigit(s) && Empty(s) {
      assert s == "0";
      assert s[..0] == "";
    }
  }

  /** `$a[$k]` on an array with string keys: the value of the first entry for k. */
  function Lookup(a: seq<(string, string)>, k: string): Option<string>
  {
    if a == [] then None
    else if a[0].0 == k then Some(a[0].1)
    else Lookup(a[1..], k)
  }

  /** `$a[$k] = $v`: overwrites the entry for k where it stands, or appends a
      new entry at the end when there is none. */
  function Assign(a: seq<(string, string)>, k: string, v: string): (r: seq<(string, string)>)
    ensures Lookup(r, k) == Some(v)
    ensures forall j :: j != k ==> Lookup(r, j) == Lookup(a, j)
    ensures Lookup(a, k) == None ==> r == a + [(k, v)]
    ensures Lookup(a, k) != None ==> |r| == |a|
    ensures Lookup(a, k) != None ==>
      forall i :: 0 <= i < |a| ==> r[i].0 == a[i].0 && (r[i].0 != k ==> r[i] == a[i])
  {
    if a == [] then [(k, v)]
    else if a[0].0 == k then [(k, v)] + a[1..]
    else
      var rest := Assign(a[1..], k, v);
      assert ([a[0]] + rest)[1..] == rest;
      [a[0]] + rest
  }
}
