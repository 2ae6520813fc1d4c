/** The user id given to each added record: "UID" followed by
    Math.floor(Math.random() * 10000) in decimal. Nothing checks that ids
    are distinct. */
module UserIds {
  import opened Wrappers
  import opened Numerals

  /** Math.floor(x * 10000) for a draw x of Math.random, which lies in
      [0, 1). */
  function Roll(x: real): (n: nat)
    requires 0.0 <= x < 1.0
    ensures n < 10000
    ensures n as real <= x * 10000.0 < n as real + 1.0
  {
    (x * 10000.0).Floor
  }

  /** `generateUserId`: the id has the generator's form and carries the
      rolled number. */
  function GenerateUserId(x: real): (id: string)
    requires 0.0 <= x < 1.0
    ensures IsUserIdShape(id)
    ensures ParseUserId(id) == Some(Roll(x))
  {
    var n := Roll(x);
    DecimalStringLength(n);
    DecimalStringValue(n);
    var id := "UID" + DecimalString(n);
    assert id[..3] == "UID" && id[3..] == DecimalString(n);
    id
  }

  /** The form of every id the generator can give: "UID" and one to four
      digits, with no leading zero unless the number is 0. */
  predicate IsUserIdShape(id: string) {
    && 4 <= |id| <= 7
    && id[..3] == "UID"
    && AllDigits(id[3..])
    && (|id| > 4 ==> id[3] != '0')
  }

  /** The inverse of the generator: an id of the generator's form is
      "UID" followed by the decimal form of the number below 10000 it
      carries, and no other id carries a number. */
  function ParseUserId(id: string): (r: Option<nat>)
    ensures r.Some? <==> IsUserIdShape(id)
    ensures r.Some? ==> r.value < 10000 && id == "UID" + DecimalString(r.value)
  {
    if IsUserIdShape(id) then
      var n := DigitsValue(id[3..]);
      CanonicalDigits(id[3..]);
      DecimalStringLength(n);
      assert id == id[..3] + id[3..];
      Some(n)
    else None
  }

  /** Digits with no leading zero are the decimal form of their value. */
  lemma {:induction false} CanonicalDigits(s: string)
    requires 1 <= |s| && AllDigits(s) && (|s| > 1 ==> s[0] != '0')
    ensures DecimalString(DigitsValue(s)) == s
  {
    var p := s[..|s| - 1];
    var d := s[|s| - 1] as int - '0' as int;
    if |s| == 1 {
      assert DigitsValue(s) == 10 * DigitsValue(p) + d;
    } else {
      assert p[0] == s[0];
      CanonicalDigits(p);
      var v := DigitsValue(p);
      assert v >= 1 by {
        DigitsValueZero(p);
      }
      assert DigitsValue(s) == 10 * v + d;
      assert (10 * v + d) / 10 == v && (10 * v + d) % 10 == d;
      assert DecimalString(10 * v + d) == DecimalString(v) + [DigitChar(d)];
    }
  }
}
