/** The pluralised count badge the admin topic and path pages render:
    "1 post", "0 posts", "12 posts". */
module Labels {
  import opened Strings

  /** The badge for `n` posts: the decimal count, " post", and an "s" unless the
      count is exactly one. */
  function PostCountLabel(n: nat): (badge: string)
    ensures IsPlural(badge) <==> n != 1
    ensures CountOf(badge) == n
  {
    var digits := NatToDecimal(n);
    var badge := digits + " post" + (if n != 1 then "s" else "");
    assert badge == digits + (" post" + (if n != 1 then "s" else ""));
    DigitPrefixOf(digits, " post" + (if n != 1 then "s" else ""));
    assert badge[..|digits|] == digits;
    DecimalRoundTrip(n);
    badge
  }

  /** A badge reads as plural when it ends in "s". */
  predicate IsPlural(badge: string) {
    |badge| > 0 && badge[|badge| - 1] == 's'
  }

  /** The number of leading decimal digits of `s`. */
  function DigitPrefix(s: string): (k: nat)
    ensures k <= |s|
    ensures forall i :: 0 <= i < k ==> IsDigit(s[i])
  {
    if |s| == 0 || !IsDigit(s[0]) then 0 else 1 + DigitPrefix(s[1..])
  }

  /** Reads the count back from a badge: the value of its leading digits. */
  function CountOf(badge: string): nat {
    DecimalValue(badge[..DigitPrefix(badge)])
  }

  lemma {:induction false} DigitPrefixOf(digits: string, rest: string)
    requires forall i :: 0 <= i < |digits| ==> IsDigit(digits[i])
    requires |rest| == 0 || !IsDigit(rest[0])
    ensures DigitPrefix(digits + rest) == |digits|
  {
    if |digits| > 0 {
      assert (digits + rest)[1..] == digits[1..] + rest;
      DigitPrefixOf(digits[1..], rest);
    } else {
      assert digits + rest == rest;
    }
  }
}
