/**
 * Big-endian positional numbers, as used by the DER stand-in layer:
 * base 128 for the subsequent identifier octets of a high tag number
 * (X.690 section 8.1.2.4.2) and for object identifier sub-identifiers
 * (X.690 section 8.19.2), base 256 for the long-form length octets
 * (X.690 section 8.1.3.5).
 */
module Radix {

  /** The two radices DER uses. */
  predicate IsRadix(base: nat) {
    base == 128 || base == 256
  }

  /** Every element is a digit of `base`. */
  predicate AllDigits(ds: seq<nat>, base: nat) {
    forall i :: 0 <= i < |ds| ==> ds[i] < base
  }

  /** A digit string in minimal form: non-empty and, when longer than one digit, without a leading zero. */
  predicate Minimal(ds: seq<nat>, base: nat) {
    |ds| >= 1 && AllDigits(ds, base) && (|ds| == 1 || ds[0] != 0)
  }

  /** The minimal big-endian digits of `n`. */
  function Digits(n: nat, base: nat): (r: seq<nat>)
    requires IsRadix(base)
    ensures Minimal(r, base)
    ensures n < base <==> |r| == 1
    decreases n
  {
    if n < base then [n] else Digits(n / base, base) + [n % base]
  }

  /** The number a big-endian digit string denotes. */
  function FromDigits(ds: seq<nat>, base: nat): nat
    requires IsRadix(base)
  {
    if ds == [] then 0 else FromDigits(ds[..|ds| - 1], base) * base + ds[|ds| - 1]
  }

  lemma DivModUnique(v: nat, d: nat, base: nat)
    requires IsRadix(base) && d < base
    ensures (v * base + d) / base == v && (v * base + d) % base == d
  {
    if base == 128 {
    } else {
    }
  }

  lemma DivModSplit(n: nat, base: nat)
    requires IsRadix(base)
    ensures (n / base) * base + n % base == n
  {
  }

  /** Reading back the digits of `n` gives `n`. */
  lemma {:induction false} FromDigitsOfDigits(n: nat, base: nat)
    requires IsRadix(base)
    ensures FromDigits(Digits(n, base), base) == n
    decreases n
  {
    if n >= base {
      var ds := Digits(n, base);
      assert ds[..|ds| - 1] == Digits(n / base, base);
      FromDigitsOfDigits(n / base, base);
      DivModSplit(n, base);
    }
  }

  /** A digit string with a non-zero leading digit denotes a number of at least base^(length-1); here: at least `base` once it has two digits. */
  lemma {:induction false} FromDigitsLowerBound(ds: seq<nat>, base: nat)
    requires IsRadix(base) && |ds| >= 1 && ds[0] != 0
    ensures FromDigits(ds, base) >= 1
    ensures |ds| >= 2 ==> FromDigits(ds, base) >= base
  {
    if |ds| >= 2 {
      var init := ds[..|ds| - 1];
      assert init[0] == ds[0];
      FromDigitsLowerBound(init, base);
      assert FromDigits(init, base) * base >= base by {
        if base == 128 { } else { }
      }
    }
  }

  /** Minimal digit strings are exactly the digit strings of their value: the encoding is canonical. */
  lemma {:induction false} DigitsOfFromDigits(ds: seq<nat>, base: nat)
    requires IsRadix(base) && Minimal(ds, base)
    ensures Digits(FromDigits(ds, base), base) == ds
  {
    if |ds| >= 2 {
      var init := ds[..|ds| - 1];
      var last := ds[|ds| - 1];
      assert init[0] == ds[0];
      var v := FromDigits(init, base);
      FromDigitsLowerBound(ds, base);
      DigitsOfFromDigits(init, base);
      DivModUnique(v, last, base);
      assert ds == init + [last];
    }
  }
}
