/** Bytes and the two pieces of text formatting the benchmark relies on:
    ASCII encoding of a string (`str.encode()`) and decimal rendering of a
    natural number (`str(n)` inside an f-string). */
module Text {

  newtype byte = b: int | 0 <= b < 0x100

  /** `s.encode()` for text that is pure ASCII, which every literal of the
      benchmark is. */
  function Ascii(s: string): (r: seq<byte>)
    ensures |r| == |s|
  {
    seq(|s|, i requires 0 <= i < |s| => (s[i] as int % 0x100) as byte)
  }

  function Digit(d: nat): (c: char)
    requires d < 10
  {
    (48 + d) as char
  }

  /** The decimal rendering of `n`, without sign or leading zeros. */
  function Decimal(n: nat): (r: string)
    ensures 1 <= |r|
    ensures forall i :: 0 <= i < |r| ==> '0' <= r[i] <= '9'
    decreases n
  {
    if n < 10 then [Digit(n)] else Decimal(n / 10) + [Digit(n % 10)]
  }

  /** Reads a string of decimal digits back as a number (the partner of Decimal). */
  function DecimalValue(s: string): int
  {
    if s == [] then 0 else DecimalValue(s[..|s| - 1]) * 10 + (s[|s| - 1] as int - 48)
  }

  /** Rendering a number in decimal loses nothing: reading it back gives the number. */
  lemma {:induction false} DecimalRoundTrip(n: nat)
    ensures DecimalValue(Decimal(n)) == n
    decreases n
  {
    var r := Decimal(n);
    if n < 10 {
      assert r[..|r| - 1] == [];
    } else {
      DecimalRoundTrip(n / 10);
      assert r[..|r| - 1] == Decimal(n / 10);
    }
  }

  /** One digit below ten, two digits from ten to ninety-nine. */
  lemma DecimalLength(n: nat)
    requires n < 100
    ensures n < 10 ==> |Decimal(n)| == 1
    ensures 10 <= n ==> |Decimal(n)| == 2
  {
  }
}
