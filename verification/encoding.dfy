/** Success-or-error results, for the conversions that reject their input. */
module Wrappers {

  datatype Result<+T, +E> = Success(value: T) | Failure(error: E)
}

/** Conversions between nibbles, bits, hex digits and states. */
module Encoding {
  import opened GaloisField
  import opened Transforms
  import opened Wrappers

  /** One binary digit, as the bit lists of the cipher hold it. */
  type Bit = b: Nibble | b < 2

  /** The four bits of a nibble, most significant first. */
  function NibbleToBits(n: Nibble): (bits: seq<Bit>)
    ensures |bits| == 4
  {
    [(n >> 3) & 1, (n >> 2) & 1, (n >> 1) & 1, n & 1]
  }

  /** The nibble whose bits, most significant first, are the four given bits. */
  function BitsToNibble(bits: seq<Bit>): Nibble
    requires |bits| == 4
  {
    ((bits[0] as Nibble) << 3) + ((bits[1] as Nibble) << 2) + ((bits[2] as Nibble) << 1) + bits[3]
  }

  lemma BitsRoundTrip(n: Nibble, bits: seq<Bit>)
    requires |bits| == 4
    ensures BitsToNibble(NibbleToBits(n)) == n
    ensures NibbleToBits(BitsToNibble(bits)) == bits
  {
    var m := BitsToNibble(bits);
    assert NibbleToBits(m)[0] == bits[0];
    assert NibbleToBits(m)[1] == bits[1];
    assert NibbleToBits(m)[2] == bits[2];
    assert NibbleToBits(m)[3] == bits[3];
  }

  /** The ASCII hexadecimal alphabet, either case. */
  predicate IsHexDigit(c: char)
  {
    '0' <= c <= '9' || 'A' <= c <= 'F' || 'a' <= c <= 'f'
  }

  predicate IsHexString(s: string)
  {
    forall i :: 0 <= i < |s| ==> IsHexDigit(s[i])
  }

  /** ASCII upper-casing of one character. */
  function UpperChar(c: char): char
  {
    if 'a' <= c <= 'z' then (c as int - 32) as char else c
  }

  /** ASCII upper-casing of a string, character by character. */
  function Upper(s: string): (u: string)
    ensures |u| == |s|
  {
    seq(|s|, i requires 0 <= i < |s| => UpperChar(s[i]))
  }

  /** The value of one hex digit, either case. */
  function DigitValue(c: char): Nibble
    requires IsHexDigit(c)
  {
    if '0' <= c <= '9' then (c as int - '0' as int) as bv8
    else if 'A' <= c <= 'F' then (c as int - 'A' as int + 10) as bv8
    else (c as int - 'a' as int + 10) as bv8
  }

  /** The upper-case hex digit of a nibble. */
  function HexDigit(n: Nibble): (c: char)
    ensures IsHexDigit(c) && UpperChar(c) == c
  {
    if n < 10 then ('0' as int + n as int) as char else ('A' as int + n as int - 10) as char
  }

  /** Reading back a printed digit gives the nibble. Proved by cases over the 16 nibbles. */
  lemma HexDigitValue(n: Nibble)
    ensures DigitValue(HexDigit(n)) == n
  {
    if n == 0 {} else if n == 1 {} else if n == 2 {} else if n == 3 {}
    else if n == 4 {} else if n == 5 {} else if n == 6 {} else if n == 7 {}
    else if n == 8 {} else if n == 9 {} else if n == 10 {} else if n == 11 {}
    else if n == 12 {} else if n == 13 {} else if n == 14 {} else {}
  }

  /** Printing a digit that was read gives the digit in upper case. Proved by cases
      over the 22 hex characters. */
  lemma DigitValueHex(c: char)
    requires IsHexDigit(c)
    ensures HexDigit(DigitValue(c)) == UpperChar(c)
  {
    if c == '0' {} else if c == '1' {} else if c == '2' {} else if c == '3' {}
    else if c == '4' {} else if c == '5' {} else if c == '6' {} else if c == '7' {}
    else if c == '8' {} else if c == '9' {} else if c == 'A' {} else if c == 'B' {}
    else if c == 'C' {} else if c == 'D' {} else if c == 'E' {} else if c == 'F' {}
    else if c == 'a' {} else if c == 'b' {} else if c == 'c' {} else if c == 'd' {}
    else if c == 'e' {} else {}
  }

  /** The state as four upper-case hex digits. */
  function StateToHex(s: State): (h: string)
    ensures |h| == 4 && IsHexString(h) && Upper(h) == h
  {
    seq(4, i requires 0 <= i < 4 => HexDigit(s[i]))
  }

  /** The state read from the first four characters of h; the rest is ignored. */
  function ParseState(h: string): (s: State)
    requires |h| >= 4 && IsHexString(h[..4])
    ensures StateToHex(s) == Upper(h[..4])
  {
    var s: State := seq(4, i requires 0 <= i < 4 => DigitValue(h[i]));
    forall i | 0 <= i < 4
      ensures StateToHex(s)[i] == Upper(h[..4])[i]
    {
      DigitValueHex(h[i]);
    }
    s
  }

  lemma ParseStateToHex(s: State)
    ensures ParseState(StateToHex(s)) == s
  {
    var h := StateToHex(s);
    forall i | 0 <= i < 4
      ensures ParseState(h)[i] == s[i]
    {
      HexDigitValue(s[i]);
    }
  }

  /** The position of the first character of s that is not a hex digit, or |s|. */
  function FirstNonHex(s: string): (i: nat)
    ensures i <= |s| && IsHexString(s[..i])
    ensures i < |s| ==> !IsHexDigit(s[i])
  {
    if |s| == 0 || !IsHexDigit(s[0]) then 0
    else
      var rest := FirstNonHex(s[1..]);
      assert s[..1 + rest] == [s[0]] + s[1..][..rest];
      1 + rest
  }

  datatype HexError =
    | WrongLength(length: nat)   // the text is not exactly four characters
    | NotHexDigit(position: nat) // the first character that is not a hex digit

  /** A state from exactly four hex digits. Text of another length is rejected before
      any digit is read; otherwise the digits are read in order and the first one that
      is not hex is rejected. */
  function HexToState(h: string): (r: Result<State, HexError>)
    ensures r.Success? <==> |h| == 4 && IsHexString(h)
    ensures r.Success? ==> StateToHex(r.value) == Upper(h)
    ensures r == Failure(WrongLength(|h|)) <==> |h| != 4
    ensures |h| == 4 && !IsHexString(h) ==> r == Failure(NotHexDigit(FirstNonHex(h)))
    ensures r.Failure? && r.error.NotHexDigit? ==>
              |h| == 4 && r.error.position < 4 && !IsHexDigit(h[r.error.position]) &&
              IsHexString(h[..r.error.position])
  {
    if |h| != 4 then Failure(WrongLength(|h|))
    else
      var i := FirstNonHex(h);
      if i < 4 then Failure(NotHexDigit(i))
      else
        assert h[..4] == h;
        Success(ParseState(h))
  }

  /** Printing a state and reading it back gives the state. */
  lemma HexToStateRoundTrip(s: State)
    ensures HexToState(StateToHex(s)) == Success(s)
  {
    var h := StateToHex(s);
    assert h[..4] == h;
    ParseStateToHex(s);
  }
}
