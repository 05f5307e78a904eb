/**
 Printing integers: digits written from the back of a fixed buffer of one character per
 bit, an optional sign, and padding whose size is a 16-bit integer.
 */
module IntegerPrint {
  import opened Basics

  datatype PadType = Left | Right | Inner
  datatype Pad = Pad(size: int, kind: PadType, fill: char)

  /** Conversion to a signed 16-bit integer. */
  function Int16(x: int): (r: int)
    ensures -0x8000 <= r < 0x8000 && (x - r) % 0x1_0000 == 0
  {
    (x + 0x8000) % 0x1_0000 - 0x8000
  }

  function Pow(b: int, k: nat): int {
    if k == 0 then 1 else b * Pow(b, k - 1)
  }

  function DigitChar(d: nat): char
    requires d < 36
  {
    if d < 10 then '0' + d as char else 'a' + (d - 10) as char
  }

  lemma Division(u: nat, b: nat)
    requires 2 <= b
    ensures u == b * (u / b) + u % b && 0 <= u % b < b
    ensures u < b <==> u / b == 0
    ensures 0 <= u / b && (u > 0 ==> u / b < u)
  {
    if u / b >= 1 {
      assert b * (u / b) >= 2 * (u / b);
    }
  }

  function Digits(u: nat, base: nat): (s: string)
    requires 2 <= base <= 36
    ensures |s| >= 1
  {
    Division(u, base);
    if u < base then [DigitChar(u)] else Digits(u / base, base) + [DigitChar(u % base)]
  }

  function Text(value: int, base: nat): string
    requires 2 <= base <= 36
  {
    if value < 0 then ['-'] + Digits(-value, base) else Digits(value, base)
  }

  // ---------------------------------------------------------------- reading back

  function DigitValue(c: char): nat {
    if '0' <= c <= '9' then (c - '0') as nat
    else if 'a' <= c <= 'z' then 10 + (c - 'a') as nat
    else 36
  }

  function ParseDigits(s: string, base: nat): int {
    if s == [] then 0 else base * ParseDigits(s[..|s| - 1], base) + DigitValue(s[|s| - 1])
  }

  function Parse(s: string, base: nat): int {
    if s != [] && s[0] == '-' then -ParseDigits(s[1..], base) else ParseDigits(s, base)
  }

  lemma DigitChars(d: nat)
    requires d < 36
    ensures DigitValue(DigitChar(d)) == d && DigitChar(d) != '-' && (DigitChar(d) == '0' <==> d == 0)
  {
  }

  lemma ParseSnoc(s: string, c: char, base: nat)
    ensures ParseDigits(s + [c], base) == base * ParseDigits(s, base) + DigitValue(c)
  {
    assert (s + [c])[..|s|] == s;
  }

  lemma {:induction false} DigitsParse(u: nat, base: nat)
    requires 2 <= base <= 36
    ensures ParseDigits(Digits(u, base), base) == u
    ensures Digits(u, base)[0] != '-'
    ensures |Digits(u, base)| > 1 || u > 0 ==> Digits(u, base)[0] != '0'
  {
    Division(u, base);
    if u < base {
      DigitChars(u);
      ParseSnoc("", DigitChar(u), base);
      assert "" + [DigitChar(u)] == Digits(u, base);
    } else {
      DigitsParse(u / base, base);
      DigitChars(u % base);
      ParseSnoc(Digits(u / base, base), DigitChar(u % base), base);
    }
  }

  /** The printed text reads back as the value, has no leading zero, and different values
      print differently. */
  lemma TextRoundTrip(value: int, base: nat)
    requires 2 <= base <= 36
    ensures Parse(Text(value, base), base) == value
    ensures var t := Text(value, base);
      var digits := if value < 0 then t[1..] else t;
      digits != [] && (|digits| > 1 || value < 0 ==> digits[0] != '0')
  {
    DigitsParse(if value < 0 then -value else value, base);
    if value < 0 {
      assert Text(value, base)[1..] == Digits(-value, base);
    }
  }

  // ---------------------------------------------------------------- the buffer

  lemma DivBound(u: nat, b: nat, p: int)
    requires 2 <= b
    ensures u < b * p <==> u / b < p
  {
    Division(u, b);
    var q := u / b;
    if q < p {
      MulLe(b, q + 1, p);
      assert b * (q + 1) == b * q + b;
    } else {
      MulLe(b, p, q);
    }
  }

  lemma MulLe(b: nat, x: int, y: int)
    requires x <= y
    ensures b * x <= b * y
  {
  }

  lemma DigitsLength(u: nat, base: nat)
    requires 2 <= base <= 36
    ensures 0 <= u / base && (u < base ==> |Digits(u, base)| == 1 && u / base == 0)
    ensures u >= base ==> |Digits(u, base)| == |Digits(u / base, base)| + 1
  {
    Division(u, base);
  }

  lemma {:induction false} DigitsFit(u: nat, base: nat, k: nat)
    requires 2 <= base <= 36 && 1 <= k
    ensures |Digits(u, base)| <= k <==> u < Pow(base, k)
    decreases k
  {
    assert Pow(base, k) == base * Pow(base, k - 1);
    DivBound(u, base, Pow(base, k - 1));
    DigitsLength(u, base);
    if k == 1 {
      assert Pow(base, 0) == 1;
    } else {
      PowPositive(base, k - 1);
      if u >= base {
        DigitsFit(u / base, base, k - 1);
      }
    }
  }

  lemma {:induction false} PowPositive(b: nat, k: nat)
    requires 1 <= b
    ensures Pow(b, k) >= 1
  {
    if k > 0 {
      PowPositive(b, k - 1);
      assert b * Pow(b, k - 1) >= Pow(b, k - 1);
    }
  }

  lemma MulMonotone(a: int, b: int, x: int, y: int)
    requires 1 <= a <= b && 1 <= x <= y
    ensures a * x <= b * y
    ensures a < b ==> a * x < b * y
  {
    assert a * x <= a * y;
    assert b * y == a * y + (b - a) * y;
    assert a < b ==> (b - a) * y >= 1;
  }

  lemma {:induction false} PowMonotone(a: nat, b: nat, k: nat)
    requires 1 <= a <= b
    ensures Pow(a, k) <= Pow(b, k)
    ensures a < b && k > 0 ==> Pow(a, k) < Pow(b, k)
  {
    if k > 0 {
      PowMonotone(a, b, k - 1);
      PowPositive(a, k - 1);
      MulMonotone(a, b, Pow(a, k - 1), Pow(b, k - 1));
    }
  }

  predicate InRange(value: int, bits: nat, signed: bool)
    requires 1 <= bits
  {
    if signed then -Pow(2, bits - 1) <= value < Pow(2, bits - 1) else 0 <= value < Pow(2, bits)
  }

  /** The buffer of one character per bit is too small for exactly one value and base. */
  lemma BufferFits(value: int, bits: nat, signed: bool, base: nat)
    requires 8 <= bits && 2 <= base <= 36 && InRange(value, bits, signed)
    ensures |Digits(if value < 0 then -value else value, base)| <= bits
    ensures |Text(value, base)| <= bits <==> !(signed && base == 2 && value == -Pow(2, bits - 1))
  {
    var u := if value < 0 then -value else value;
    assert Pow(2, bits) == 2 * Pow(2, bits - 1);
    PowPositive(2, bits - 1);
    PowMonotone(2, base, bits);
    PowMonotone(2, base, bits - 1);
    DigitsFit(u, base, bits);
    DigitsFit(u, base, bits - 1);
  }

  // ---------------------------------------------------------------- padding

  function Repeat(c: char, n: int): (s: string)
    ensures |s| == if n > 0 then n else 0
    ensures forall i :: 0 <= i < |s| ==> s[i] == c
  {
    seq(if n > 0 then n else 0, _ => c)
  }

  /** What is written for a number of the given text. */
  function Padded(text: string, pad: Pad): string
    requires text != []
  {
    var fill := Repeat(pad.fill, Int16(pad.size - Int16(|text|)));
    if fill == [] || pad.kind.Right? then text + fill
    else if pad.kind.Inner? && text[0] == '-' then ['-'] + fill + text[1..]
    else fill + text
  }

  /** The length is the larger of the two sizes exactly when the subtraction of the text
      length does not wrap around; the text itself survives, sign first under inner
      padding. */
  lemma PaddedShape(text: string, pad: Pad)
    requires 1 <= |text| < 0x8000 && -0x8000 <= pad.size < 0x8000
    ensures var out := Padded(text, pad);
      var wanted := if pad.size > |text| then pad.size else |text|;
      && (|out| == wanted <==> pad.size - |text| >= -0x8000)
      && (pad.kind.Inner? && text[0] == '-' ==> out[0] == '-')
      && (pad.kind.Right? ==> out[..|text|] == text)
      && (pad.kind.Left? ==> out[|out| - |text|..] == text)
      && (pad.kind.Inner? && text[0] != '-' ==> out[|out| - |text|..] == text)
      && (pad.kind.Inner? ==> out[|out| - |text| + 1..] == text[1..])
      && multiset(out) == multiset(text) + multiset(Repeat(pad.fill, |out| - |text|))
  {
    var fill := Repeat(pad.fill, Int16(pad.size - Int16(|text|)));
    FillLength(|text|, pad.size);
    PaddedContent(text, pad, fill);
  }

  lemma FillLength(length: nat, size: int)
    requires 1 <= length < 0x8000 && -0x8000 <= size < 0x8000
    ensures var n := Int16(size - Int16(length));
      if size - length >= -0x8000 then n == size - length else n == size - length + 0x1_0000 && n > 0
  {
  }

  lemma PaddedContent(text: string, pad: Pad, fill: string)
    requires text != [] && fill == Repeat(pad.fill, Int16(pad.size - Int16(|text|)))
    ensures var out := Padded(text, pad);
      && |out| == |text| + |fill| && fill == Repeat(pad.fill, |out| - |text|)
      && (pad.kind.Inner? && text[0] == '-' ==> out[0] == '-')
      && (pad.kind.Right? ==> out[..|text|] == text)
      && (pad.kind.Left? ==> out[|out| - |text|..] == text)
      && (pad.kind.Inner? && text[0] != '-' ==> out[|out| - |text|..] == text)
      && (pad.kind.Inner? ==> out[|out| - |text| + 1..] == text[1..])
      && multiset(out) == multiset(text) + multiset(fill)
  {
    assert text == [text[0]] + text[1..];
    if fill == [] {
      assert Padded(text, pad) == text;
    }
  }

  method WritePadded(out: string, text: string, pad: Pad) returns (out': string)
    requires text != []
    ensures out' == out + Padded(text, pad)
  {
    var size := Int16(pad.size - Int16(|text|));
    out' := out;
    if size <= 0 {
      out' := out' + text;
    } else if pad.kind.Right? {
      out' := out' + text;
      var left := size;
      while left > 0
        invariant 0 <= left <= size
        invariant out' == out + text + Repeat(pad.fill, size - left)
      {
        out' := out' + [pad.fill];
        left := left - 1;
        assert Repeat(pad.fill, size - left) == Repeat(pad.fill, size - left - 1) + [pad.fill];
      }
      assert out' == out + (text + Repeat(pad.fill, size));
    } else {
      var rest := text;
      if pad.kind.Inner? && text[0] == '-' {
        out' := out' + ['-'];
        rest := text[1..];
      }
      ghost var start := out';
      var left := size;
      while left > 0
        invariant 0 <= left <= size
        invariant out' == start + Repeat(pad.fill, size - left)
      {
        out' := out' + [pad.fill];
        left := left - 1;
        assert Repeat(pad.fill, size - left) == Repeat(pad.fill, size - left - 1) + [pad.fill];
      }
      out' := out' + rest;
      assert out' == out + Padded(text, pad);
    }
  }

  /** The digits the loop has not written yet. */
  function Remaining(u: nat, base: nat, more: bool): string
    requires 2 <= base <= 36
  {
    if more then Digits(u, base) else []
  }

  lemma DigitsUnfold(u: nat, base: nat)
    requires 2 <= base <= 36
    ensures 0 <= u / base && 0 <= u % base < base
    ensures u > 0 ==> u / base < u
    ensures Digits(u, base) == (if u / base != 0 then Digits(u / base, base) else []) + [DigitChar(u % base)]
  {
    Division(u, base);
  }

  /** Fills the end of the buffer with the digits of `value`, back to front. */
  method WriteDigits(buf: array<char>, value: nat, base: nat) returns (p: nat)
    requires 2 <= base <= 36 && |Digits(value, base)| <= buf.Length
    modifies buf
    ensures p <= buf.Length && buf[p..] == Digits(value, base)
  {
    var u: nat := value;
    p := buf.Length;
    var more := true;
    while more
      invariant 0 <= p <= buf.Length
      invariant Remaining(u, base, more) + buf[p..] == Digits(value, base)
      decreases more, u
    {
      DigitsUnfold(u, base);
      ghost var done := buf[p..];
      assert Remaining(u, base, more) == Remaining(u / base, base, u / base != 0) + [DigitChar(u % base)];
      p := p - 1;
      buf[p] := DigitChar(u % base);
      assert buf[p..] == [DigitChar(u % base)] + done;
      u := u / base;
      more := u != 0;
    }
  }

  /** Prints `value`, an integer of `bits` bits, to the end of `out`. The result is absent
      if the sign would have to be written in front of the buffer. */
  method WriteInteger(out: string, value: int, bits: nat, signed: bool, base: nat, pad: Pad)
    returns (out': Option<string>)
    requires 8 <= bits && 2 <= base <= 36 && InRange(value, bits, signed)
    ensures out'.None? <==> signed && base == 2 && value == -Pow(2, bits - 1)
    ensures out'.Some? ==> out'.value == out + Padded(Text(value, base), pad)
  {
    var buf := new char[bits];
    var modulus := Pow(2, bits);
    var unsigned: nat := value % modulus;
    if signed && value < 0 {
      unsigned := (0 - unsigned) % modulus;
    }
    ghost var magnitude: nat := if value < 0 then -value else value;
    UnsignedIsMagnitude(value, bits, signed);
    BufferFits(value, bits, signed, base);
    assert unsigned == magnitude;

    var p := WriteDigits(buf, unsigned, base);

    if signed && value < 0 {
      if p == 0 {
        return None;
      }
      p := p - 1;
      buf[p] := '-';
      assert buf[p..] == ['-'] + Digits(magnitude, base);
    }
    var printed := WritePadded(out, buf[p..], pad);
    return Some(printed);
  }

  lemma Modulo(value: int, m: int)
    requires 0 < m
    ensures 0 <= value < m ==> value % m == value
    ensures -m <= value < 0 ==> value % m == value + m
  {
  }

  lemma UnsignedIsMagnitude(value: int, bits: nat, signed: bool)
    requires 1 <= bits && InRange(value, bits, signed)
    ensures var m := Pow(2, bits);
      && m > 0
      && (value >= 0 ==> value % m == value)
      && (value < 0 ==> signed && (0 - value % m) % m == -value)
  {
    var m := Pow(2, bits);
    PowPositive(2, bits - 1);
    assert m == 2 * Pow(2, bits - 1);
    Modulo(value, m);
    if value < 0 {
      Modulo(-(value + m), m);
    }
  }
}
