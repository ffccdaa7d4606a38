/** The pieces of Rust's standard library whose exact behaviour the REPL
    depends on: the UTF-8 bytes behind a `String` (`as_bytes`,
    `CString::new`), `i64::from_str_radix` / `str::parse::<i64>`, and
    decimal formatting of integers (`{}` in `format!`). */
module StdText {
  import opened Wrappers

  type Byte = b: int | 0 <= b < 256

  const I64_MIN: int := -0x8000_0000_0000_0000
  const I64_MAX: int := 0x7FFF_FFFF_FFFF_FFFF

  predicate InI64(x: int) {
    I64_MIN <= x <= I64_MAX
  }

  // ---------------------------------------------------------------------
  // UTF-8

  /** The UTF-8 encoding of one Unicode scalar value. Only the NUL
      character encodes to a zero byte, and ASCII encodes to itself. */
  function Utf8Char(c: char): (r: seq<Byte>)
    ensures 1 <= |r| <= 4
    ensures (0 in r) <==> c == '\0'
    ensures (c as int < 0x80) <==> (|r| == 1)
    ensures c as int < 0x80 ==> r == [c as int]
  {
    var cp := c as int;
    if cp < 0x80 then [cp]
    else if cp < 0x800 then [0xC0 + cp / 0x40, 0x80 + cp % 0x40]
    else if cp < 0x1_0000 then [0xE0 + cp / 0x1000, 0x80 + (cp / 0x40) % 0x40, 0x80 + cp % 0x40]
    else [0xF0 + cp / 0x4_0000, 0x80 + (cp / 0x1000) % 0x40, 0x80 + (cp / 0x40) % 0x40, 0x80 + cp % 0x40]
  }

  /** `s.as_bytes()`: the UTF-8 encoding of a string. */
  function Utf8(s: string): (r: seq<Byte>)
    ensures |r| >= |s|
    ensures (0 in r) <==> ('\0' in s)
    ensures s != [] ==> r[0] == Utf8Char(s[0])[0]
  {
    if s == [] then [] else Utf8Char(s[0]) + Utf8(s[1..])
  }

  lemma {:induction false} Utf8Append(a: string, b: string)
    ensures Utf8(a + b) == Utf8(a) + Utf8(b)
  {
    if a == [] {
      assert a + b == b;
    } else {
      assert (a + b)[0] == a[0];
      assert (a + b)[1..] == a[1..] + b;
      Utf8Append(a[1..], b);
    }
  }

  /** The byte offset of the first NUL character in the UTF-8 encoding. */
  function NulOffset(s: string): (r: nat)
    requires '\0' in s
    ensures r < |Utf8(s)| && Utf8(s)[r] == 0
    ensures forall k :: 0 <= k < r ==> Utf8(s)[k] != 0
  {
    if s[0] == '\0' then 0
    else
      assert '\0' in s[1..] by {
        var i :| 0 <= i < |s| && s[i] == '\0';
        assert s[1..][i - 1] == '\0';
      }
      var head, rest := Utf8Char(s[0]), Utf8(s[1..]);
      assert Utf8(s) == head + rest;
      |head| + NulOffset(s[1..])
  }

  /** `CString::new(s)`: the bytes with a NUL terminator, or the library's
      error naming where the interior NUL is. */
  function CStringNew(s: string): (r: Result<seq<Byte>, string>)
    ensures r.Err? <==> '\0' in s
    ensures r.Ok? ==> |r.value| == |Utf8(s)| + 1 && r.value[..|r.value| - 1] == Utf8(s)
    ensures r.Ok? ==> r.value[|r.value| - 1] == 0 && 0 !in r.value[..|r.value| - 1]
  {
    if '\0' in s then Err("nul byte found in provided data at position: " + DecimalText(NulOffset(s)))
    else Ok(Utf8(s) + [0])
  }

  /** The bytes in `Debug` form, without brackets: `97, 0, 98`. */
  function JoinBytes(bs: seq<Byte>): string {
    if |bs| == 0 then ""
    else if |bs| == 1 then DecimalText(bs[0])
    else DecimalText(bs[0]) + ", " + JoinBytes(bs[1..])
  }

  /** The panic of `CString::new(s).unwrap()`: the `Debug` form of the
      `NulError`, which holds the NUL's offset and all the bytes. */
  function UnwrapNulError(s: string): Failure
    requires '\0' in s
  {
    Panic("called `Result::unwrap()` on an `Err` value: NulError(" + DecimalText(NulOffset(s))
          + ", [" + JoinBytes(Utf8(s)) + "])")
  }

  // ---------------------------------------------------------------------
  // Integer text

  /** `char::to_digit(36)`: the digit a character stands for in any radix. */
  function DigitValue(c: char): (r: Option<nat>)
    ensures r.Some? ==> r.value < 36
    ensures r.Some? && r.value < 10 <==> '0' <= c <= '9'
  {
    if '0' <= c <= '9' then Some(c as int - '0' as int)
    else if 'a' <= c <= 'z' then Some(c as int - 'a' as int + 10)
    else if 'A' <= c <= 'Z' then Some(c as int - 'A' as int + 10)
    else None
  }

  /** The value of a run of digits in the given radix, read from the left
      as `acc * radix + digit`; `None` if any character is not a digit of
      the radix. */
  function DigitsValue(ds: string, radix: nat): Option<nat>
    requires 2 <= radix <= 36
  {
    if ds == [] then Some(0)
    else
      match DigitsValue(ds[..|ds| - 1], radix)
      case None => None
      case Some(acc) =>
        match DigitValue(ds[|ds| - 1])
        case None => None
        case Some(d) => if d < radix then Some(acc * radix + d) else None
  }

  /** `i64::from_str_radix(src, radix)`. At most one leading sign, then at
      least one digit of the radix; the value must fit in an i64. (Rust
      checks overflow at every step, but the magnitude of the running
      value never exceeds that of the final value, so checking the final
      value is the same.) `str::parse::<i64>` is this with radix 10. */
  function FromStrRadix(src: string, radix: nat): (r: Option<int>)
    requires 2 <= radix <= 36
    ensures r.Some? ==> InI64(r.value)
    ensures r.Some? ==> src != [] && src != "+" && src != "-"
  {
    if src == [] then None
    else if (src[0] == '+' || src[0] == '-') && |src| == 1 then None
    else
      var negative := src[0] == '-';
      var digits := if src[0] == '+' || src[0] == '-' then src[1..] else src;
      match DigitsValue(digits, radix)
      case None => None
      case Some(m) =>
        var mag: int := m;
        var v := if negative then -mag else mag;
        if InI64(v) then Some(v) else None
  }

  /** The lower-case digit character for `d`. */
  function DigitChar(d: nat): (c: char)
    requires d < 36
    ensures DigitValue(c) == Some(d)
  {
    if d < 10 then (d + '0' as int) as char else (d - 10 + 'a' as int) as char
  }

  /** The digits of `n` in the given radix, most significant first, with
      no leading zero. */
  function ToDigits(n: nat, radix: nat): (r: string)
    requires 2 <= radix <= 36
    ensures |r| >= 1
    ensures DigitValue(r[0]).Some?
    ensures r[0] == '0' ==> n == 0 && |r| == 1
    decreases n
  {
    if n < radix then [DigitChar(n)]
    else
      DivStep(n, radix);
      ToDigits(n / radix, radix) + [DigitChar(n % radix)]
  }

  /** Euclidean division facts for one digit step. */
  lemma DivStep(n: nat, d: nat)
    requires 2 <= d <= n
    ensures 1 <= n / d < n
    ensures 0 <= n % d < d
    ensures n == (n / d) * d + n % d
  {
  }

  /** Reading back the digits of `n` gives `n`. */
  lemma {:induction false} DigitsRoundTrip(n: nat, radix: nat)
    requires 2 <= radix <= 36
    ensures DigitsValue(ToDigits(n, radix), radix) == Some(n)
    decreases n
  {
    var ds := ToDigits(n, radix);
    if n < radix {
      assert ds[..|ds| - 1] == [];
      assert DigitsValue([], radix) == Some(0);
    } else {
      DivStep(n, radix);
      var q, d := n / radix, n % radix;
      DigitsRoundTrip(q, radix);
      assert ds == ToDigits(q, radix) + [DigitChar(d)];
      assert ds[..|ds| - 1] == ToDigits(q, radix);
      assert ds[|ds| - 1] == DigitChar(d);
      assert DigitValue(DigitChar(d)) == Some(d);
      assert q * radix + d == n;
    }
  }

  /** `format!("{}", i)` for an integer. */
  function DecimalText(i: int): (r: string)
    ensures |r| >= 1
    ensures r[0] == '-' <==> i < 0
    ensures r[0] == '0' ==> r == "0"
  {
    if i < 0 then "-" + ToDigits(-i, 10) else ToDigits(i, 10)
  }

  /** Every i64 printed in decimal parses back to itself. */
  /** The digits of any non-negative i64, in any radix, read back as it. */
  lemma UnsignedRoundTrip(n: nat, radix: nat)
    requires 2 <= radix <= 36 && n <= I64_MAX
    ensures FromStrRadix(ToDigits(n, radix), radix) == Some(n)
  {
    var t := ToDigits(n, radix);
    DigitsRoundTrip(n, radix);
    assert t[0] != '+' && t[0] != '-' by {
      assert DigitValue(t[0]).Some?;
    }
  }

  lemma DecimalRoundTrip(i: int)
    requires InI64(i)
    ensures FromStrRadix(DecimalText(i), 10) == Some(i)
  {
    var t := DecimalText(i);
    if i < 0 {
      DigitsRoundTrip(-i, 10);
      assert t[1..] == ToDigits(-i, 10);
    } else {
      DigitsRoundTrip(i, 10);
      assert t[0] != '+' && t[0] != '-' by {
        assert DigitValue(t[0]).Some?;
      }
    }
  }
}
