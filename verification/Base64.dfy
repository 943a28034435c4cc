/** The base64 encoding of section 4 of RFC 4648, and decimal numerals.
  *
  * Bytes become groups of four symbols, the last one padded; decoding takes
  * whole groups with the padding at the end, and undoes encoding.
  */
module Base64 {
  import opened Common

  // Six-bit values and their symbols

  type Sextet = v: int | 0 <= v < 64

  function Symbol(v: Sextet): char {
    if v < 26 then ('A' as int + v) as char
    else if v < 52 then ('a' as int + (v - 26)) as char
    else if v < 62 then ('0' as int + (v - 52)) as char
    else if v == 62 then '+' else '/'
  }

  predicate IsSymbol(c: char) {
    'A' <= c <= 'Z' || 'a' <= c <= 'z' || '0' <= c <= '9' || c == '+' || c == '/'
  }

  function Value(c: char): Sextet
    requires IsSymbol(c)
  {
    if 'A' <= c <= 'Z' then c as int - 'A' as int
    else if 'a' <= c <= 'z' then c as int - 'a' as int + 26
    else if '0' <= c <= '9' then c as int - '0' as int + 52
    else if c == '+' then 62 else 63
  }

  lemma SymbolValue(v: Sextet)
    ensures IsSymbol(Symbol(v)) && Value(Symbol(v)) == v
  {
  }

  lemma Ascending(run: string, first: char, v: nat)
    requires v < |run| && first == run[0] && first as int + |run| < 128
    requires forall i | 0 < i < |run| :: run[i] as int == run[i - 1] as int + 1
    ensures run[v] as int == first as int + v
  {
    if v > 0 {
      Ascending(run, first, v - 1);
    }
  }

  /** The symbols are those of table 1 of RFC 4648, in its order. */
  lemma SymbolsAreTheTable(v: Sextet)
    ensures var upper, lower, digits := "ABCDEFGHIJKLMNOPQRSTUVWXYZ", "abcdefghijklmnopqrstuvwxyz", "0123456789";
            Symbol(v) == (upper + lower + digits + "+/")[v]
  {
    if v < 26 {
      Ascending("ABCDEFGHIJKLMNOPQRSTUVWXYZ", 'A', v);
    } else if v < 52 {
      Ascending("abcdefghijklmnopqrstuvwxyz", 'a', v - 26);
    } else if v < 62 {
      Ascending("0123456789", '0', v - 52);
    }
  }

  // Encoding

  function Quad(a: Byte, b: Byte, c: Byte): string {
    [Symbol(a / 4), Symbol(a % 4 * 16 + b / 16), Symbol(b % 16 * 4 + c / 64), Symbol(c % 64)]
  }

  function Encode(bytes: Bytes): string
    decreases |bytes|
  {
    if |bytes| == 0 then []
    else if |bytes| == 1 then Quad(bytes[0], 0, 0)[..2] + "=="
    else if |bytes| == 2 then Quad(bytes[0], bytes[1], 0)[..3] + "="
    else Quad(bytes[0], bytes[1], bytes[2]) + Encode(bytes[3..])
  }

  /** Four symbols are the four digits to base 64 of the number whose three digits to base 256 are the bytes. */
  lemma QuadIsTheNumber(a: Byte, b: Byte, c: Byte)
    ensures |Quad(a, b, c)| == 4 && forall i :: 0 <= i < 4 ==> IsSymbol(Quad(a, b, c)[i])
    ensures var q := Quad(a, b, c);
            ((Value(q[0]) * 64 + Value(q[1])) * 64 + Value(q[2])) * 64 + Value(q[3]) == (a * 256 + b) * 256 + c
  {
    QuadValues(a, b, c);
  }

  predicate InAlphabet(text: string) {
    forall c :: c in text ==> IsSymbol(c) || c == '='
  }

  lemma {:induction false} EncodeLength(bytes: Bytes)
    ensures |Encode(bytes)| == (|bytes| + 2) / 3 * 4
    decreases |bytes|
  {
    if |bytes| > 2 {
      EncodeLength(bytes[3..]);
      ThreeMore(|bytes| - 3);
      assert |Encode(bytes)| == 4 + |Encode(bytes[3..])|;
    }
  }

  lemma ThreeMore(n: nat)
    ensures (n + 3 + 2) / 3 * 4 == 4 + (n + 2) / 3 * 4
  {
  }

  lemma SymbolsInAlphabet(a: Byte, b: Byte, c: Byte)
    ensures InAlphabet(Quad(a, b, c)) && InAlphabet(Quad(a, b, c)[..2] + "==") && InAlphabet(Quad(a, b, c)[..3] + "=")
  {
    SymbolValue(a / 4);
    SymbolValue(a % 4 * 16 + b / 16);
    SymbolValue(b % 16 * 4 + c / 64);
    SymbolValue(c % 64);
  }

  lemma {:induction false} EncodeAlphabet(bytes: Bytes)
    ensures InAlphabet(Encode(bytes))
    decreases |bytes|
  {
    if |bytes| > 0 {
      SymbolsInAlphabet(bytes[0], if |bytes| > 1 then bytes[1] else 0, if |bytes| > 2 then bytes[2] else 0);
      if |bytes| > 2 {
        EncodeAlphabet(bytes[3..]);
      }
    }
  }

  // Decoding: whole groups of four symbols, padding only at the end

  function Triple(p: Sextet, q: Sextet, r: Sextet, s: Sextet): Bytes {
    [p * 4 + q / 16, q % 16 * 16 + r / 4, r % 4 * 64 + s]
  }

  function Decode(text: string): Option<Bytes>
    decreases |text|
  {
    if |text| == 0 then Some([])
    else if |text| < 4 || !IsSymbol(text[0]) || !IsSymbol(text[1]) then None
    else if IsSymbol(text[2]) && IsSymbol(text[3]) then
      var rest := Decode(text[4..]);
      if rest.None? then None
      else Some(Triple(Value(text[0]), Value(text[1]), Value(text[2]), Value(text[3])) + rest.value)
    else if |text| != 4 || text[3] != '=' then None
    else if IsSymbol(text[2]) then Some(Triple(Value(text[0]), Value(text[1]), Value(text[2]), 0)[..2])
    else if text[2] == '=' then Some(Triple(Value(text[0]), Value(text[1]), 0, 0)[..1])
    else None
  }

  /** Splitting three bytes into four sextets loses nothing. */
  lemma SextetsOfBytes(a: Byte, b: Byte, c: Byte)
    ensures a / 4 * 4 + (a % 4 * 16 + b / 16) / 16 == a
    ensures (a % 4 * 16 + b / 16) % 16 * 16 + (b % 16 * 4 + c / 64) / 4 == b
    ensures (b % 16 * 4 + c / 64) % 4 * 64 + c % 64 == c
  {
    assert (a % 4 * 16 + b / 16) / 16 == a % 4 && (a % 4 * 16 + b / 16) % 16 == b / 16;
    assert (b % 16 * 4 + c / 64) / 4 == b % 16 && (b % 16 * 4 + c / 64) % 4 == c / 64;
  }

  /** The values of the four symbols of three bytes. */
  lemma QuadValues(a: Byte, b: Byte, c: Byte)
    ensures |Quad(a, b, c)| == 4 && forall i :: 0 <= i < 4 ==> IsSymbol(Quad(a, b, c)[i])
    ensures Value(Quad(a, b, c)[0]) == a / 4
    ensures Value(Quad(a, b, c)[1]) == a % 4 * 16 + b / 16
    ensures Value(Quad(a, b, c)[2]) == b % 16 * 4 + c / 64
    ensures Value(Quad(a, b, c)[3]) == c % 64
  {
    SymbolValue(a / 4);
    SymbolValue(a % 4 * 16 + b / 16);
    SymbolValue(b % 16 * 4 + c / 64);
    SymbolValue(c % 64);
  }

  lemma QuadTriple(a: Byte, b: Byte, c: Byte)
    ensures |Quad(a, b, c)| == 4 && forall i :: 0 <= i < 4 ==> IsSymbol(Quad(a, b, c)[i])
    ensures
      var q := Quad(a, b, c);
      Triple(Value(q[0]), Value(q[1]), Value(q[2]), Value(q[3])) == [a, b, c]
  {
    QuadValues(a, b, c);
    SextetsOfBytes(a, b, c);
  }

  lemma DecodeQuad(quad: string, rest: string)
    requires |quad| == 4 && forall i :: 0 <= i < 4 ==> IsSymbol(quad[i])
    requires Decode(rest).Some?
    ensures Decode(quad + rest)
         == Some(Triple(Value(quad[0]), Value(quad[1]), Value(quad[2]), Value(quad[3])) + Decode(rest).value)
  {
    assert (quad + rest)[4..] == rest;
  }

  lemma DecodeOne(a: Byte)
    ensures Decode(Encode([a])) == Some([a])
  {
    var quad := Quad(a, 0, 0);
    QuadTriple(a, 0, 0);
    QuadValues(a, 0, 0);
    assert Encode([a]) == [quad[0], quad[1], '=', '='];
    assert [a, 0, 0][..1] == [a];
  }

  lemma DecodeTwo(a: Byte, b: Byte)
    ensures Decode(Encode([a, b])) == Some([a, b])
  {
    var quad := Quad(a, b, 0);
    QuadTriple(a, b, 0);
    QuadValues(a, b, 0);
    assert Encode([a, b]) == [quad[0], quad[1], quad[2], '='];
    assert [a, b, 0][..2] == [a, b];
  }

  lemma DecodeThree(a: Byte, b: Byte, c: Byte, rest: Bytes)
    requires Decode(Encode(rest)) == Some(rest)
    ensures Decode(Encode([a, b, c] + rest)) == Some([a, b, c] + rest)
  {
    var bytes := [a, b, c] + rest;
    assert bytes[3..] == rest;
    assert Encode(bytes) == Quad(a, b, c) + Encode(rest);
    QuadTriple(a, b, c);
    DecodeQuad(Quad(a, b, c), Encode(rest));
  }

  lemma {:induction false} RoundTrip(bytes: Bytes)
    ensures Decode(Encode(bytes)) == Some(bytes)
    decreases |bytes|
  {
    if |bytes| == 1 {
      DecodeOne(bytes[0]);
      assert bytes == [bytes[0]];
    } else if |bytes| == 2 {
      DecodeTwo(bytes[0], bytes[1]);
      assert bytes == [bytes[0], bytes[1]];
    } else if |bytes| > 2 {
      RoundTrip(bytes[3..]);
      DecodeThree(bytes[0], bytes[1], bytes[2], bytes[3..]);
      assert bytes == [bytes[0], bytes[1], bytes[2]] + bytes[3..];
    }
  }

  /** No two byte strings share an encoding. */
  lemma Injective(a: Bytes, b: Bytes)
    requires Encode(a) == Encode(b)
    ensures a == b
  {
    RoundTrip(a);
    RoundTrip(b);
  }

  // Decimal numerals

  predicate IsDigit(c: char) {
    '0' <= c <= '9'
  }

  predicate AllDigits(s: string) {
    forall i :: 0 <= i < |s| ==> IsDigit(s[i])
  }

  function Numeral(n: nat): (s: string)
    ensures |s| > 0 && AllDigits(s)
  {
    (if n < 10 then [] else Numeral(n / 10)) + [('0' as int + n % 10) as char]
  }

  function Number(s: string): nat
    requires AllDigits(s)
    decreases |s|
  {
    if s == [] then 0
    else 10 * Number(s[..|s| - 1]) + (s[|s| - 1] as int - '0' as int)
  }

  lemma {:induction false} NumberNumeral(n: nat)
    ensures Number(Numeral(n)) == n
  {
    var s := Numeral(n);
    if n < 10 {
      assert s[..|s| - 1] == [];
    } else {
      NumberNumeral(n / 10);
      assert s[..|s| - 1] == Numeral(n / 10);
    }
  }

  /** How long a numeral is, for a number below a power of ten. */
  lemma {:induction false} NumeralLength(n: nat, digits: nat, bound: nat)
    requires digits > 0 && bound == Power10(digits) && n < bound
    ensures |Numeral(n)| <= digits
    decreases digits
  {
    if digits > 1 && n >= 10 {
      NumeralLength(n / 10, digits - 1, Power10(digits - 1));
    }
  }

  function Power10(digits: nat): nat {
    if digits == 0 then 1 else 10 * Power10(digits - 1)
  }

  /** The longest run of digits a text begins with. */
  function Digits(s: string): (run: string)
    ensures run <= s && AllDigits(run)
    decreases |s|
  {
    if s == [] || !IsDigit(s[0]) then [] else [s[0]] + Digits(s[1..])
  }

  lemma {:induction false} DigitsOf(run: string, rest: string)
    requires AllDigits(run) && (rest == [] || !IsDigit(rest[0]))
    ensures Digits(run + rest) == run
    decreases |run|
  {
    if run == [] {
      assert run + rest == rest;
    } else {
      DigitsOf(run[1..], rest);
      assert (run + rest)[1..] == run[1..] + rest;
      assert run == [run[0]] + run[1..];
    }
  }
}
