/**
 The URL-safe base64 alphabet without padding (section 5 of RFC 4648).  The decoder is strict:
 it refuses padding, a single left-over character, and left-over bits that are not zero.
 Bytes and sextets are written as their two-bit groups, highest first.
 */
module Base64Url {
  import opened Prelude
  import opened Text

  type Pair = n: int | 0 <= n < 4

  datatype Byte = Byte(a: Pair, b: Pair, c: Pair, d: Pair)
  datatype Sextet = Sextet(a: Pair, b: Pair, c: Pair)

  // ---------------------------------------------------------------------------------------
  // Bytes and sextets: three bytes are four sextets
  // ---------------------------------------------------------------------------------------

  function Pack(s: seq<Byte>): seq<Sextet> {
    if s == [] then []
    else
      var x := s[0];
      var first := Sextet(x.a, x.b, x.c);
      if |s| == 1 then [first, Sextet(x.d, 0, 0)]
      else
        var y := s[1];
        var second := Sextet(x.d, y.a, y.b);
        if |s| == 2 then [first, second, Sextet(y.c, y.d, 0)]
        else
          var z := s[2];
          [first, second, Sextet(y.c, y.d, z.a), Sextet(z.b, z.c, z.d)] + Pack(s[3..])
  }

  function Unpack(v: seq<Sextet>): Option<seq<Byte>> {
    if v == [] then Some([])
    else if |v| == 1 then None
    else
      var x := Byte(v[0].a, v[0].b, v[0].c, v[1].a);
      if |v| == 2 then (if v[1].b == 0 && v[1].c == 0 then Some([x]) else None)
      else
        var y := Byte(v[1].b, v[1].c, v[2].a, v[2].b);
        if |v| == 3 then (if v[2].c == 0 then Some([x, y]) else None)
        else
          match Unpack(v[4..])
          case None => None
          case Some(rest) => Some([x, y, Byte(v[2].c, v[3].a, v[3].b, v[3].c)] + rest)
  }

  lemma {:induction false} UnpackPack(s: seq<Byte>)
    ensures Unpack(Pack(s)) == Some(s)
  {
    if |s| == 1 {
      assert s == [s[0]];
    } else if |s| == 2 {
      assert s == [s[0], s[1]];
    } else if |s| > 2 {
      UnpackPack(s[3..]);
      assert Pack(s)[4..] == Pack(s[3..]);
      assert s == [s[0], s[1], s[2]] + s[3..];
    }
  }

  lemma {:induction false} PackUnpack(v: seq<Sextet>)
    ensures Unpack(v).Some? ==> Pack(Unpack(v).value) == v
  {
    if |v| == 3 {
      assert v == [v[0], v[1], v[2]];
    } else if |v| > 3 && Unpack(v).Some? {
      PackUnpack(v[4..]);
      assert Unpack(v).value[3..] == Unpack(v[4..]).value;
      assert v == [v[0], v[1], v[2], v[3]] + v[4..];
    }
  }

  // ---------------------------------------------------------------------------------------
  // Sextets and characters
  // ---------------------------------------------------------------------------------------

  function Letter(n: int): char
    requires 0 <= n < 64
  {
    if n < 26 then ('A' as int + n) as char
    else if n < 52 then ('a' as int + n - 26) as char
    else if n < 62 then ('0' as int + n - 52) as char
    else if n == 62 then '-'
    else '_'
  }

  function Number(c: char): Option<int> {
    if 'A' <= c <= 'Z' then Some(c as int - 'A' as int)
    else if 'a' <= c <= 'z' then Some(c as int - 'a' as int + 26)
    else if '0' <= c <= '9' then Some(c as int - '0' as int + 52)
    else if c == '-' then Some(62)
    else if c == '_' then Some(63)
    else None
  }

  const UPPER := "ABCDEFGHIJKLMNOPQRSTUVWXYZ"
  const LOWER := "abcdefghijklmnopqrstuvwxyz"
  const DIGITS := "0123456789"
  const ALPHABET := UPPER + LOWER + DIGITS + "-_"

  lemma LettersAreTheAlphabet(n: int)
    requires 0 <= n < 64
    ensures Letter(n) == ALPHABET[n]
  {
    if n < 26 {
      Consecutive(UPPER, n);
    } else if n < 52 {
      Consecutive(LOWER, n - 26);
    } else if n < 62 {
      Consecutive(DIGITS, n - 52);
    }
  }

  lemma Consecutive(s: string, n: int)
    requires 0 <= n < |s| && forall i :: 0 < i < |s| ==> s[i] as int == s[i - 1] as int + 1
    ensures s[n] as int == s[0] as int + n
  {
    if n > 0 { Consecutive(s, n - 1); }
  }

  function Digit(v: Sextet): char {
    Letter(v.a * 16 + v.b * 4 + v.c)
  }

  function Undigit(c: char): Option<Sextet> {
    match Number(c)
    case None => None
    case Some(n) => Some(Sextet(n / 16, n / 4 % 4, n % 4))
  }

  lemma LetterNumber(n: int)
    requires 0 <= n < 64
    ensures Number(Letter(n)) == Some(n) && Letter(n) != '.'
  {
  }

  lemma Groups(a: Pair, b: Pair, c: Pair)
    ensures var n := a * 16 + b * 4 + c;
            n / 16 == a && n / 4 == a * 4 + b && n / 4 % 4 == b && n % 4 == c
  {
    var n := a * 16 + b * 4 + c;
    assert n == (a * 4 + b) * 4 + c;
  }

  lemma DigitUndigit(v: Sextet)
    ensures Undigit(Digit(v)) == Some(v) && Digit(v) != '.'
  {
    LetterNumber(v.a * 16 + v.b * 4 + v.c);
    Groups(v.a, v.b, v.c);
  }

  lemma NumberLetter(c: char)
    ensures Number(c).Some? ==> 0 <= Number(c).value < 64 && Letter(Number(c).value) == c
  {
  }

  lemma Regrouped(n: int)
    requires 0 <= n < 64
    ensures n / 16 * 16 + n / 4 % 4 * 4 + n % 4 == n
  {
    assert n / 4 / 4 == n / 16;
  }

  lemma UndigitDigit(c: char)
    ensures Undigit(c).Some? ==> Digit(Undigit(c).value) == c
  {
    NumberLetter(c);
    if Number(c).Some? { Regrouped(Number(c).value); }
  }

  function ToText(v: seq<Sextet>): string {
    if v == [] then "" else [Digit(v[0])] + ToText(v[1..])
  }

  function FromText(s: string): Option<seq<Sextet>> {
    if s == "" then Some([])
    else
      var v, rest := Undigit(s[0]), FromText(s[1..]);
      if v.None? || rest.None? then None else Some([v.value] + rest.value)
  }

  lemma {:induction false} FromTextToText(v: seq<Sextet>)
    ensures FromText(ToText(v)) == Some(v) && Lacks(ToText(v), '.')
  {
    if v != [] {
      DigitUndigit(v[0]);
      FromTextToText(v[1..]);
      assert ToText(v)[1..] == ToText(v[1..]);
      assert v == [v[0]] + v[1..];
    }
  }

  lemma {:induction false} ToTextFromText(s: string)
    ensures FromText(s).Some? ==> ToText(FromText(s).value) == s
  {
    if s != "" && FromText(s).Some? {
      UndigitDigit(s[0]);
      ToTextFromText(s[1..]);
      assert FromText(s).value[1..] == FromText(s[1..]).value;
    }
  }

  // ---------------------------------------------------------------------------------------
  // The codec
  // ---------------------------------------------------------------------------------------

  function Encode(b: seq<Byte>): string {
    ToText(Pack(b))
  }

  function Decode(s: string): Option<seq<Byte>> {
    match FromText(s)
    case None => None
    case Some(v) => Unpack(v)
  }

  lemma DecodeEncode(b: seq<Byte>)
    ensures Decode(Encode(b)) == Some(b)
    ensures Lacks(Encode(b), '.')
  {
    UnpackPack(b);
    FromTextToText(Pack(b));
  }

  /** Strictness: whatever decodes is the one encoding of what it decodes to. */
  lemma EncodeDecode(s: string)
    ensures Decode(s).Some? ==> Encode(Decode(s).value) == s
  {
    ToTextFromText(s);
    if FromText(s).Some? { PackUnpack(FromText(s).value); }
  }

  /** The letters f and o, by their two-bit groups. */
  const F := Byte(1, 2, 1, 2)
  const O := Byte(1, 2, 3, 3)

  /** The test vectors "f", "fo" and "foo" of section 10 of RFC 4648, without padding. */
  lemma TestVectors()
    ensures Encode([]) == "" && Encode([F]) == "Zg" && Encode([F, O]) == "Zm8" && Encode([F, O, O]) == "Zm9v"
  {
    assert Pack([F]) == [Sextet(1, 2, 1), Sextet(2, 0, 0)];
    assert Pack([F, O]) == [Sextet(1, 2, 1), Sextet(2, 1, 2), Sextet(3, 3, 0)];
    assert [F, O, O][3..] == [];
    assert Pack([F, O, O]) == [Sextet(1, 2, 1), Sextet(2, 1, 2), Sextet(3, 3, 1), Sextet(2, 3, 3)];
    Spelled([Sextet(1, 2, 1), Sextet(2, 0, 0)]);
    Spelled([Sextet(1, 2, 1), Sextet(2, 1, 2), Sextet(3, 3, 0)]);
    Spelled([Sextet(1, 2, 1), Sextet(2, 1, 2), Sextet(3, 3, 1), Sextet(2, 3, 3)]);
  }

  lemma {:induction false} Spelled(v: seq<Sextet>)
    ensures |ToText(v)| == |v| && forall i :: 0 <= i < |v| ==> ToText(v)[i] == Digit(v[i])
  {
    if v != [] { Spelled(v[1..]); }
  }
}
