/** Base 64 with padding (RFC 4648, section 4). */
module Base64 {
  import opened Common

  type Sextet = n: nat | n < 64

  function Digit(n: Sextet): char {
    if n < 26 then ('A' as int + n) as char
    else if n < 52 then ('a' as int + n - 26) as char
    else if n < 62 then ('0' as int + n - 52) as char
    else if n == 62 then '+'
    else '/'
  }

  /** The value of a digit, None for any other character. */
  function Value(c: char): Option<Sextet> {
    if 'A' <= c <= 'Z' then Some(c as int - 'A' as int)
    else if 'a' <= c <= 'z' then Some(c as int - 'a' as int + 26)
    else if '0' <= c <= '9' then Some(c as int - '0' as int + 52)
    else if c == '+' then Some(62)
    else if c == '/' then Some(63)
    else None
  }

  /** The four sextets of three bytes. */
  function Sextets(a: Byte, b: Byte, c: Byte): (values: seq<Sextet>)
    ensures |values| == 4
  {
    var x, y, z := a as int, b as int, c as int;
    [x / 4, x % 4 * 16 + y / 16, y % 16 * 4 + z / 64, z % 64]
  }

  function Digits(values: seq<Sextet>): (digits: string)
    ensures |digits| == |values|
  {
    seq(|values|, i requires 0 <= i < |values| => Digit(values[i]))
  }

  function Encode(content: seq<Byte>): string {
    if |content| == 0 then ""
    else if |content| == 1 then Digits(Sextets(content[0], 0, 0)[..2]) + "=="
    else if |content| == 2 then Digits(Sextets(content[0], content[1], 0)[..3]) + "="
    else Digits(Sextets(content[0], content[1], content[2])) + Encode(content[3..])
  }

  /** The three bytes of four sextets. */
  function Bytes(d: seq<Sextet>): seq<Byte>
    requires |d| == 4
  {
    var p: int, q: int, r: int, s: int := d[0], d[1], d[2], d[3];
    [(p * 4 + q / 16) as Byte, (q % 16 * 16 + r / 4) as Byte, (r % 4 * 64 + s) as Byte]
  }

  function Values(digits: string): Option<seq<Sextet>> {
    if digits == "" then Some([])
    else
      match (Value(digits[0]), Values(digits[1..]))
      case (Some(v), Some(vs)) => Some([v] + vs)
      case _ => None
  }

  /** How many of the last two characters of a group are padding. */
  function Padding(group: string): (n: nat)
    requires |group| == 4
    ensures n <= 2
  {
    if group[3] != '=' then 0 else if group[2] != '=' then 1 else 2
  }

  /** Three bytes, or fewer if the group is padded, which only the last group may be. */
  function DecodeGroup(group: string, isLast: bool): Option<seq<Byte>>
    requires |group| == 4
  {
    var padding := Padding(group);
    match Values(group[..4 - padding])
    case None => None
    case Some(values) =>
      if (padding > 0 && !isLast) || |values| != 4 - padding then None
      else Some(Bytes(values + seq(padding, _ => 0))[..3 - padding])
  }

  function Decode(text: string): Option<seq<Byte>> {
    if text == "" then Some([])
    else if |text| < 4 then None
    else
      match DecodeGroup(text[..4], |text| == 4)
      case None => None
      case Some(bytes) => Preceded(bytes, Decode(text[4..]))
  }

  function Preceded(bytes: seq<Byte>, rest: Option<seq<Byte>>): Option<seq<Byte>> {
    match rest
    case None => None
    case Some(more) => Some(bytes + more)
  }

  // ----- Reading back -----

  lemma DigitIsRead(n: Sextet)
    ensures Value(Digit(n)) == Some(n) && Digit(n) != '\'' && Digit(n) != '='
  {
  }

  lemma {:induction false} DigitsAreRead(values: seq<Sextet>)
    ensures Values(Digits(values)) == Some(values)
    ensures '\'' !in Digits(values) && '=' !in Digits(values)
  {
    if values != [] {
      DigitIsRead(values[0]);
      DigitsAreRead(values[1..]);
      assert Digits(values) == [Digit(values[0])] + Digits(values[1..]);
      assert values == [values[0]] + values[1..];
    }
  }

  lemma BytesAreRead(a: Byte, b: Byte, c: Byte)
    ensures Bytes(Sextets(a, b, c)) == [a, b, c]
  {
    var x, y, z := a as int, b as int, c as int;
    assert (x % 4 * 16 + y / 16) / 16 == x % 4 && (x % 4 * 16 + y / 16) % 16 == y / 16;
    assert (y % 16 * 4 + z / 64) / 4 == y % 16 && (y % 16 * 4 + z / 64) % 4 == z / 64;
  }

  predicate Pads(a: Byte, b: Byte, c: Byte, padding: nat) {
    padding <= 2 && (padding > 0 ==> c == 0) && (padding == 2 ==> b == 0)
  }

  lemma LeftOutSextetsAreZero(a: Byte, b: Byte, c: Byte, padding: nat)
    requires Pads(a, b, c, padding)
    ensures Sextets(a, b, c)[..4 - padding] + seq(padding, _ => 0) == Sextets(a, b, c)
  {
  }

  lemma GroupInParts(digits: string, padding: nat)
    requires padding <= 2 && |digits| == 4 - padding && '=' !in digits
    ensures var group := digits + seq(padding, _ => '='); Padding(group) == padding && group[..4 - padding] == digits
  {
    var group := digits + seq(padding, _ => '=');
    assert group[4 - padding - 1] in digits;
  }

  /** A group with the digits of some sextets, and padding for the zero ones that are left out. */
  lemma GroupIsRead(a: Byte, b: Byte, c: Byte, padding: nat, isLast: bool)
    requires Pads(a, b, c, padding) && (padding > 0 ==> isLast)
    ensures var group := Digits(Sextets(a, b, c)[..4 - padding]) + seq(padding, _ => '=');
      DecodeGroup(group, isLast) == Some([a, b, c][..3 - padding]) && '\'' !in group
  {
    hide Sextets, Bytes, Digits, Padding, Values;
    var kept := Sextets(a, b, c)[..4 - padding];
    DigitsAreRead(kept);
    GroupInParts(Digits(kept), padding);
    LeftOutSextetsAreZero(a, b, c, padding);
    BytesAreRead(a, b, c);
  }

  /** Decoding gives back what was encoded, and no quote occurs in between. */
  lemma {:induction false} RoundTrip(content: seq<Byte>)
    ensures Decode(Encode(content)) == Some(content)
    ensures '\'' !in Encode(content)
  {
    hide Sextets, Digits, DecodeGroup;
    if |content| == 0 {
    } else if |content| == 1 {
      GroupIsRead(content[0], 0, 0, 2, true);
      assert seq(2, _ => '=') == "==" && [content[0], 0, 0][..1] == content;
      LastGroup(Encode(content));
    } else if |content| == 2 {
      GroupIsRead(content[0], content[1], 0, 1, true);
      assert seq(1, _ => '=') == "=" && [content[0], content[1], 0][..2] == content;
      LastGroup(Encode(content));
    } else {
      var three, rest := content[..3], content[3..];
      FirstGroup(three[0], three[1], three[2], Encode(rest));
      RoundTrip(rest);
      assert three == [content[0], content[1], content[2]] && three + rest == content;
    }
  }

  lemma FirstGroup(a: Byte, b: Byte, c: Byte, rest: string)
    ensures Decode(Digits(Sextets(a, b, c)) + rest) == Preceded([a, b, c], Decode(rest))
    ensures '\'' !in Digits(Sextets(a, b, c))
  {
    hide Sextets, Digits, DecodeGroup;
    var digits := Digits(Sextets(a, b, c));
    GroupIsRead(a, b, c, 0, rest == "");
    assert Sextets(a, b, c)[..4] == Sextets(a, b, c) && digits + seq(0, _ => '=') == digits;
    assert (digits + rest)[..4] == digits && (digits + rest)[4..] == rest;
    assert [a, b, c][..3] == [a, b, c];
  }

  lemma LastGroup(text: string)
    requires |text| == 4
    ensures Decode(text) == DecodeGroup(text, true)
  {
    assert text[..4] == text && text[4..] == "";
    assert Decode(text[4..]) == Some([]);
    if DecodeGroup(text, true).Some? {
      assert DecodeGroup(text, true).value + [] == DecodeGroup(text, true).value;
    }
  }
}
