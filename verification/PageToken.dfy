/**
 Page tokens (internal/store/memory/store.go): a position written in decimal and then in unpadded
 base64url (sections 3.2 and 5 of RFC 4648).
 */
module PageToken {
  import opened Common

  const MAX_INT := 0x7fff_ffff_ffff_ffff

  type Byte = b: int | 0 <= b < 256
  type Sextet = b: int | 0 <= b < 64

  // ---- Decimal ------------------------------------------------------------------------------------

  /** `strconv.Itoa` of a nonnegative number, as ASCII bytes. */
  function Itoa(n: nat): (bytes: seq<Byte>)
    ensures |bytes| >= 1
    ensures forall b :: b in bytes ==> 48 <= b <= 57
  {
    if n < 10 then [48 + n] else Itoa(n / 10) + [48 + n % 10]
  }

  function Digits(bytes: seq<Byte>): Option<nat> {
    if bytes == [] then Some(0)
    else
      var d := bytes[|bytes| - 1];
      var rest := Digits(bytes[..|bytes| - 1]);
      if rest.None? || d < 48 || d > 57 then None else Some(10 * rest.value + (d - 48))
  }

  /** `strconv.Atoi`: an optional sign, at least one digit, and the range of a 64-bit integer. */
  function Atoi(bytes: seq<Byte>): Option<int> {
    var signed := bytes != [] && (bytes[0] == 43 || bytes[0] == 45);
    var body := if signed then bytes[1..] else bytes;
    var n := Digits(body);
    if body == [] || n.None? then None
    else
      var v: int := if signed && bytes[0] == 45 then 0 - n.value else n.value;
      if -MAX_INT - 1 <= v <= MAX_INT then Some(v) else None
  }

  lemma {:induction false} DigitsItoa(n: nat)
    ensures Digits(Itoa(n)) == Some(n)
  {
    var bytes := Itoa(n);
    if n >= 10 {
      DigitsItoa(n / 10);
      assert bytes[..|bytes| - 1] == Itoa(n / 10);
    } else {
      assert bytes[..|bytes| - 1] == [];
    }
  }

  lemma AtoiItoa(n: nat)
    requires n <= MAX_INT
    ensures Atoi(Itoa(n)) == Some(n)
  {
    DigitsItoa(n);
    assert Itoa(n)[0] in Itoa(n);
  }

  // ---- Base64url -----------------------------------------------------------------------------------

  function Symbol(x: Sextet): char {
    if x < 26 then ('A' as int + x) as char
    else if x < 52 then ('a' as int + (x - 26)) as char
    else if x < 62 then ('0' as int + (x - 52)) as char
    else if x == 62 then '-' else '_'
  }

  function Value(c: char): Option<Sextet> {
    if 'A' <= c <= 'Z' then Some(c as int - 'A' as int)
    else if 'a' <= c <= 'z' then Some(c as int - 'a' as int + 26)
    else if '0' <= c <= '9' then Some(c as int - '0' as int + 52)
    else if c == '-' then Some(62)
    else if c == '_' then Some(63)
    else None
  }

  /** Three bytes become four symbols; a final one or two bytes become two or three. */
  function Pack(bytes: seq<Byte>): seq<Sextet> {
    if bytes == [] then []
    else if |bytes| == 1 then [bytes[0] / 4, bytes[0] % 4 * 16]
    else if |bytes| == 2 then [bytes[0] / 4, bytes[0] % 4 * 16 + bytes[1] / 16, bytes[1] % 16 * 4]
    else
      [bytes[0] / 4, bytes[0] % 4 * 16 + bytes[1] / 16, bytes[1] % 16 * 4 + bytes[2] / 64, bytes[2] % 64]
      + Pack(bytes[3..])
  }

  function First(a: Sextet, b: Sextet): Byte { (a as int) * 4 + (b as int) / 16 }

  function Second(a: Sextet, b: Sextet): Byte { (a as int) % 16 * 16 + (b as int) / 4 }

  function Third(a: Sextet, b: Sextet): Byte { (a as int) % 4 * 64 + (b as int) }

  /** The unused low bits of the last symbol are ignored; a lone last symbol is an error. */
  function Unpack(x: seq<Sextet>): Option<seq<Byte>> {
    if x == [] then Some([])
    else if |x| == 1 then None
    else if |x| == 2 then Some([First(x[0], x[1])])
    else if |x| == 3 then Some([First(x[0], x[1]), Second(x[1], x[2])])
    else
      var rest := Unpack(x[4..]);
      if rest.None? then None
      else Some([First(x[0], x[1]), Second(x[1], x[2]), Third(x[2], x[3])] + rest.value)
  }

  function Write(x: seq<Sextet>): string {
    if x == [] then "" else [Symbol(x[0])] + Write(x[1..])
  }

  /** The decoder skips line breaks and stops at any other character outside the alphabet. */
  function Read(s: string): Option<seq<Sextet>> {
    if s == "" then Some([])
    else if s[0] == '\r' || s[0] == '\n' then Read(s[1..])
    else
      var x, rest := Value(s[0]), Read(s[1..]);
      if x.None? || rest.None? then None else Some([x.value] + rest.value)
  }

  lemma SymbolValue(x: Sextet)
    ensures Value(Symbol(x)) == Some(x) && !IsSpace(Symbol(x))
  {
  }

  lemma {:induction false} ReadWrite(x: seq<Sextet>)
    ensures Read(Write(x)) == Some(x)
    ensures x != [] ==> !AllSpace(Write(x))
  {
    if x != [] {
      SymbolValue(x[0]);
      ReadWrite(x[1..]);
      assert Write(x)[1..] == Write(x[1..]);
      assert !IsSpace(Write(x)[0]);
      assert x == [x[0]] + x[1..];
    }
  }

  lemma Joined(a: Byte, b: Byte, c: Byte)
    ensures First(a / 4, a % 4 * 16 + b / 16) == a
    ensures Second(a % 4 * 16 + b / 16, b % 16 * 4 + c / 64) == b
    ensures Third(b % 16 * 4 + c / 64, c % 64) == c
  {
  }

  lemma {:induction false} UnpackPack(bytes: seq<Byte>)
    ensures Unpack(Pack(bytes)) == Some(bytes)
    ensures bytes != [] ==> Pack(bytes) != []
  {
    hide First, Second, Third;
    if |bytes| == 1 {
      Joined(bytes[0], 0, 0);
      assert bytes == [bytes[0]];
    } else if |bytes| == 2 {
      Joined(bytes[0], bytes[1], 0);
      assert bytes == [bytes[0], bytes[1]];
    } else if |bytes| >= 3 {
      Joined(bytes[0], bytes[1], bytes[2]);
      UnpackPack(bytes[3..]);
      assert Pack(bytes)[4..] == Pack(bytes[3..]);
      assert bytes == [bytes[0], bytes[1], bytes[2]] + bytes[3..];
    }
  }

  /** The symbols, taken as the digits of a number. */
  function Number(x: seq<Sextet>): nat {
    if x == [] then 0 else 64 * Number(x[..|x| - 1]) + (x[|x| - 1] as int)
  }

  lemma NumberOfTwo(x: Sextet, y: Sextet)
    ensures Number([x, y]) == 64 * (x as int) + (y as int)
  {
    assert [x, y][..1] == [x] && [x][..0] == [];
    assert Number([x]) == x as int;
  }

  lemma NumberSnoc(x: seq<Sextet>, y: Sextet)
    ensures Number(x + [y]) == 64 * Number(x) + (y as int)
  {
    assert (x + [y])[..|x|] == x;
  }

  /** Packing cuts the bytes into groups of three, and a group becomes symbols of the same number. */
  lemma GroupsOfThree(a: Byte, b: Byte, c: Byte, rest: seq<Byte>)
    ensures var p := Pack([a, b, c] + rest);
      |p| >= 4 && Number(p[..4]) == 0x1_0000 * (a as int) + 0x100 * (b as int) + (c as int) && p[4..] == Pack(rest)
  {
    var bytes := [a, b, c] + rest;
    assert bytes[3..] == rest;
    var w, x, y, z := a / 4, a % 4 * 16 + b / 16, b % 16 * 4 + c / 64, c % 64;
    assert Pack(bytes) == [w, x, y, z] + Pack(rest);
    assert Pack(bytes)[..4] == [w, x] + [y] + [z];
    hide Number, Pack;
    NumberOfTwo(w, x);
    NumberSnoc([w, x], y);
    NumberSnoc([w, x] + [y], z);
  }

  /** What is left over is filled up with zero bits. */
  lemma LastGroup(a: Byte, b: Byte)
    ensures |Pack([a])| == 2 && Number(Pack([a])) == 0x10 * (a as int)
    ensures |Pack([a, b])| == 3 && Number(Pack([a, b])) == 4 * (0x100 * (a as int) + (b as int))
  {
    var x, y := a % 4 * 16 + b / 16, b % 16 * 4;
    assert Pack([a, b]) == [a / 4, x] + [y];
    hide Number;
    NumberOfTwo(a / 4, a % 4 * 16);
    NumberOfTwo(a / 4, x);
    NumberSnoc([a / 4, x], y);
  }

  /** The alphabet runs from 'A' to 'Z', from 'a' to 'z', from '0' to '9', and ends with '-' and '_'. */
  lemma AlphabetIsBase64Url(x: Sextet)
    ensures Symbol(0) == 'A' && Symbol(25) == 'Z' && Symbol(26) == 'a' && Symbol(51) == 'z'
    ensures Symbol(52) == '0' && Symbol(61) == '9' && Symbol(62) == '-' && Symbol(63) == '_'
    ensures x < 62 && x !in {25, 51, 61} ==> Symbol(x + 1) as int == Symbol(x) as int + 1
  {
  }

  lemma ItoaIsDecimal(n: nat, d: nat)
    requires d < 10
    ensures Itoa(d) == [48 + d] && (n > 0 ==> Itoa(10 * n + d) == Itoa(n) + [48 + d])
  {
    assert (10 * n + d) / 10 == n && (10 * n + d) % 10 == d;
  }

  // ---- Tokens --------------------------------------------------------------------------------------

  /** `unicode.IsSpace`, the characters `strings.TrimSpace` removes. */
  predicate IsSpace(c: char) {
    var x := c as int;
    || 9 <= x <= 13 || x == 32 || x == 0x85 || x == 0xa0 || x == 0x1680
    || 0x2000 <= x <= 0x200a || x == 0x2028 || x == 0x2029 || x == 0x202f || x == 0x205f || x == 0x3000
  }

  predicate AllSpace(s: string) {
    forall i :: 0 <= i < |s| ==> IsSpace(s[i])
  }

  function EncodePageToken(i: nat): string {
    Write(Pack(Itoa(i)))
  }

  /** Anything that is not a token written by `EncodePageToken` counts as a request for the first page. */
  function DecodePageToken(token: string): nat {
    if AllSpace(token) then 0
    else
      var symbols := Read(token);
      var raw := if symbols.None? then None else Unpack(symbols.value);
      var n := if raw.None? then None else Atoi(raw.value);
      if n.None? || n.value < 0 then 0 else n.value
  }

  lemma PageTokenRoundTrip(i: nat)
    requires i <= MAX_INT
    ensures EncodePageToken(i) != "" && DecodePageToken(EncodePageToken(i)) == i
  {
    UnpackPack(Itoa(i));
    ReadWrite(Pack(Itoa(i)));
    AtoiItoa(i);
  }
}
