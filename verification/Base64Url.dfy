/**
 Base64url without padding: the library's encoder (section 5 of RFC 4648) with its padding stripped,
 and the library's lenient decoder after the padding is put back.
*/
module Base64Url {
  import opened Wrappers

  type Byte = x: int | 0 <= x < 256

  type Sextet = x: int | 0 <= x < 64

  datatype Error = NotAscii | BadPadding

  function CharOf(v: Sextet): char {
    if v < 26 then (65 + v) as char
    else if v < 52 then (71 + v) as char
    else if v < 62 then (v - 4) as char
    else if v == 62 then '-'
    else '_'
  }

  /** The decoder accepts both alphabets: '-' and '_' are turned into '+' and '/' first. */
  function SextetOf(c: char): Option<Sextet> {
    if 'A' <= c <= 'Z' then Some(c as int - 65)
    else if 'a' <= c <= 'z' then Some(c as int - 71)
    else if '0' <= c <= '9' then Some(c as int + 4)
    else if c == '-' || c == '+' then Some(62)
    else if c == '_' || c == '/' then Some(63)
    else None
  }

  lemma CharRoundTrips(v: Sextet)
    ensures SextetOf(CharOf(v)) == Some(v)
    ensures CharOf(v) != '=' && CharOf(v) != '.' && CharOf(v) < 128 as char
  {
  }

  // ---- Encoding -----------------------------------------------------------------------------------

  /** base64.urlsafe_b64encode: three bytes make four characters, and the last group is padded. */
  function LibraryEncode(data: seq<Byte>): string {
    if data == [] then ""
    else if |data| == 1 then
      [CharOf(data[0] / 4), CharOf(data[0] % 4 * 16), '=', '=']
    else if |data| == 2 then
      [CharOf(data[0] / 4), CharOf(data[0] % 4 * 16 + data[1] / 16), CharOf(data[1] % 16 * 4), '=']
    else
      [CharOf(data[0] / 4), CharOf(data[0] % 4 * 16 + data[1] / 16),
       CharOf(data[1] % 16 * 4 + data[2] / 64), CharOf(data[2] % 64)] + LibraryEncode(data[3..])
  }

  /** rstrip("=") */
  function StripPadding(s: string): string {
    if s != "" && s[|s| - 1] == '=' then StripPadding(s[..|s| - 1]) else s
  }

  function Encode(data: seq<Byte>): string {
    StripPadding(LibraryEncode(data))
  }

  // ---- Decoding -----------------------------------------------------------------------------------

  /**
   base64.urlsafe_b64decode, character by character. Foreign characters are skipped; `left` holds
   the bits not yet written, `quad` the position in the group of four, `pads` the padding seen since
   the last data character. Padding that completes a group ends the text.
  */
  function Scan(s: string, quad: nat, left: nat, pads: nat, out: seq<Byte>): Result<seq<Byte>, Error>
    requires quad < 4
    requires quad == 0 ==> left == 0
    requires quad == 1 ==> left < 64
    requires quad == 2 ==> left < 16
    requires quad == 3 ==> left < 4
    decreases |s|
  {
    if s == "" then (if quad == 0 then Ok(out) else Err(BadPadding))
    else if s[0] == '=' then
      if quad >= 2 && quad + pads + 1 >= 4 then Ok(out)
      else Scan(s[1..], quad, left, if quad >= 2 then pads + 1 else pads, out)
    else
      match SextetOf(s[0])
      case None => Scan(s[1..], quad, left, pads, out)
      case Some(v) =>
        if quad == 0 then Scan(s[1..], 1, v, 0, out)
        else if quad == 1 then Scan(s[1..], 2, v % 16, 0, out + [left * 4 + v / 16])
        else if quad == 2 then Scan(s[1..], 3, v % 4, 0, out + [left * 16 + v / 4])
        else Scan(s[1..], 0, 0, 0, out + [left * 64 + v])
  }

  predicate IsAscii(s: string) {
    forall c :: c in s ==> c < 128 as char
  }

  function Repeat(n: nat): (r: string)
    ensures |r| == n && forall i :: 0 <= i < n ==> r[i] == '='
  {
    seq(n, _ => '=')
  }

  /** Tops the text up to a multiple of four. */
  function RestorePadding(s: string): string {
    var padding := 4 - |s| % 4;
    if padding != 4 then s + Repeat(padding) else s
  }

  function Decode(s: string): Result<seq<Byte>, Error> {
    if !IsAscii(s) then Err(NotAscii) else Scan(RestorePadding(s), 0, 0, 0, [])
  }

  // ---- The round trip -----------------------------------------------------------------------------

  /** The characters that carry data, without any padding. */
  function Body(data: seq<Byte>): string {
    if data == [] then ""
    else if |data| == 1 then [CharOf(data[0] / 4), CharOf(data[0] % 4 * 16)]
    else if |data| == 2 then
      [CharOf(data[0] / 4), CharOf(data[0] % 4 * 16 + data[1] / 16), CharOf(data[1] % 16 * 4)]
    else
      [CharOf(data[0] / 4), CharOf(data[0] % 4 * 16 + data[1] / 16),
       CharOf(data[1] % 16 * 4 + data[2] / 64), CharOf(data[2] % 64)] + Body(data[3..])
  }

  predicate DataChars(s: string) {
    forall i :: 0 <= i < |s| ==> SextetOf(s[i]).Some? && s[i] != '=' && s[i] != '.' && s[i] < 128 as char
  }

  /** How many padding characters a last group gets. */
  function PadsFor(n: nat): nat { (3 - n % 3) % 3 }

  lemma {:induction false} BodyChars(data: seq<Byte>)
    ensures DataChars(Body(data))
    ensures |Body(data)| == |data| / 3 * 4 + (if |data| % 3 == 0 then 0 else |data| % 3 + 1)
    decreases |data|
  {
    if |data| == 1 {
      CharRoundTrips(data[0] / 4);
      CharRoundTrips(data[0] % 4 * 16);
    } else if |data| == 2 {
      CharRoundTrips(data[0] / 4);
      CharRoundTrips(data[0] % 4 * 16 + data[1] / 16);
      CharRoundTrips(data[1] % 16 * 4);
    } else if |data| > 2 {
      CharRoundTrips(data[0] / 4);
      CharRoundTrips(data[0] % 4 * 16 + data[1] / 16);
      CharRoundTrips(data[1] % 16 * 4 + data[2] / 64);
      CharRoundTrips(data[2] % 64);
      BodyChars(data[3..]);
    }
  }

  lemma Paddings()
    ensures Repeat(0) == [] && Repeat(1) == ['='] && Repeat(2) == ['=', '=']
  {
  }

  lemma PaddedOne(data: seq<Byte>)
    requires |data| == 1
    ensures LibraryEncode(data) == Body(data) + Repeat(2)
  {
    Paddings();
    assert LibraryEncode(data) == Body(data) + ['=', '='];
  }

  lemma PaddedTwo(data: seq<Byte>)
    requires |data| == 2
    ensures LibraryEncode(data) == Body(data) + Repeat(1)
  {
    Paddings();
    assert LibraryEncode(data) == Body(data) + ['='];
  }

  lemma PaddedTail(data: seq<Byte>)
    requires |data| < 3
    ensures LibraryEncode(data) == Body(data) + Repeat(PadsFor(|data|))
  {
    if data == [] {
      assert PadsFor(0) == 0;
      assert Body(data) + Repeat(0) == LibraryEncode(data);
    } else if |data| == 1 {
      assert PadsFor(1) == 2;
      PaddedOne(data);
    } else {
      assert PadsFor(2) == 1;
      PaddedTwo(data);
    }
  }

  lemma {:induction false} EncodeIsPaddedBody(data: seq<Byte>)
    ensures LibraryEncode(data) == Body(data) + Repeat(PadsFor(|data|))
    decreases |data|
  {
    if |data| < 3 {
      PaddedTail(data);
    } else {
      var rest, pad := data[3..], Repeat(PadsFor(|data|));
      EncodeIsPaddedBody(rest);
      PadsForGroup(|rest|);
      GroupFirst(data);
      var group := [CharOf(data[0] / 4), CharOf(data[0] % 4 * 16 + data[1] / 16),
                    CharOf(data[1] % 16 * 4 + data[2] / 64), CharOf(data[2] % 64)];
      assert group + (Body(rest) + pad) == group + Body(rest) + pad;
    }
  }

  lemma PadsForGroup(n: nat)
    ensures PadsFor(n + 3) == PadsFor(n)
  {
  }

  lemma GroupFirst(data: seq<Byte>)
    requires |data| >= 3
    ensures var group := [CharOf(data[0] / 4), CharOf(data[0] % 4 * 16 + data[1] / 16),
                          CharOf(data[1] % 16 * 4 + data[2] / 64), CharOf(data[2] % 64)];
            LibraryEncode(data) == group + LibraryEncode(data[3..]) && Body(data) == group + Body(data[3..])
  {
  }

  lemma {:induction false} StripRemovesPadding(body: string, n: nat)
    requires body != "" ==> body[|body| - 1] != '='
    ensures StripPadding(body + Repeat(n)) == body
    decreases n
  {
    if n == 0 {
      assert body + Repeat(0) == body;
    } else {
      assert (body + Repeat(n))[..|body + Repeat(n)| - 1] == body + Repeat(n - 1);
      StripRemovesPadding(body, n - 1);
    }
  }

  lemma PaddingArithmetic(n: nat, len: nat)
    requires len == n / 3 * 4 + (if n % 3 == 0 then 0 else n % 3 + 1)
    ensures len % 4 != 1
    ensures PadsFor(n) == if len % 4 == 0 then 0 else 4 - len % 4
  {
    var k := n / 3;
    assert len == 4 * k + (if n % 3 == 0 then 0 else n % 3 + 1);
  }

  /**
   What is sent is the data characters alone; its length is never 1 modulo 4, and the decoder
   restores the padding.
   */
  lemma EncodedShape(data: seq<Byte>)
    ensures Encode(data) == Body(data)
    ensures DataChars(Encode(data)) && |Encode(data)| % 4 != 1
    ensures RestorePadding(Encode(data)) == LibraryEncode(data)
  {
    var body := Body(data);
    BodyChars(data);
    EncodeIsPaddedBody(data);
    StripRemovesPadding(body, PadsFor(|data|));
    PaddingArithmetic(|data|, |body|);
    if PadsFor(|data|) == 0 {
      assert body + Repeat(0) == body;
    }
  }

  /** One full group is read back. */
  lemma ScanGroup(a: Byte, b: Byte, c: Byte, rest: string, out: seq<Byte>)
    ensures var group := [CharOf(a / 4), CharOf(a % 4 * 16 + b / 16), CharOf(b % 16 * 4 + c / 64), CharOf(c % 64)];
            Scan(group + rest, 0, 0, 0, out) ==
            Scan(rest, 0, 0, 0, out + [a] + [b] + [c])
  {
    var s := [CharOf(a / 4), CharOf(a % 4 * 16 + b / 16), CharOf(b % 16 * 4 + c / 64), CharOf(c % 64)] + rest;
    CharRoundTrips(a / 4);
    CharRoundTrips(a % 4 * 16 + b / 16);
    CharRoundTrips(b % 16 * 4 + c / 64);
    CharRoundTrips(c % 64);
    assert a / 4 * 4 + (a % 4 * 16 + b / 16) / 16 == a;
    assert (a % 4 * 16 + b / 16) % 16 * 16 + (b % 16 * 4 + c / 64) / 4 == b;
    assert (b % 16 * 4 + c / 64) % 4 * 64 + c % 64 == c;
    assert s[1..][1..] == s[2..] && s[2..][1..] == s[3..] && s[3..][1..] == rest;
    assert s[1..][0] == CharOf(a % 4 * 16 + b / 16) && s[2..][0] == CharOf(b % 16 * 4 + c / 64)
        && s[3..][0] == CharOf(c % 64);
    assert Scan(s, 0, 0, 0, out) == Scan(s[1..], 1, a / 4, 0, out);
    assert Scan(s[1..], 1, a / 4, 0, out) == Scan(s[2..], 2, b / 16, 0, out + [a]);
    assert Scan(s[2..], 2, b / 16, 0, out + [a]) == Scan(s[3..], 3, c / 64, 0, out + [a] + [b]);
  }

  lemma ScanLastOne(a: Byte, out: seq<Byte>)
    ensures Scan([CharOf(a / 4), CharOf(a % 4 * 16), '=', '='], 0, 0, 0, out) == Ok(out + [a])
  {
    var s := [CharOf(a / 4), CharOf(a % 4 * 16), '=', '='];
    CharRoundTrips(a / 4);
    CharRoundTrips(a % 4 * 16);
    assert Scan(s, 0, 0, 0, out) == Scan(s[1..], 1, a / 4, 0, out);
    assert a / 4 * 4 + a % 4 * 16 / 16 == a;
    assert s[1..][1..] == ['=', '='];
    assert Scan(s[1..], 1, a / 4, 0, out) == Scan(['=', '='], 2, 0, 0, out + [a]);
    assert ['=', '='][1..] == ['='];
    assert Scan(['=', '='], 2, 0, 0, out + [a]) == Scan(['='], 2, 0, 1, out + [a]);
  }

  lemma ScanLastTwo(a: Byte, b: Byte, out: seq<Byte>)
    ensures Scan([CharOf(a / 4), CharOf(a % 4 * 16 + b / 16), CharOf(b % 16 * 4), '='], 0, 0, 0, out) ==
        Ok(out + [a] + [b])
  {
    var s := [CharOf(a / 4), CharOf(a % 4 * 16 + b / 16), CharOf(b % 16 * 4), '='];
    CharRoundTrips(a / 4);
    CharRoundTrips(a % 4 * 16 + b / 16);
    CharRoundTrips(b % 16 * 4);
    assert a / 4 * 4 + (a % 4 * 16 + b / 16) / 16 == a;
    assert (a % 4 * 16 + b / 16) % 16 * 16 + b % 16 * 4 / 4 == b;
    assert s[1..][1..] == s[2..] && s[2..][1..] == ['='];
    assert Scan(s, 0, 0, 0, out) == Scan(s[1..], 1, a / 4, 0, out);
    assert Scan(s[1..], 1, a / 4, 0, out) == Scan(s[2..], 2, b / 16, 0, out + [a]);
    assert Scan(s[2..], 2, b / 16, 0, out + [a]) == Scan(['='], 3, 0, 0, out + [a] + [b]);
  }

  lemma {:induction false} ScanReadsBack(data: seq<Byte>, out: seq<Byte>)
    ensures Scan(LibraryEncode(data), 0, 0, 0, out) == Ok(out + data)
    decreases |data|
  {
    if data == [] {
      assert out + data == out;
    } else if |data| == 1 {
      ScanLastOne(data[0], out);
      assert out + data == out + [data[0]];
    } else if |data| == 2 {
      ScanLastTwo(data[0], data[1], out);
      assert out + data == out + [data[0]] + [data[1]];
    } else {
      var next := out + [data[0]] + [data[1]] + [data[2]];
      ScanGroup(data[0], data[1], data[2], LibraryEncode(data[3..]), out);
      ScanReadsBack(data[3..], next);
      assert out + data == next + data[3..];
    }
  }

  /** Every byte string comes back. */
  lemma DecodeEncode(data: seq<Byte>)
    ensures Decode(Encode(data)) == Ok(data)
  {
    EncodedShape(data);
    ScanReadsBack(data, []);
    assert [] + data == data;
  }

  // ---- The characters themselves ------------------------------------------------------------------

  /** The url-safe alphabet of table 2 in section 5 of RFC 4648. */
  predicate InUrlAlphabet(c: char) {
    'A' <= c <= 'Z' || 'a' <= c <= 'z' || '0' <= c <= '9' || c == '-' || c == '_'
  }

  /** A character's value in that table. */
  function ValueOf(c: char): int
    requires InUrlAlphabet(c)
  {
    if 'A' <= c <= 'Z' then c as int - 'A' as int
    else if 'a' <= c <= 'z' then 26 + (c as int - 'a' as int)
    else if '0' <= c <= '9' then 52 + (c as int - '0' as int)
    else if c == '-' then 62
    else 63
  }

  lemma CharIsInTable(v: Sextet)
    ensures InUrlAlphabet(CharOf(v)) && ValueOf(CharOf(v)) == v
  {
  }

  /** The byte at place i, and zero bits behind the end. */
  function ByteOrZero(data: seq<Byte>, i: nat): Byte { if i < |data| then data[i] else 0 }

  /** The i-th character stands for the i-th group of six bits, from the most significant on. */
  function SextetAt(data: seq<Byte>, i: nat): int {
    var word := ByteOrZero(data, i / 4 * 3) * 65536 + ByteOrZero(data, i / 4 * 3 + 1) * 256 +
        ByteOrZero(data, i / 4 * 3 + 2);
    if i % 4 == 0 then word / 262144
    else if i % 4 == 1 then word / 4096 % 64
    else if i % 4 == 2 then word / 64 % 64
    else word % 64
  }

  lemma HighSextets(a: Byte, b: Byte, c: Byte)
    ensures (a * 65536 + b * 256 + c) / 262144 == a / 4
    ensures (a * 65536 + b * 256 + c) / 4096 % 64 == a % 4 * 16 + b / 16
  {
    var word := a * 65536 + b * 256 + c;
    var a1, a2, b1, b2 := a / 4, a % 4, b / 16, b % 16;
    assert a == 4 * a1 + a2 && b == 16 * b1 + b2;
    assert word == 262144 * a1 + (65536 * a2 + 4096 * b1 + 256 * b2 + c);
    assert word == 4096 * (64 * a1 + (16 * a2 + b1)) + (256 * b2 + c);
    assert word / 4096 == 64 * a1 + (16 * a2 + b1);
  }

  lemma LowSextets(a: Byte, b: Byte, c: Byte)
    ensures (a * 65536 + b * 256 + c) / 64 % 64 == b % 16 * 4 + c / 64
    ensures (a * 65536 + b * 256 + c) % 64 == c % 64
  {
    var b1, b2, c1, c2 := b / 16, b % 16, c / 64, c % 64;
    var high, third := 16 * a + b1, 4 * b2 + c1;
    assert b == 16 * b1 + b2 && c == 64 * c1 + c2;
    assert a * 65536 + b * 256 + c == 64 * (64 * high + third) + c2;
    Digits(64 * high + third, c2);
    Digits(high, third);
  }

  lemma Digits(high: nat, low: Sextet)
    ensures (64 * high + low) / 64 == high && (64 * high + low) % 64 == low
  {
  }

  function SextetOfGroup(a: Byte, b: Byte, c: Byte, i: nat): Sextet {
    if i == 0 then a / 4
    else if i == 1 then a % 4 * 16 + b / 16
    else if i == 2 then b % 16 * 4 + c / 64
    else c % 64
  }

  lemma BodyHead(data: seq<Byte>, i: nat)
    requires i < 4 && i < |Body(data)|
    ensures var a, b, c := ByteOrZero(data, 0), ByteOrZero(data, 1), ByteOrZero(data, 2);
            Body(data)[i] == CharOf(SextetOfGroup(a, b, c, i))
  {
  }

  lemma HeadSextets(data: seq<Byte>, i: nat)
    requires i < 4 && i < |Body(data)|
    ensures InUrlAlphabet(Body(data)[i]) && ValueOf(Body(data)[i]) == SextetAt(data, i)
  {
    var a, b, c := ByteOrZero(data, 0), ByteOrZero(data, 1), ByteOrZero(data, 2);
    BodyHead(data, i);
    HighSextets(a, b, c);
    LowSextets(a, b, c);
    var v := SextetOfGroup(a, b, c, i);
    CharIsInTable(v);
    assert Body(data)[i] == CharOf(v);
  }

  lemma BodyTail(data: seq<Byte>, i: nat)
    requires 4 <= i < |Body(data)|
    ensures |data| >= 3 && i - 4 < |Body(data[3..])| && Body(data)[i] == Body(data[3..])[i - 4]
  {
  }

  lemma SextetsShift(data: seq<Byte>, i: nat)
    requires |data| >= 3 && i >= 4
    ensures SextetAt(data, i) == SextetAt(data[3..], i - 4)
  {
    var j := (i - 4) / 4 * 3;
    assert i / 4 * 3 == j + 3 && i % 4 == (i - 4) % 4;
    assert ByteOrZero(data, j + 3) == ByteOrZero(data[3..], j);
    assert ByteOrZero(data, j + 4) == ByteOrZero(data[3..], j + 1);
    assert ByteOrZero(data, j + 5) == ByteOrZero(data[3..], j + 2);
  }

  lemma {:induction false} BodySextets(data: seq<Byte>, i: nat)
    requires i < |Body(data)|
    ensures InUrlAlphabet(Body(data)[i]) && ValueOf(Body(data)[i]) == SextetAt(data, i)
    decreases |data|
  {
    if i < 4 {
      HeadSextets(data, i);
    } else {
      BodyTail(data, i);
      SextetsShift(data, i);
      BodySextets(data[3..], i - 4);
    }
  }

  /**
   The encoding itself, not only that it can be undone: as many characters as the bits need, each from
   the url-safe alphabet and each the value of its six bits.
  */
  lemma EncodedCharacters(data: seq<Byte>)
    ensures |Encode(data)| == (4 * |data| + 2) / 3
    ensures forall i :: 0 <= i < |Encode(data)| ==>
              InUrlAlphabet(Encode(data)[i]) && ValueOf(Encode(data)[i]) == SextetAt(data, i)
  {
    EncodedShape(data);
    BodyChars(data);
    forall i | 0 <= i < |Encode(data)|
      ensures InUrlAlphabet(Encode(data)[i]) && ValueOf(Encode(data)[i]) == SextetAt(data, i)
    {
      BodySextets(data, i);
    }
  }
}
