/** Standard base64 with padding, section 4 of RFC 4648, over strings of byte-sized characters. */
module Base64 {
  import opened Decimal
  import opened Options

  type ByteString = s: string | forall c | c in s :: c as int < 256

  function SextetChar(v: nat): (c: char)
    requires v < 64
    ensures c != '=' && SextetValue(c) == Some(v)
  {
    if v < 26 then ('A' as int + v) as char
    else if v < 52 then ('a' as int + v - 26) as char
    else if v < 62 then ('0' as int + v - 52) as char
    else if v == 62 then '+' else '/'
  }

  function SextetValue(c: char): (v: Option<nat>)
    ensures v.Some? ==> v.value < 64
  {
    if 'A' <= c <= 'Z' then Some(c as int - 'A' as int)
    else if 'a' <= c <= 'z' then Some(c as int - 'a' as int + 26)
    else if '0' <= c <= '9' then Some(c as int - '0' as int + 52)
    else if c == '+' then Some(62)
    else if c == '/' then Some(63)
    else None
  }

  /** One to three bytes as a quantum of four characters. */
  function EncodeQuantum(s: ByteString): (q: string)
    requires 1 <= |s| <= 3
    ensures |q| == 4
  {
    var a, b, c := s[0] as int, if |s| > 1 then s[1] as int else 0, if |s| > 2 then s[2] as int else 0;
    [SextetChar(a / 4), SextetChar(a % 4 * 16 + b / 16),
     if |s| > 1 then SextetChar(b % 16 * 4 + c / 64) else '=',
     if |s| > 2 then SextetChar(c % 64) else '=']
  }

  function Encode(s: ByteString): string {
    if |s| == 0 then "" else if |s| <= 3 then EncodeQuantum(s) else EncodeQuantum(s[..3]) + Encode(s[3..])
  }

  /** Padding is accepted only in the last quantum; unused trailing bits are ignored, as `StdEncoding` does. */
  function DecodeQuantum(q: string, last: bool): (r: Option<ByteString>)
    requires |q| == 4
  {
    match (SextetValue(q[0]), SextetValue(q[1]), SextetValue(q[2]), SextetValue(q[3]))
    case (Some(x), Some(y), Some(z), Some(w)) =>
      Some([(x * 4 + y / 16) as char, (y % 16 * 16 + z / 4) as char, (z % 4 * 64 + w) as char])
    case (Some(x), Some(y), Some(z), None) =>
      if last && q[3] == '=' then Some([(x * 4 + y / 16) as char, (y % 16 * 16 + z / 4) as char]) else None
    case (Some(x), Some(y), None, None) =>
      if last && q[2] == '=' && q[3] == '=' then Some([(x * 4 + y / 16) as char]) else None
    case _ => None
  }

  function Decode(s: string): (r: Option<ByteString>) {
    if |s| == 0 then Some("") else if |s| < 4 then None else
    match (DecodeQuantum(s[..4], |s| == 4), Decode(s[4..]))
    case (Some(h), Some(t)) => Some(h + t)
    case _ => None
  }

  lemma Packed(high: nat, low: nat)
    ensures low < 16 ==> (high * 16 + low) / 16 == high && (high * 16 + low) % 16 == low
    ensures low < 4 ==> (high * 4 + low) / 4 == high && (high * 4 + low) % 4 == low
  {
  }

  /** The six-bit pieces of three bytes, and the bytes put together again. */
  lemma Sextets(a: nat, b: nat, c: nat)
    requires a < 256 && b < 256 && c < 256
    ensures a / 4 < 64 && a % 4 * 16 + b / 16 < 64 && b % 16 * 4 + c / 64 < 64
    ensures a / 4 * 4 + (a % 4 * 16 + b / 16) / 16 == a
    ensures (a % 4 * 16 + b / 16) % 16 * 16 + (b % 16 * 4 + c / 64) / 4 == b
    ensures (b % 16 * 4 + c / 64) % 4 * 64 + c % 64 == c
  {
    Packed(a % 4, b / 16);
    Packed(b % 16, c / 64);
  }

  /** The values of the characters of a quantum, which make up its bytes; padding has none. */
  lemma QuantumValues(s: ByteString) returns (x: nat, y: nat, z: nat, w: nat)
    requires 1 <= |s| <= 3
    ensures x < 64 && y < 64 && z < 64 && w < 64
    ensures var q := EncodeQuantum(s);
            && SextetValue(q[0]) == Some(x) && SextetValue(q[1]) == Some(y)
            && (if |s| > 1 then SextetValue(q[2]) == Some(z) else q[2] == '=')
            && (if |s| > 2 then SextetValue(q[3]) == Some(w) else q[3] == '=')
    ensures x * 4 + y / 16 == s[0] as int
    ensures y % 16 * 16 + z / 4 == if |s| > 1 then s[1] as int else 0
    ensures z % 4 * 64 + w == if |s| > 2 then s[2] as int else 0
  {
    var a, b, c := s[0] as int, if |s| > 1 then s[1] as int else 0, if |s| > 2 then s[2] as int else 0;
    Sextets(a, b, c);
    x, y, z, w := a / 4, a % 4 * 16 + b / 16, b % 16 * 4 + c / 64, c % 64;
  }

  /** What a quantum decodes to, by the values of its characters. */
  lemma DecodedQuantum(q: string, last: bool, x: nat, y: nat, z: nat, w: nat)
    requires |q| == 4 && x < 64 && y < 64 && z < 64 && w < 64 && SextetValue(q[0]) == Some(x)
             && SextetValue(q[1]) == Some(y)
    ensures last && q[2] == q[3] == '=' ==> DecodeQuantum(q, last) == Some([(x * 4 + y / 16) as char])
    ensures last && SextetValue(q[2]) == Some(z) && q[3] == '=' ==>
              DecodeQuantum(q, last) == Some([(x * 4 + y / 16) as char, (y % 16 * 16 + z / 4) as char])
    ensures SextetValue(q[2]) == Some(z) && SextetValue(q[3]) == Some(w) ==>
              DecodeQuantum(q, last) == Some([(x * 4 + y / 16) as char, (y % 16 * 16 + z / 4) as char,
                                              (z % 4 * 64 + w) as char])
  {
    assert SextetValue('=') == None;
    hide SextetValue;
  }

  lemma QuantumRoundTrip(s: ByteString, last: bool)
    requires 1 <= |s| <= 3 && (last || |s| == 3)
    ensures DecodeQuantum(EncodeQuantum(s), last) == Some(s)
  {
    hide *;
    var x, y, z, w := QuantumValues(s);
    DecodedQuantum(EncodeQuantum(s), last, x, y, z, w);
    if |s| == 1 {
      assert s == [(x * 4 + y / 16) as char];
    } else if |s| == 2 {
      assert s == [(x * 4 + y / 16) as char, (y % 16 * 16 + z / 4) as char];
    } else {
      assert s == [(x * 4 + y / 16) as char, (y % 16 * 16 + z / 4) as char, (z % 4 * 64 + w) as char];
    }
  }

  lemma DecodeStep(q: string, t: string)
    requires |q| == 4
    ensures Decode(q + t) == match (DecodeQuantum(q, t == ""), Decode(t))
                             case (Some(h), Some(r)) => Some(h + r)
                             case _ => None
  {
    assert (q + t)[..4] == q && (q + t)[4..] == t;
  }

  /** Decoding undoes encoding. */
  lemma {:induction false} RoundTrip(s: ByteString)
    ensures Decode(Encode(s)) == Some(s)
  {
    if |s| == 0 {
    } else if |s| <= 3 {
      QuantumRoundTrip(s, true);
      DecodeStep(EncodeQuantum(s), "");
      assert EncodeQuantum(s) + "" == EncodeQuantum(s) && s + "" == s;
    } else {
      RoundTrip(s[3..]);
      QuantumRoundTrip(s[..3], false);
      DecodeStep(EncodeQuantum(s[..3]), Encode(s[3..]));
      assert s[..3] + s[3..] == s;
    }
  }

  /** Table 1 of RFC 4648. */
  const ALPHABET := "ABCDEFGHIJKLMNOPQRSTUVWXYZ" + "abcdefghijklmnopqrstuvwxyz" + "0123456789" + "+/"

  /** The characters are those of the table, by their place in it. */
  lemma CharIsInTable(v: nat)
    requires v < 64
    ensures SextetChar(v) == ALPHABET[v]
  {
    assert v < 26 ==> ALPHABET[v] == "ABCDEFGHIJKLMNOPQRSTUVWXYZ"[v];
    assert 26 <= v < 52 ==> ALPHABET[v] == "abcdefghijklmnopqrstuvwxyz"[v - 26];
    assert 52 <= v < 62 ==> ALPHABET[v] == "0123456789"[v - 52];
    assert 62 <= v ==> ALPHABET[v] == "+/"[v - 62];
  }

  lemma CharOfValue(c: char, v: nat)
    requires SextetValue(c) == Some(v)
    ensures v < 64 && SextetChar(v) == c
  {
  }

  /** And a character has the value of its place. */
  lemma ValueIff(c: char, v: nat)
    ensures SextetValue(c) == Some(v) <==> v < 64 && ALPHABET[v] == c
  {
    hide SextetValue, SextetChar;
    if v < 64 {
      CharIsInTable(v);
    }
    if SextetValue(c) == Some(v) {
      CharOfValue(c, v);
    }
  }

  /** A quantum is the number of its bytes in base 256, written in base 64 with the characters of the table. */
  lemma QuantumIsNumber(s: ByteString) returns (x: nat, y: nat, z: nat, w: nat)
    requires 1 <= |s| <= 3
    ensures x < 64 && y < 64 && z < 64 && w < 64
    ensures var q := EncodeQuantum(s);
            && q[0] == ALPHABET[x] && q[1] == ALPHABET[y]
            && (if |s| > 1 then q[2] == ALPHABET[z] else q[2] == '=' && z == 0)
            && (if |s| > 2 then q[3] == ALPHABET[w] else q[3] == '=' && w == 0)
    ensures var a, b, c := s[0] as int, if |s| > 1 then s[1] as int else 0, if |s| > 2 then s[2] as int else 0;
            ((x * 64 + y) * 64 + z) * 64 + w == (a * 256 + b) * 256 + c
  {
    hide EncodeQuantum, SextetValue;
    x, y, z, w := QuantumValues(s);
    Regrouped(x, y, z, w);
    ValueIff(EncodeQuantum(s)[0], x);
    ValueIff(EncodeQuantum(s)[1], y);
    if |s| > 1 { ValueIff(EncodeQuantum(s)[2], z); }
    if |s| > 2 { ValueIff(EncodeQuantum(s)[3], w); }
  }

  /** The `i`th quantum of a text. */
  function QuantumOf(s: string, i: nat): (q: string)
    requires 4 * i + 4 <= |s|
    ensures |q| == 4 && forall k | 0 <= k < 4 :: q[k] == s[4 * i + k]
  {
    s[4 * i..4 * i + 4]
  }

  /** The bytes that it stands for, three or those that are left. */
  function Piece(s: ByteString, i: nat): (p: ByteString)
    requires 3 * i < |s|
    ensures |p| == (if 3 * i + 3 <= |s| then 3 else |s| - 3 * i) && forall k | 0 <= k < |p| :: p[k] == s[3 * i + k]
  {
    s[3 * i..if 3 * i + 3 <= |s| then 3 * i + 3 else |s|]
  }

  /** The quanta come one after the other, one for every three bytes. */
  lemma {:induction false} QuantumAt(s: ByteString, i: nat)
    requires 3 * i < |s|
    ensures |Encode(s)| == (|s| + 2) / 3 * 4 && QuantumOf(Encode(s), i) == EncodeQuantum(Piece(s, i))
  {
    hide EncodeQuantum;
    if |s| <= 3 {
      hide Piece, QuantumOf;
      assert Piece(s, 0) == s && QuantumOf(Encode(s), 0) == Encode(s);
    } else {
      var head, rest := EncodeQuantum(s[..3]), s[3..];
      QuantumAt(rest, if i == 0 then 0 else i - 1);
      assert Encode(s) == head + Encode(rest);
      hide Encode, Piece, QuantumOf;
      if i == 0 {
        assert Piece(s, 0) == s[..3];
        assert QuantumOf(Encode(s), 0) == head;
      } else {
        assert Piece(rest, i - 1) == Piece(s, i);
        assert QuantumOf(Encode(s), i) == QuantumOf(Encode(rest), i - 1);
      }
    }
  }

  /**
   * What is decoded: quanta of four characters of the table, of which only the last may end in one
   * or two characters of padding. Its number is that of the bytes; the bits that are left over
   * before the padding are dropped.
   */
  lemma DecodeQuantumIff(q: string, last: bool, r: string)
    requires |q| == 4
    ensures DecodeQuantum(q, last) == Some(r) <==>
              match (SextetValue(q[0]), SextetValue(q[1]), SextetValue(q[2]), SextetValue(q[3]))
              case (Some(x), Some(y), Some(z), Some(w)) =>
                |r| == 3 && (forall c | c in r :: c as int < 256)
                && (r[0] as int * 256 + r[1] as int) * 256 + r[2] as int == ((x * 64 + y) * 64 + z) * 64 + w
              case (Some(x), Some(y), Some(z), None) =>
                last && q[3] == '=' && |r| == 2 && (forall c | c in r :: c as int < 256)
                && r[0] as int * 256 + r[1] as int == ((x * 64 + y) * 64 + z) / 4
              case (Some(x), Some(y), None, None) =>
                last && q[2] == q[3] == '=' && |r| == 1 && r[0] as int == (x * 64 + y) / 16
              case _ => false
  {
    hide SextetValue;
    match (SextetValue(q[0]), SextetValue(q[1]), SextetValue(q[2]), SextetValue(q[3]))
    case (Some(x), Some(y), Some(z), Some(w)) =>
      Regrouped(x, y, z, w);
      BytesAreNumber(r, x * 4 + y / 16, y % 16 * 16 + z / 4, z % 4 * 64 + w);
    case (Some(x), Some(y), Some(z), None) =>
      Regrouped(x, y, z, 0);
      BytesAreNumber(r, x * 4 + y / 16, y % 16 * 16 + z / 4, 0);
    case (Some(x), Some(y), None, None) =>
      Regrouped(x, y, 0, 0);
      BytesAreNumber(r, x * 4 + y / 16, 0, 0);
    case _ =>
  }

  lemma Regrouped(x: nat, y: nat, z: nat, w: nat)
    requires x < 64 && y < 64 && z < 64 && w < 64
    ensures var a, b, c := x * 4 + y / 16, y % 16 * 16 + z / 4, z % 4 * 64 + w;
            && a < 256 && b < 256 && c < 256
            && (a * 256 + b) * 256 + c == ((x * 64 + y) * 64 + z) * 64 + w
            && a * 256 + b == ((x * 64 + y) * 64 + z) / 4 && a == (x * 64 + y) / 16
  {
  }

  /** Bytes are determined by the number that they make up. */
  lemma BytesAreNumber(r: string, a: nat, b: nat, c: nat)
    requires a < 256 && b < 256 && c < 256
    ensures r == [a as char] <==> |r| == 1 && r[0] as int == a
    ensures r == [a as char, b as char] <==>
              |r| == 2 && (forall d | d in r :: d as int < 256) && r[0] as int * 256 + r[1] as int == a * 256 + b
    ensures r == [a as char, b as char, c as char] <==>
              && |r| == 3 && (forall d | d in r :: d as int < 256)
              && (r[0] as int * 256 + r[1] as int) * 256 + r[2] as int == (a * 256 + b) * 256 + c
  {
    if |r| == 2 && forall d | d in r :: d as int < 256 {
      assert r[0] in r && r[1] in r && r == [r[0], r[1]];
    }
    if |r| == 3 && forall d | d in r :: d as int < 256 {
      assert r[0] in r && r[1] in r && r[2] in r && r == [r[0], r[1], r[2]];
    }
  }

  /** All quanta can be decoded, padding in the last one only. */
  predicate Decodable(s: string) {
    |s| % 4 == 0 && forall i | 0 <= i < |s| / 4 :: DecodeQuantum(QuantumOf(s, i), i == |s| / 4 - 1).Some?
  }

  /** The quanta behind the first. */
  lemma QuantaAfter(s: string, i: nat)
    requires |s| >= 4 && 4 * i + 4 <= |s| - 4
    ensures QuantumOf(s[4..], i) == QuantumOf(s, i + 1)
  {
  }

  lemma DecodableStep(s: string)
    requires |s| >= 4
    ensures Decodable(s) <==> DecodeQuantum(s[..4], |s| == 4).Some? && Decodable(s[4..])
  {
    hide DecodeQuantum, QuantumOf;
    var n := |s| / 4;
    assert QuantumOf(s, 0) == s[..4];
    if |s| % 4 == 0 {
      forall i | 0 <= i < n - 1
        ensures DecodeQuantum(QuantumOf(s[4..], i), i == n - 2) == DecodeQuantum(QuantumOf(s, i + 1), i + 1 == n - 1)
      {
        QuantaAfter(s, i);
      }
      if DecodeQuantum(s[..4], |s| == 4).Some? && Decodable(s[4..]) {
        forall i | 0 <= i < n ensures DecodeQuantum(QuantumOf(s, i), i == n - 1).Some? {
          if i > 0 { assert DecodeQuantum(QuantumOf(s[4..], i - 1), i - 1 == n - 2).Some?; }
        }
      }
      if Decodable(s) {
        forall i | 0 <= i < n - 1 ensures DecodeQuantum(QuantumOf(s[4..], i), i == n - 2).Some? {
          assert DecodeQuantum(QuantumOf(s, i + 1), i + 1 == n - 1).Some?;
        }
        assert DecodeQuantum(QuantumOf(s, 0), 0 == n - 1).Some?;
      }
    }
  }

  /** What the `i`th quantum gives is the part of `v` from `3 * i` on, up to three bytes. */
  predicate GivesPart(s: string, v: string, i: nat)
    requires 4 * i + 4 <= |s|
  {
    var last := i == |s| / 4 - 1;
    var end := if last then |v| else 3 * i + 3;
    3 * i <= end <= |v| && DecodeQuantum(QuantumOf(s, i), last) == Some(v[3 * i..end])
  }

  /** A text is decoded exactly if all its quanta are, and to what they give one after the other. */
  lemma {:induction false} DecodeIff(s: string)
    ensures Decode(s).Some? <==> Decodable(s)
    ensures Decode(s).Some? ==> forall i | 0 <= i < |s| / 4 :: GivesPart(s, Decode(s).value, i)
  {
    if |s| >= 4 {
      DecodeIff(s[4..]);
      DecodableStep(s);
      if Decode(s).Some? {
        QuantumLength(s[..4], |s| == 4);
        forall i | 0 <= i < |s| / 4 ensures GivesPart(s, Decode(s).value, i) {
          PartStep(s, Decode(s).value, i);
        }
      }
    }
  }

  lemma QuantumLength(q: string, last: bool)
    requires |q| == 4 && DecodeQuantum(q, last).Some?
    ensures 1 <= |DecodeQuantum(q, last).value| <= 3 && (!last ==> |DecodeQuantum(q, last).value| == 3)
  {
  }

  lemma DecodeSplit(s: string) returns (head: string, tail: string)
    requires |s| >= 4 && Decode(s).Some?
    ensures DecodeQuantum(s[..4], |s| == 4) == Some(head) && Decode(s[4..]) == Some(tail)
    ensures Decode(s) == Some(head + tail) && (|s| == 4 ==> tail == "")
  {
    hide DecodeQuantum;
    head, tail := DecodeQuantum(s[..4], |s| == 4).value, Decode(s[4..]).value;
  }

  lemma PartStep(s: string, v: string, i: nat)
    requires |s| >= 4 && |s| % 4 == 0 && i < |s| / 4 && Decode(s) == Some(v)
    requires forall j | 0 <= j < |s[4..]| / 4 :: GivesPart(s[4..], Decode(s[4..]).value, j)
    ensures GivesPart(s, v, i)
  {
    hide *;
    var head, tail := DecodeSplit(s);
    QuantumLength(s[..4], |s| == 4);
    if i == 0 {
      FirstPart(s, head, tail);
    } else {
      LaterPart(s, head, tail, i - 1);
    }
  }

  lemma FirstPart(s: string, head: string, tail: string)
    requires |s| >= 4 && |s| % 4 == 0 && DecodeQuantum(s[..4], |s| == 4) == Some(head)
    requires if |s| == 4 then tail == "" else |head| == 3
    ensures GivesPart(s, head + tail, 0)
  {
    hide DecodeQuantum;
    assert QuantumOf(s, 0) == s[..4];
    assert (head + tail)[0..|head|] == head;
  }

  lemma LaterPart(s: string, head: string, tail: string, j: nat)
    requires |s| >= 8 && |s| % 4 == 0 && j < |s| / 4 - 1 && |head| == 3 && GivesPart(s[4..], tail, j)
    ensures GivesPart(s, head + tail, j + 1)
  {
    hide DecodeQuantum, QuantumOf;
    QuantaAfter(s, j);
    TailPart(head, tail, j);
    assert |s[4..]| / 4 == |s| / 4 - 1 && 3 * (j + 1) == 3 * j + 3;
  }

  lemma TailPart(head: string, tail: string, j: nat)
    requires |head| == 3 && 3 * j <= |tail|
    ensures (head + tail)[3 * j + 3..|head + tail|] == tail[3 * j..|tail|]
    ensures 3 * j + 3 <= |tail| ==> (head + tail)[3 * j + 3..3 * j + 6] == tail[3 * j..3 * j + 3]
  {
  }

  /** The token of the map `{0: 0}`, letter by letter. */
  lemma KnownText()
    ensures Encode("{\"0\":0}") == "eyIwIjowfQ=="
  {
    var s := "{\"0\":0}";
    assert s[..3] == "{\"0" && s[3..] == "\":0}" && s[3..][..3] == "\":0" && s[3..][3..] == "}";
    hide EncodeQuantum;
    KnownQuanta();
  }

  lemma KnownQuanta()
    ensures EncodeQuantum("{\"0") == "eyIw" && EncodeQuantum("\":0") == "Ijow" && EncodeQuantum("}") == "fQ=="
  {
    hide *;
    KnownChars();
    FullQuantum("{\"0", 123, 34, 48);
    FullQuantum("\":0", 34, 58, 48);
    LastQuantum("}", 125);
  }

  lemma FullQuantum(s: ByteString, a: nat, b: nat, c: nat)
    requires |s| == 3 && s[0] as int == a && s[1] as int == b && s[2] as int == c
    ensures a < 256 && b < 256 && c < 256
    ensures EncodeQuantum(s)
            == [SextetChar(a / 4), SextetChar(a % 4 * 16 + b / 16), SextetChar(b % 16 * 4 + c / 64), SextetChar(c % 64)]
  {
    assert s[0] in s && s[1] in s && s[2] in s;
  }

  lemma LastQuantum(s: ByteString, a: nat)
    requires |s| == 1 && s[0] as int == a
    ensures a < 256 && EncodeQuantum(s) == [SextetChar(a / 4), SextetChar(a % 4 * 16), '=', '=']
  {
    assert s[0] in s;
  }

  lemma KnownChars()
    ensures SextetChar(30) == 'e' && SextetChar(50) == 'y' && SextetChar(8) == 'I' && SextetChar(48) == 'w'
    ensures SextetChar(35) == 'j' && SextetChar(40) == 'o' && SextetChar(31) == 'f' && SextetChar(16) == 'Q'
  {
  }
}
