/** The payload codec of rn2483.py: `_2str`, `_base16encode` and
    `_base16tobytearray`, the Base16 encoding of section 8 of RFC 4648 with
    lower-case digits on the way out and either case on the way in. */
module Base16 {
  import opened Wire

  /** One element of a `bytearray`. */
  type Byte = x: int | 0 <= x < 256

  /** What `_base16encode` is given: a string or a `bytearray`. */
  datatype Payload = Text(chars: string) | Bytes(data: seq<Byte>)

  /** The element values `_base16encode` walks over: `ord(c)` of each
      character of a string, each element of a `bytearray`. */
  function Units(p: Payload): (u: seq<nat>)
    ensures p.Text? ==> |u| == |p.chars| && forall i :: 0 <= i < |u| ==> u[i] == p.chars[i] as nat
    ensures p.Bytes? ==> |u| == |p.data| && forall i :: 0 <= i < |u| ==> u[i] == p.data[i]
  {
    match p
    case Text(cs) => seq(|cs|, i requires 0 <= i < |cs| => cs[i] as nat)
    case Bytes(bs) => seq(|bs|, i requires 0 <= i < |bs| => bs[i] as nat)
  }

  /** A string whose characters all fit in a byte, as the platform's strings do. */
  predicate IsByteString(cs: string) {
    forall i :: 0 <= i < |cs| ==> cs[i] as int < 256
  }

  predicate IsLowerHexDigit(c: char) {
    '0' <= c <= '9' || 'a' <= c <= 'f'
  }

  function HexDigit(d: nat): (c: char)
    requires d < 16
    ensures IsLowerHexDigit(c)
  {
    if d < 10 then ('0' as int + d) as char else ('a' as int + d - 10) as char
  }

  /** `hex(n, prefix='')`: the base-16 digits of `n`, no leading zero. */
  function Hex(n: nat): (r: string)
    ensures 1 <= |r| && forall i :: 0 <= i < |r| ==> IsLowerHexDigit(r[i])
  {
    if n < 16 then [HexDigit(n)] else Hex(n / 16) + [HexDigit(n % 16)]
  }

  /** `_2str(r)`: a two-character string is kept, any other gets a leading '0'. */
  function TwoStr(r: string): string {
    if |r| == 2 then r else "0" + r
  }

  /** What `_base16encode` appends for one element. */
  function EncodeUnit(n: nat): string {
    TwoStr(Hex(n))
  }

  function EncodeUnits(u: seq<nat>): string {
    if u == [] then "" else EncodeUnit(u[0]) + EncodeUnits(u[1..])
  }

  /** The string `_base16encode(data)` returns. */
  function Encode(p: Payload): string {
    EncodeUnits(Units(p))
  }

  /** The value of one digit as `int(..., 16)` reads it, in either case. */
  function DigitValue(c: char): (r: Option<nat>)
    ensures r.Some? ==> r.value < 16
  {
    if '0' <= c <= '9' then Some(c as int - '0' as int)
    else if 'a' <= c <= 'f' then Some(c as int - 'a' as int + 10)
    else if 'A' <= c <= 'F' then Some(c as int - 'A' as int + 10)
    else None
  }

  /** `int(hi + lo, 16)` of a two-character slice, when both are digits. */
  function PairValue(hi: char, lo: char): Option<Byte> {
    match (DigitValue(hi), DigitValue(lo))
    case (Some(h), Some(l)) => Some(16 * h + l)
    case _ => None
  }

  /** The byte that characters `2k` and `2k+1` of `s` stand for. */
  function PairAt(s: string, k: nat): Option<Byte>
    requires 2 * k + 1 < |s|
  {
    PairValue(s[2 * k], s[2 * k + 1])
  }

  /** `_base16tobytearray(s)`: one byte per pair of characters, a trailing odd
      character ignored; `int(..., 16)` raises on a pair that is not two
      digits. */
  function Decode(s: string): Result<seq<Byte>>
    decreases |s|
  {
    if |s| < 2 then Ok([])
    else
      match PairValue(s[0], s[1])
      case None => Err(ValueError)
      case Some(b) =>
        match Decode(s[2..])
        case Ok(rest) => Ok([b] + rest)
        case Err(e) => Err(e)
  }

  // ---------------------------------------------------------------------
  // Encoding

  /** `_2str(hex(n))` for a byte value is exactly two lower-case digits that
      read back as `n`. */
  lemma EncodeUnitByte(n: nat)
    requires n < 256
    ensures |EncodeUnit(n)| == 2
    ensures IsLowerHexDigit(EncodeUnit(n)[0]) && IsLowerHexDigit(EncodeUnit(n)[1])
    ensures PairValue(EncodeUnit(n)[0], EncodeUnit(n)[1]) == Some(n)
  {
    if n >= 16 {
      assert Hex(n / 16) == [HexDigit(n / 16)];
    }
  }

  /** A value past one byte has at least three hex digits, and `_2str` puts a
      '0' in front of them: such an element takes at least four characters. */
  lemma EncodeUnitWide(n: nat)
    requires n >= 256
    ensures |EncodeUnit(n)| >= 4 && EncodeUnit(n)[0] == '0'
  {
    assert Hex(n / 16) == Hex(n / 256) + [HexDigit(n / 16 % 16)];
  }

  /** Appending one element appends its two digits: what the loop of
      `_base16encode` relies on. */
  lemma {:induction false} EncodeUnitsSnoc(u: seq<nat>, x: nat)
    ensures EncodeUnits(u + [x]) == EncodeUnits(u) + EncodeUnit(x)
  {
    if u != [] {
      assert (u + [x])[1..] == u[1..] + [x];
      EncodeUnitsSnoc(u[1..], x);
    }
  }

  /** Two characters per element, in input order, each pair the element's
      lower-case digits. */
  lemma {:induction false} EncodeUnitsLayout(u: seq<nat>)
    requires forall i :: 0 <= i < |u| ==> u[i] < 256
    ensures |EncodeUnits(u)| == 2 * |u|
    ensures forall i :: 0 <= i < |u| ==> EncodeUnits(u)[2 * i..2 * i + 2] == EncodeUnit(u[i])
    ensures forall j :: 0 <= j < |EncodeUnits(u)| ==> IsLowerHexDigit(EncodeUnits(u)[j])
  {
    if u != [] {
      EncodeUnitByte(u[0]);
      EncodeUnitsLayout(u[1..]);
      var e := EncodeUnits(u);
      assert e == EncodeUnit(u[0]) + EncodeUnits(u[1..]);
      forall i | 0 <= i < |u|
        ensures e[2 * i..2 * i + 2] == EncodeUnit(u[i])
      {
        if i > 0 {
          assert e[2 * i..2 * i + 2] == EncodeUnits(u[1..])[2 * (i - 1)..2 * (i - 1) + 2];
        }
      }
      forall j | 0 <= j < |e|
        ensures IsLowerHexDigit(e[j])
      {
        if j >= 2 {
          assert e[j] == EncodeUnits(u[1..])[j - 2];
        }
      }
    }
  }

  /** `_base16encode` of a byte string or a `bytearray` of length n is 2n
      lower-case hex digits, element i at positions 2i and 2i+1. */
  lemma EncodeLayout(p: Payload)
    requires p.Text? ==> IsByteString(p.chars)
    ensures |Encode(p)| == 2 * |Units(p)|
    ensures forall i :: 0 <= i < |Units(p)| ==> Encode(p)[2 * i..2 * i + 2] == EncodeUnit(Units(p)[i])
    ensures forall j :: 0 <= j < |Encode(p)| ==> IsLowerHexDigit(Encode(p)[j])
  {
    EncodeUnitsLayout(Units(p));
  }

  /** `_base16encode(data)`: accumulates the digits of each element in turn. */
  method Base16Encode(data: Payload) returns (encoded: string)
    ensures encoded == Encode(data)
  {
    encoded := "";
    var n := if data.Text? then |data.chars| else |data.data|;
    for k := 0 to n
      invariant encoded == EncodeUnits(Units(data)[..k])
    {
      var xx: nat := if data.Text? then data.chars[k] as nat else data.data[k];
      assert Units(data)[..k + 1] == Units(data)[..k] + [xx];
      EncodeUnitsSnoc(Units(data)[..k], xx);
      encoded := encoded + TwoStr(Hex(xx));
    }
    assert Units(data)[..n] == Units(data);
  }

  // ---------------------------------------------------------------------
  // Decoding

  /** `_base16tobytearray(s)` succeeds exactly when every full pair is two
      digits; it then holds `len(s) // 2` bytes, byte k being the value of
      characters 2k and 2k+1. The only error it raises is `ValueError`. */
  lemma {:induction false} DecodeSpec(s: string)
    ensures Decode(s).Ok? <==> forall k :: 0 <= k < |s| / 2 ==> PairAt(s, k).Some?
    ensures Decode(s).Ok? ==>
      |Decode(s).value| == |s| / 2 &&
      forall k :: 0 <= k < |s| / 2 ==> PairAt(s, k) == Some(Decode(s).value[k])
    ensures Decode(s).Err? ==> Decode(s).error == ValueError
    decreases |s|
  {
    if |s| >= 2 {
      var t := s[2..];
      DecodeSpec(t);
      assert forall k :: 0 <= k < |t| / 2 ==> PairAt(t, k) == PairAt(s, k + 1);
      if PairValue(s[0], s[1]).Some? && Decode(t).Ok? {
        var d := Decode(s).value;
        forall k | 0 <= k < |s| / 2
          ensures PairAt(s, k) == Some(d[k])
        {
          if k > 0 {
            assert PairAt(s, k) == PairAt(t, k - 1);
          }
        }
      }
      if !PairValue(s[0], s[1]).Some? {
        assert !PairAt(s, 0).Some?;
      } else if !Decode(t).Ok? {
        var k :| 0 <= k < |t| / 2 && !PairAt(t, k).Some?;
        assert !PairAt(s, k + 1).Some?;
      }
    }
  }

  /** A trailing odd character never changes the decoded bytes. */
  lemma {:induction false} DecodeIgnoresOddTail(s: string, c: char)
    requires |s| % 2 == 0
    ensures Decode(s + [c]) == Decode(s)
    decreases |s|
  {
    if |s| >= 2 {
      assert (s + [c])[2..] == s[2..] + [c];
      DecodeIgnoresOddTail(s[2..], c);
    }
  }

  /** Decoding undoes encoding: `_base16tobytearray(_base16encode(b)) == b`
      for every sequence of byte values. */
  lemma {:induction false} DecodeEncodeUnits(u: seq<nat>)
    requires forall i :: 0 <= i < |u| ==> u[i] < 256
    ensures Decode(EncodeUnits(u)).Ok?
    ensures Decode(EncodeUnits(u)).value == u
  {
    if u != [] {
      var e := EncodeUnits(u);
      EncodeUnitByte(u[0]);
      assert e[..2] == EncodeUnit(u[0]);
      assert e[2..] == EncodeUnits(u[1..]);
      DecodeEncodeUnits(u[1..]);
    }
  }

  /** The round trip for what `tx_uncnf`/`tx_cnf` accept: a `bytearray`
      comes back as itself, a byte string as the codes of its characters. */
  lemma DecodeEncode(p: Payload)
    requires p.Text? ==> IsByteString(p.chars)
    ensures Decode(Encode(p)).Ok?
    ensures p.Bytes? ==> Decode(Encode(p)).value == p.data
    ensures p.Text? ==>
      (|Decode(Encode(p)).value| == |p.chars| &&
       forall i :: 0 <= i < |p.chars| ==> Decode(Encode(p)).value[i] == p.chars[i] as int)
  {
    DecodeEncodeUnits(Units(p));
  }

  /** `_base16tobytearray(s)`: fills a zeroed `bytearray(len(s) // 2)` in
      place, one pair at a time. */
  method Base16ToBytes(s: string) returns (r: Result<seq<Byte>>)
    ensures r == Decode(s)
  {
    DecodeSpec(s);
    var bLen := |s| / 2;
    var b := new Byte[bLen];
    for i := 0 to bLen
      invariant forall k :: 0 <= k < i ==> PairAt(s, k) == Some(b[k])
    {
      var v := PairValue(s[i * 2], s[i * 2 + 1]);
      if v.None? {
        assert !PairAt(s, i).Some?;
        return Err(ValueError);
      }
      b[i] := v.value;
    }
    r := Ok(b[..]);
    assert Decode(s).Ok?;
    assert Decode(s).value == b[..] by {
      assert forall k :: 0 <= k < bLen ==> Some(Decode(s).value[k]) == Some(b[k]);
    }
  }

  /** One step of `_base16tobytearray`: a valid leading pair is the first byte. */
  lemma DecodeStep(s: string, b: Byte, rest: seq<Byte>)
    requires 2 <= |s| && PairValue(s[0], s[1]) == Some(b) && Decode(s[2..]) == Ok(rest)
    ensures Decode(s) == Ok([b] + rest)
  {
  }

  /** A downlink `mac_rx 1 48656c6c6f` carries the bytes of "Hello". */
  lemma DecodeHello(s: string)
    requires s == "48656c6c6f"
    ensures Decode(s) == Ok([72, 101, 108, 108, 111])
  {
    assert s[8..][2..] == [];
    DecodeStep(s[8..], 111, []);
    assert s[6..][2..] == s[8..];
    DecodeStep(s[6..], 108, Decode(s[8..]).value);
    assert s[4..][2..] == s[6..];
    DecodeStep(s[4..], 108, Decode(s[6..]).value);
    assert s[2..][2..] == s[4..];
    DecodeStep(s[2..], 101, Decode(s[4..]).value);
    DecodeStep(s, 72, Decode(s[2..]).value);
    assert Decode(s).value == [72, 101, 108, 108, 111];
  }
}
