/** Splitting and combining 256-bit keys, through hex text and through big-endian bytes; payload layouts. */
module KeyCodec {
  import opened Prelude
  import opened Numerals

  type Byte = x: nat | x < 256

  datatype CodecError = BadKeyLength | Overflow | BadIv | BadTag | TooShort

  datatype Halves = Halves(high: nat, low: nat)

  datatype Payload = Payload(iv: seq<Byte>, tag: seq<Byte>, ciphertext: seq<Byte>)

  /** Two to the power 128. */
  const LIMIT: nat := 0x1_0000_0000_0000_0000_0000_0000_0000_0000

  // --- Big-endian bytes --------------------------------------------------------------

  function FromBytes(bytes: seq<Byte>): nat {
    if bytes == [] then 0 else FromBytes(bytes[..|bytes| - 1]) * 256 + bytes[|bytes| - 1]
  }

  /** The bytes of `n` in exactly `width` places, if they suffice. */
  function ToBytes(n: nat, width: nat): Option<seq<Byte>> {
    if width == 0 then (if n == 0 then Some([]) else None)
    else
      var high := ToBytes(n / 256, width - 1);
      if high.None? then None else Some(high.value + [n % 256])
  }

  function Power(base: nat, exponent: nat): nat {
    if exponent == 0 then 1 else base * Power(base, exponent - 1)
  }

  lemma {:induction false} PowerOfPairs(k: nat)
    ensures Power(16, 2 * k) == Power(256, k)
  {
    if k > 0 {
      PowerOfPairs(k - 1);
      assert Power(16, 2 * k) == 16 * (16 * Power(16, 2 * k - 2));
    }
  }

  lemma PowerOfHalf()
    ensures Power(256, 16) == LIMIT && Power(16, 32) == LIMIT
  {
    assert Power(256, 8) == 0x1_0000_0000_0000_0000;
    PowerOfPairs(16);
  }

  lemma DivideByBase(n: nat, base: nat, k: nat)
    requires base > 0
    ensures n / base < k <==> n < base * k
  {
    Division(n, base);
    if n / base < k {
      assert n / base * base <= (k - 1) * base;
    } else {
      assert n / base * base >= k * base;
    }
  }

  lemma {:induction false} ToBytesReads(n: nat, width: nat)
    ensures ToBytes(n, width).Some? <==> n < Power(256, width)
    ensures ToBytes(n, width).Some? ==> |ToBytes(n, width).value| == width && FromBytes(ToBytes(n, width).value) == n
  {
    if width > 0 {
      ToBytesReads(n / 256, width - 1);
      DivideByBase(n, 256, Power(256, width - 1));
      if ToBytes(n, width).Some? {
        var high := ToBytes(n / 256, width - 1).value;
        assert (high + [n % 256])[..width - 1] == high;
      }
    }
  }

  lemma {:induction false} FromBytesWrites(bytes: seq<Byte>)
    ensures ToBytes(FromBytes(bytes), |bytes|) == Some(bytes)
  {
    if bytes != [] {
      var rest, last := bytes[..|bytes| - 1], bytes[|bytes| - 1];
      FromBytesWrites(rest);
      QuotientOfShift(FromBytes(rest), last);
      assert bytes == rest + [last];
    }
  }

  lemma QuotientOfShift(high: nat, low: Byte)
    ensures (high * 256 + low) / 256 == high && (high * 256 + low) % 256 == low
  {
  }

  // --- Hex text ----------------------------------------------------------------------

  function HexOf(bytes: seq<Byte>): string {
    if bytes == [] then ""
    else
      var last := bytes[|bytes| - 1];
      HexOf(bytes[..|bytes| - 1]) + [DigitChar(last / 16), DigitChar(last % 16)]
  }

  predicate IsHex(s: string) {
    forall c :: c in s ==> DigitValue(c, 16).Some?
  }

  function DigitsValue(a: char, b: char): Option<Byte> {
    var high, low := DigitValue(a, 16), DigitValue(b, 16);
    if high.Some? && low.Some? then Some(16 * high.value + low.value) else None
  }

  /** Decoding pairs of digits until one is missing or no hex digit. */
  function Unhex(s: string): seq<Byte> {
    if |s| < 2 || DigitsValue(s[0], s[1]).None? then []
    else [DigitsValue(s[0], s[1]).value] + Unhex(s[2..])
  }

  lemma {:induction false} UnhexAppend(s: string, a: char, b: char)
    requires IsHex(s) && |s| % 2 == 0 && DigitsValue(a, b).Some?
    ensures Unhex(s + [a, b]) == Unhex(s) + [DigitsValue(a, b).value]
  {
    if s != "" {
      assert s[0] in s && s[1] in s;
      UnhexAppend(s[2..], a, b);
      assert (s + [a, b])[2..] == s[2..] + [a, b];
    } else {
      assert (s + [a, b])[2..] == "";
    }
  }

  /** One more pair of digits is one more byte. */
  lemma ReadPair(s: string, a: char, b: char)
    requires Read(s, 16).Some? && DigitsValue(a, b).Some?
    ensures Read(s + [a, b], 16) == Some(Read(s, 16).value * 256 + DigitsValue(a, b).value)
  {
    var one := s + [a];
    assert one[..|s|] == s;
    assert (s + [a, b])[..|one|] == one;
    assert Read(one, 16).value == Read(s, 16).value * 16 + DigitValue(a, 16).value;
  }

  lemma {:induction false} HexReads(bytes: seq<Byte>)
    requires bytes != []
    ensures Read(HexOf(bytes), 16) == Some(FromBytes(bytes))
  {
    var rest, last := bytes[..|bytes| - 1], bytes[|bytes| - 1];
    DigitRoundTrip(last / 16, 16);
    DigitRoundTrip(last % 16, 16);
    var a, b := DigitChar(last / 16), DigitChar(last % 16);
    if rest == [] {
      assert HexOf(bytes) == [a, b];
      assert [a, b][..1] == [a];
      assert Read([a], 16) == Some(last / 16);
    } else {
      HexReads(rest);
      ReadPair(HexOf(rest), a, b);
    }
  }

  lemma {:induction false} ReadableIsHex(s: string)
    ensures Read(s, 16).Some? <==> s != "" && IsHex(s)
  {
    if s != "" {
      var n := |s| - 1;
      assert s == s[..n] + [s[n]];
      ReadableIsHex(s[..n]);
    }
  }

  lemma PairReads(a: char, b: char)
    requires DigitsValue(a, b).Some?
    ensures Read([a, b], 16) == Some(DigitsValue(a, b).value)
  {
    assert [a, b][..1] == [a];
    assert Read([a], 16) == DigitValue(a, 16);
  }

  lemma FromBytesAppend(bytes: seq<Byte>, byte: Byte)
    ensures FromBytes(bytes + [byte]) == FromBytes(bytes) * 256 + byte
  {
    assert (bytes + [byte])[..|bytes|] == bytes;
  }

  lemma FromOneByte(byte: Byte)
    ensures FromBytes([byte]) == byte && [] + [byte] == [byte]
  {
    FromBytesAppend([], byte);
  }

  /** One more pair of digits read, one more byte appended. */
  lemma PairAppends(text: string, bytes: seq<Byte>, a: char, b: char)
    requires DigitsValue(a, b).Some? && Read(text, 16) == Some(FromBytes(bytes))
    ensures Read(text + [a, b], 16) == Some(FromBytes(bytes + [DigitsValue(a, b).value]))
  {
    ReadPair(text, a, b);
    FromBytesAppend(bytes, DigitsValue(a, b).value);
  }

  lemma UnhexOne(a: char, b: char)
    requires DigitsValue(a, b).Some?
    ensures Unhex([a, b]) == [DigitsValue(a, b).value]
    ensures Some(FromBytes(Unhex([a, b]))) == Read([a, b], 16)
  {
    UnhexAppend("", a, b);
    assert "" + [a, b] == [a, b];
    PairReads(a, b);
    FromOneByte(DigitsValue(a, b).value);
  }

  /** Decoding an even number of digits gives bytes that denote the same number. */
  lemma {:induction false} UnhexReads(s: string)
    requires IsHex(s) && |s| % 2 == 0 && s != ""
    ensures |Unhex(s)| == |s| / 2 && Some(FromBytes(Unhex(s))) == Read(s, 16)
  {
    var rest, a, b := s[..|s| - 2], s[|s| - 2], s[|s| - 1];
    assert a in s && b in s && forall c :: c in rest ==> c in s;
    assert s == rest + [a, b];
    if rest == "" {
      UnhexOne(a, b);
      assert s == [a, b];
    } else {
      UnhexReads(rest);
      UnhexAppend(rest, a, b);
      PairAppends(rest, Unhex(rest), a, b);
    }
  }

  /** Any longer decoding starts with the decoding of its first digits. */
  lemma {:induction false} UnhexPrefix(s: string, k: nat)
    requires IsHex(s) && 2 * k <= |s|
    ensures |Unhex(s)| >= k && Unhex(s)[..k] == Unhex(s[..2 * k])
  {
    if k > 0 {
      assert s[0] in s && s[1] in s;
      UnhexPrefix(s[2..], k - 1);
      assert s[..2 * k][2..] == s[2..][..2 * (k - 1)];
      assert s[..2 * k][0] == s[0] && s[..2 * k][1] == s[1];
    }
  }

  function PadStart(s: string, width: nat): string
    decreases width - |s|
  {
    if |s| >= width then s else PadStart("0" + s, width)
  }

  lemma {:induction false} PadStartReads(s: string, width: nat)
    requires Read(s, 16).Some?
    ensures Read(PadStart(s, width), 16) == Read(s, 16)
    ensures |PadStart(s, width)| == if |s| < width then width else |s|
    decreases width - |s|
  {
    if |s| < width {
      LeadingZero(s, 16);
      PadStartReads("0" + s, width);
    }
  }

  /** How many hex digits a number has. */
  lemma {:induction false} PrintLength(n: nat, k: nat)
    requires k > 0
    ensures |Print(n, 16)| <= k <==> n < Power(16, k)
    decreases n
  {
    if n < 16 {
      PowerGrows(k);
    } else if k > 1 {
      PrintLength(n / 16, k - 1);
      DivideByBase(n, 16, Power(16, k - 1));
    } else {
      assert |Print(n / 16, 16)| > 0;
    }
  }

  lemma {:induction false} PowerGrows(k: nat)
    requires k > 0
    ensures Power(16, k) >= 16
  {
    if k > 1 {
      PowerGrows(k - 1);
    }
  }

  // --- The TypeScript path -----------------------------------------------------------

  function SplitText(key: seq<Byte>): Result<Halves, CodecError> {
    if |key| != 32 then Err(BadKeyLength)
    else
      ReadableHex(key[..16]);
      ReadableHex(key[16..]);
      Ok(Halves(Read(HexOf(key[..16]), 16).value, Read(HexOf(key[16..]), 16).value))
  }

  lemma ReadableHex(bytes: seq<Byte>)
    requires bytes != []
    ensures Read(HexOf(bytes), 16).Some?
  {
    HexReads(bytes);
  }

  /** The padded hex digits of one half. */
  function HalfText(n: nat): string {
    PadStart(Print(n, 16), 32)
  }

  lemma HalfTextReads(n: nat)
    ensures IsHex(HalfText(n)) && |HalfText(n)| >= 32 && Read(HalfText(n), 16) == Some(n)
    ensures n < LIMIT ==> |HalfText(n)| == 32
  {
    PrintReads(n, 16);
    PadStartReads(Print(n, 16), 32);
    ReadableIsHex(HalfText(n));
    PrintLength(n, 32);
    PowerOfHalf();
  }

  /** What the hex write puts into the sixteen bytes of a half. */
  function HalfBytes(n: nat): (bytes: seq<Byte>)
    ensures |bytes| == 16
  {
    HalfTextReads(n);
    UnhexPrefix(HalfText(n), 16);
    Unhex(HalfText(n))[..16]
  }

  function CombineText(h: Halves): seq<Byte> {
    HalfBytes(h.high) + HalfBytes(h.low)
  }

  // --- The Python path ---------------------------------------------------------------

  function SplitBytes(key: seq<Byte>): Result<Halves, CodecError> {
    if |key| != 32 then Err(BadKeyLength) else Ok(Halves(FromBytes(key[..16]), FromBytes(key[16..])))
  }

  function CombineBytes(h: Halves): Result<seq<Byte>, CodecError> {
    var high, low := ToBytes(h.high, 16), ToBytes(h.low, 16);
    if high.None? || low.None? then Err(Overflow) else Ok(high.value + low.value)
  }

  lemma {:induction false} FromBytesOfBoth(a: seq<Byte>, b: seq<Byte>)
    ensures FromBytes(a + b) == FromBytes(a) * Power(256, |b|) + FromBytes(b)
  {
    if b == [] {
      assert a + b == a;
    } else {
      var n := |b| - 1;
      FromBytesOfBoth(a, b[..n]);
      assert (a + b)[..|a| + n] == a + b[..n];
      var high, power, low := FromBytes(a), Power(256, n), FromBytes(b[..n]);
      assert (high * power + low) * 256 == high * (256 * power) + low * 256;
    }
  }

  /** Bytes count with the most significant first, and the first half of a key is the high one. */
  lemma HighHalfComesFirst(key: seq<Byte>, a: Byte, b: Byte)
    ensures FromBytes([a, b]) == 256 * a + b
    ensures SplitBytes(key).Ok? <==> |key| == 32
    ensures |key| == 32 ==>
              var h := SplitBytes(key).value;
              FromBytes(key) == h.high * 0x1_0000_0000_0000_0000_0000_0000_0000_0000 + h.low
  {
    assert [a][..0] == [] && FromBytes([a]) == a;
    assert [a, b][..1] == [a] && FromBytes([a, b]) == FromBytes([a]) * 256 + b;
    if |key| == 32 {
      FromBytesOfBoth(key[..16], key[16..]);
      assert key[..16] + key[16..] == key;
      PowerOfHalf();
    }
  }

  // --- Both paths agree --------------------------------------------------------------

  lemma SplitsAgree(key: seq<Byte>)
    ensures SplitText(key) == SplitBytes(key)
  {
    if |key| == 32 {
      HexReads(key[..16]);
      HexReads(key[16..]);
    }
  }

  /** In range, the hex path writes the big-endian bytes; out of range it writes another number. */
  lemma HalfBytesReads(n: nat)
    ensures FromBytes(HalfBytes(n)) < LIMIT
    ensures n < LIMIT ==> ToBytes(n, 16) == Some(HalfBytes(n)) && FromBytes(HalfBytes(n)) == n
    ensures n >= LIMIT ==> ToBytes(n, 16) == None
  {
    var bytes := HalfBytes(n);
    FromBytesWrites(bytes);
    ToBytesReads(FromBytes(bytes), 16);
    ToBytesReads(n, 16);
    PowerOfHalf();
    if n < LIMIT {
      HalfTextReads(n);
      UnhexReads(HalfText(n));
      UnhexPrefix(HalfText(n), 16);
      assert HalfText(n)[..32] == HalfText(n);
    }
  }

  /**
   * Both languages combine halves to the same key exactly if both halves are below two to
   * the power 128; otherwise Python raises an error and TypeScript returns a key all the same.
   */
  lemma CombinesAgreeExactly(h: Halves)
    ensures CombineBytes(h) == Ok(CombineText(h)) <==> h.high < LIMIT && h.low < LIMIT
    ensures CombineBytes(h).Err? <==> !(h.high < LIMIT && h.low < LIMIT)
    ensures |CombineText(h)| == 32
  {
    HalfBytesReads(h.high);
    HalfBytesReads(h.low);
  }

  /** Splitting and combining a key restores it, in either language and across them. */
  lemma KeyRoundTrip(key: seq<Byte>)
    requires |key| == 32
    ensures SplitBytes(key).Ok? && SplitText(key) == SplitBytes(key)
    ensures SplitBytes(key).value.high < LIMIT && SplitBytes(key).value.low < LIMIT
    ensures CombineBytes(SplitBytes(key).value) == Ok(key) && CombineText(SplitText(key).value) == key
  {
    SplitsAgree(key);
    FromBytesWrites(key[..16]);
    FromBytesWrites(key[16..]);
    ToBytesReads(FromBytes(key[..16]), 16);
    ToBytesReads(FromBytes(key[16..]), 16);
    PowerOfHalf();
    assert key == key[..16] + key[16..];
    CombinesAgreeExactly(SplitBytes(key).value);
  }

  /** Combining and splitting halves restores them exactly if both are in range. */
  lemma HalvesRoundTrip(h: Halves)
    ensures SplitText(CombineText(h)) == Ok(h) <==> h.high < LIMIT && h.low < LIMIT
    ensures h.high < LIMIT && h.low < LIMIT ==> CombineBytes(h).Ok? && SplitBytes(CombineBytes(h).value) == Ok(h)
  {
    var key := CombineText(h);
    SplitsAgree(key);
    CombinesAgreeExactly(h);
    assert key[..16] == HalfBytes(h.high) && key[16..] == HalfBytes(h.low);
    HalfBytesReads(h.high);
    HalfBytesReads(h.low);
  }

  // --- Writing into a buffer ---------------------------------------------------------

  /** `buffer.write(text, offset, length, 'hex')`. */
  method WriteHex(buffer: array<Byte>, text: string, offset: nat, length: nat)
    requires IsHex(text) && 2 * length <= |text| && offset + length <= buffer.Length
    modifies buffer
    ensures |Unhex(text)| >= length
    ensures buffer[..] == old(buffer[..offset]) + Unhex(text)[..length] + old(buffer[offset + length..])
  {
    UnhexPrefix(text, length);
    for i := 0 to length
      invariant buffer[..offset] == old(buffer[..offset])
      invariant buffer[offset..offset + i] == Unhex(text)[..i]
      invariant buffer[offset + length..] == old(buffer[offset + length..])
    {
      UnhexAt(text, i);
      assert text[2 * i] in text && text[2 * i + 1] in text;
      buffer[offset + i] := DigitsValue(text[2 * i], text[2 * i + 1]).value;
    }
    assert buffer[..] == buffer[..offset] + buffer[offset..offset + length] + buffer[offset + length..];
  }

  lemma {:induction false} UnhexAt(text: string, i: nat)
    requires IsHex(text) && 2 * i + 1 < |text|
    ensures i < |Unhex(text)| && DigitsValue(text[2 * i], text[2 * i + 1]) == Some(Unhex(text)[i])
  {
    assert text[0] in text && text[1] in text;
    if i > 0 {
      UnhexAt(text[2..], i - 1);
    }
  }

  method CombineKeyHalves(high: nat, low: nat) returns (key: array<Byte>)
    ensures fresh(key) && key[..] == CombineText(Halves(high, low))
  {
    key := new Byte[32](_ => 0);
    HalfTextReads(high);
    HalfTextReads(low);
    WriteHex(key, HalfText(high), 0, 16);
    assert key[..16] == HalfBytes(high);
    WriteHex(key, HalfText(low), 16, 16);
  }

  // --- Payload layouts ---------------------------------------------------------------

  function Pack(p: Payload): seq<Byte> {
    p.iv + p.tag + p.ciphertext
  }

  /** Twelve bytes of IV and sixteen of tag; only the total length is checked. */
  function UnpackText(packed: seq<Byte>): Result<Payload, CodecError> {
    if |packed| < 28 then Err(TooShort) else Ok(Payload(packed[..12], packed[12..28], packed[28..]))
  }

  /** Sixteen bytes of each, checked one after the other. */
  function PackBytes(p: Payload): Result<seq<Byte>, CodecError> {
    if |p.iv| != 16 then Err(BadIv) else if |p.tag| != 16 then Err(BadTag) else Ok(Pack(p))
  }

  function UnpackBytes(packed: seq<Byte>): Result<Payload, CodecError> {
    if |packed| < 32 then Err(TooShort) else Ok(Payload(packed[..16], packed[16..32], packed[32..]))
  }

  /** Unpacking undoes packing exactly for the layout's own lengths, and packing undoes unpacking. */
  lemma TextLayoutRoundTrip(p: Payload, packed: seq<Byte>)
    ensures UnpackText(Pack(p)) == Ok(p) <==> |p.iv| == 12 && |p.tag| == 16
    ensures UnpackText(packed).Ok? <==> |packed| >= 28
    ensures UnpackText(packed).Ok? ==> Pack(UnpackText(packed).value) == packed
    ensures UnpackText(packed).Ok? ==>
              var p := UnpackText(packed).value;
              p.iv == packed[..12] && p.tag == packed[12..28] && p.ciphertext == packed[28..]
  {
    if |p.iv| == 12 && |p.tag| == 16 {
      assert Pack(p)[..12] == p.iv && Pack(p)[12..28] == p.tag && Pack(p)[28..] == p.ciphertext;
    }
  }

  lemma BytesLayoutRoundTrip(p: Payload, packed: seq<Byte>)
    ensures PackBytes(p).Ok? <==> |p.iv| == 16 && |p.tag| == 16
    ensures PackBytes(p).Ok? ==> UnpackBytes(PackBytes(p).value) == Ok(p)
    ensures UnpackBytes(packed).Ok? <==> |packed| >= 32
    ensures UnpackBytes(packed).Ok? ==> PackBytes(UnpackBytes(packed).value) == Ok(packed)
    ensures UnpackBytes(packed).Ok? ==>
              var p := UnpackBytes(packed).value;
              p.iv == packed[..16] && p.tag == packed[16..32] && p.ciphertext == packed[32..]
  {
    if |p.iv| == 16 && |p.tag| == 16 {
      assert Pack(p)[..16] == p.iv && Pack(p)[16..32] == p.tag && Pack(p)[32..] == p.ciphertext;
    }
    if |packed| >= 32 {
      assert packed == packed[..16] + packed[16..32] + packed[32..];
    }
  }
}
