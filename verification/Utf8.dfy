// UTF-8 (RFC 3629 section 3) and truncateToBytes of output_transport.ts. A Dafny string is a
// sequence of Unicode scalar values, so it is exactly a well-formed string.
module Utf8 {
  import opened Wrappers

  function EncodeChar(ch: char): (bs: seq<Byte>)
    ensures 1 <= |bs| <= 4
    ensures !IsContinuation(bs[0])
    ensures forall i :: 1 <= i < |bs| ==> IsContinuation(bs[i])
  {
    var c := ch as int;
    if c < 0x80 then [c as Byte]
    else if c < 0x800 then [(0xC0 + c / 0x40) as Byte, Low(c)]
    else if c < 0x1_0000 then [(0xE0 + c / 0x40 / 0x40) as Byte, Low(c / 0x40), Low(c)]
    else [(0xF0 + c / 0x40 / 0x40 / 0x40) as Byte, Low(c / 0x40 / 0x40), Low(c / 0x40), Low(c)]
  }

  function Low(c: int): Byte { (0x80 + c % 0x40) as Byte }

  // The test (b & 0xc0) == 0x80: the top two bits are 10.
  predicate IsContinuation(b: Byte) { b / 0x40 == 2 }

  function Encode(s: string): seq<Byte> {
    if s == "" then [] else EncodeChar(s[0]) + Encode(s[1..])
  }

  function ByteLength(s: string): nat {
    if s == "" then 0 else |EncodeChar(s[0])| + ByteLength(s[1..])
  }

  // Strict decoding: overlong forms, surrogates and values above 0x10FFFF are refused.
  function DecodeOne(b: seq<Byte>): Option<(char, nat)>
    requires b != []
    ensures DecodeOne(b).Some? ==> 1 <= DecodeOne(b).value.1 <= |b|
  {
    var b0 := b[0] as int;
    if b0 < 0x80 then Some((b0 as char, 1))
    else if 0xC2 <= b0 < 0xE0 && |b| >= 2 && IsContinuation(b[1]) then
      Some((((b0 - 0xC0) * 0x40 + High(b[1])) as char, 2))
    else if 0xE0 <= b0 < 0xF0 && |b| >= 3 && IsContinuation(b[1]) && IsContinuation(b[2]) then
      var v := ((b0 - 0xE0) * 0x40 + High(b[1])) * 0x40 + High(b[2]);
      if v >= 0x800 && !(0xD800 <= v < 0xE000) then Some((v as char, 3)) else None
    else if 0xF0 <= b0 < 0xF5 && |b| >= 4 && IsContinuation(b[1]) && IsContinuation(b[2]) && IsContinuation(b[3]) then
      var v := (((b0 - 0xF0) * 0x40 + High(b[1])) * 0x40 + High(b[2])) * 0x40 + High(b[3]);
      if 0x1_0000 <= v < 0x11_0000 then Some((v as char, 4)) else None
    else None
  }

  function High(b: Byte): (v: int)
    requires IsContinuation(b)
    ensures 0 <= v < 0x40
  {
    b as int - 0x80
  }

  function Decode(b: seq<Byte>): Option<string> {
    if b == [] then Some("")
    else
      match DecodeOne(b)
      case None => None
      case Some((c, n)) =>
        match Decode(b[n..])
        case None => None
        case Some(s) => Some([c] + s)
  }

  lemma DecodeOneOfEncode(c: char, t: seq<Byte>)
    ensures DecodeOne(EncodeChar(c) + t) == Some((c, |EncodeChar(c)|))
  {
  }

  lemma {:induction false} DecodeOfEncode(s: string)
    ensures Decode(Encode(s)) == Some(s)
  {
    hide EncodeChar, DecodeOne;
    if s != "" {
      var e, t := EncodeChar(s[0]), Encode(s[1..]);
      assert (e + t)[|e|..] == t && [s[0]] + s[1..] == s;
      DecodeOneOfEncode(s[0], t);
      DecodeOfEncode(s[1..]);
    }
  }

  lemma LowOfHigh(q: int, b: Byte)
    requires q >= 0 && IsContinuation(b)
    ensures var v := q * 0x40 + High(b); v / 0x40 == q && Low(v) == b
  {}

  lemma EncodeOfDecodeOne(b: seq<Byte>)
    requires b != [] && DecodeOne(b).Some?
    ensures EncodeChar(DecodeOne(b).value.0) == b[..DecodeOne(b).value.1]
  {
    hide IsContinuation, Low, High;
    var b0 := b[0] as int;
    if 0xC2 <= b0 < 0xE0 {
      LowOfHigh(b0 - 0xC0, b[1]);
    } else if 0xE0 <= b0 < 0xF0 {
      LowOfHigh(b0 - 0xE0, b[1]);
      LowOfHigh((b0 - 0xE0) * 0x40 + High(b[1]), b[2]);
    } else if 0xF0 <= b0 {
      LowOfHigh(b0 - 0xF0, b[1]);
      LowOfHigh((b0 - 0xF0) * 0x40 + High(b[1]), b[2]);
      LowOfHigh(((b0 - 0xF0) * 0x40 + High(b[1])) * 0x40 + High(b[2]), b[3]);
    }
  }

  // Every accepted byte sequence is the one encoding of its string.
  lemma {:induction false} EncodeOfDecode(b: seq<Byte>)
    requires Decode(b).Some?
    ensures Encode(Decode(b).value) == b
  {
    hide EncodeChar, DecodeOne;
    if b != [] {
      var n := DecodeOne(b).value.1;
      assert b[..n] + b[n..] == b;
      EncodeOfDecodeOne(b);
      EncodeOfDecode(b[n..]);
    }
  }

  lemma {:induction false} LengthOfEncode(s: string)
    ensures |Encode(s)| == ByteLength(s)
  {
    if s != "" { LengthOfEncode(s[1..]); }
  }

  lemma {:induction false} EncodeAppend(s: string, t: string)
    ensures Encode(s + t) == Encode(s) + Encode(t)
    ensures ByteLength(s + t) == ByteLength(s) + ByteLength(t)
  {
    hide EncodeChar;
    if s == "" {
      assert s + t == t;
    } else {
      assert (s + t)[1..] == s[1..] + t;
      EncodeAppend(s[1..], t);
    }
  }

  // ---- The longest prefix of whole characters that fits a budget ----

  function FitCount(s: string, budget: int): (k: nat)
    ensures k <= |s|
  {
    if s == "" || |EncodeChar(s[0])| > budget then 0
    else 1 + FitCount(s[1..], budget - |EncodeChar(s[0])|)
  }

  function Head(s: string, budget: int): string { s[..FitCount(s, budget)] }

  lemma {:induction false} HeadIsLongest(s: string, budget: int)
    requires budget >= 0
    ensures ByteLength(Head(s, budget)) <= budget
    ensures FitCount(s, budget) < |s| ==>
              budget < ByteLength(s[..FitCount(s, budget) + 1]) <= ByteLength(Head(s, budget)) + 4
  {
    hide EncodeChar;
    if s != "" && |EncodeChar(s[0])| <= budget {
      var k := FitCount(s, budget);
      assert s[..k][1..] == s[1..][..k - 1];
      assert k < |s| ==> s[..k + 1][1..] == s[1..][..k];
      HeadIsLongest(s[1..], budget - |EncodeChar(s[0])|);
    } else if s != "" {
      assert s[..1][1..] == "";
    }
  }

  lemma {:induction false} LengthMonotone(s: string, j: nat, k: nat)
    requires j <= k <= |s|
    ensures ByteLength(s[..j]) <= ByteLength(s[..k])
    ensures j < k ==> ByteLength(s[..j]) < ByteLength(s[..k])
  {
    if j > 0 {
      assert s[..j][1..] == s[1..][..j - 1] && s[..k][1..] == s[1..][..k - 1];
      LengthMonotone(s[1..], j - 1, k - 1);
    }
  }

  // Exactly the prefixes within the budget are prefixes of Head.
  lemma HeadIsExact(s: string, budget: int, k: nat)
    requires k <= |s| && budget >= 0
    ensures ByteLength(s[..k]) <= budget <==> k <= FitCount(s, budget)
  {
    HeadIsLongest(s, budget);
    var f := FitCount(s, budget);
    if k <= f { LengthMonotone(s, k, f); } else { LengthMonotone(s, f + 1, k); }
  }

  // A larger budget extends the head.
  lemma HeadGrows(s: string, small: int, large: int)
    requires small <= large
    ensures Head(s, small) <= Head(s, large)
  {
    if small >= 0 {
      HeadIsExact(s, small, FitCount(s, small));
      HeadIsExact(s, large, FitCount(s, small));
    }
  }

  // The byte after a head is a leading byte; the bytes inside a character are continuation bytes.
  lemma {:induction false} ByteKinds(s: string, k: nat, i: nat)
    requires k < |s| && ByteLength(s[..k]) <= i < ByteLength(s[..k + 1])
    ensures i < |Encode(s)|
    ensures IsContinuation(Encode(s)[i]) <==> i > ByteLength(s[..k])
  {
    hide EncodeChar;
    if k == 0 {
      assert s[..1][1..] == "" && s[..0] == "";
    } else {
      assert s[..k][1..] == s[1..][..k - 1] && s[..k + 1][1..] == s[1..][..k];
      ByteKinds(s[1..], k - 1, i - |EncodeChar(s[0])|);
    }
  }

  lemma {:induction false} EncodeHead(s: string, k: nat)
    requires k <= |s|
    ensures ByteLength(s[..k]) <= |Encode(s)| && Encode(s)[..ByteLength(s[..k])] == Encode(s[..k])
  {
    EncodeAppend(s[..k], s[k..]);
    assert s[..k] + s[k..] == s;
    LengthOfEncode(s[..k]);
  }

  datatype Truncation = Truncation(text: string, truncated: bool, originalBytes: nat, emittedBytes: nat)

  function Truncated(s: string, maxBytes: int): Truncation {
    Truncation(Head(s, maxBytes), ByteLength(s) > maxBytes, ByteLength(s), ByteLength(Head(s, maxBytes)))
  }

  method TruncateToBytes(s: string, maxBytes: int) returns (r: Truncation)
    ensures r == Truncated(s, maxBytes)
  {
    hide EncodeChar;
    var originalBytes := ByteLength(s);
    if originalBytes <= maxBytes {
      assert s[..|s|] == s;
      HeadIsExact(s, maxBytes, |s|);
      return Truncation(s, false, originalBytes, originalBytes);
    }
    if maxBytes <= 0 {
      return Truncation("", true, originalBytes, 0);
    }
    var buf := Encode(s);
    LengthOfEncode(s);
    ghost var k := FitCount(s, maxBytes);
    HeadIsLongest(s, maxBytes);
    assert s[..|s|] == s;
    var end := maxBytes;
    while end > 0 && IsContinuation(buf[end])
      invariant ByteLength(s[..k]) <= end <= maxBytes
    {
      ByteKinds(s, k, end);
      end := end - 1;
    }
    ByteKinds(s, k, end);
    EncodeHead(s, k);
    DecodeOfEncode(s[..k]);
    var text := Decode(buf[..end]).value;
    r := Truncation(text, true, originalBytes, ByteLength(text));
  }

  // What callers rely on: a prefix of whole characters, never over a budget that is not negative,
  // none longer fits, and a cut text falls short of a positive budget by at most three bytes.
  lemma TruncationIsTight(s: string, maxBytes: int)
    ensures var r := Truncated(s, maxBytes);
            && r.text <= s && r.emittedBytes <= r.originalBytes
            && (r.truncated <==> r.text != s || (s == "" && maxBytes < 0))
            && (maxBytes >= 0 ==> r.emittedBytes <= maxBytes)
            && (forall k :: |r.text| < k <= |s| ==> ByteLength(s[..k]) > maxBytes)
            && (r.truncated && maxBytes > 0 ==> maxBytes - r.emittedBytes <= 3)
  {
    hide EncodeChar;
    assert s[..|s|] == s;
    LengthMonotone(s, FitCount(s, maxBytes), |s|);
    if maxBytes >= 0 {
      HeadIsLongest(s, maxBytes);
      HeadIsExact(s, maxBytes, |s|);
    }
    forall k | |Head(s, maxBytes)| < k <= |s| ensures ByteLength(s[..k]) > maxBytes {
      if maxBytes >= 0 { HeadIsExact(s, maxBytes, k); }
    }
  }
}
