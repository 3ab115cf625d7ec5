/** UTF-8 as section 3 of RFC 3629 defines it, and where it may be cut. */
module Utf8 {
  import opened Collections

  /** A Unicode scalar value. */
  type CodePoint = c: int | 0 <= c < 0xD800 || 0xE000 <= c < 0x110000 witness 0

  type Text = seq<CodePoint>
  type Bytes = seq<int>

  function Encode(c: CodePoint): (r: Bytes)
    ensures 1 <= |r| <= 4 && !Continuation(r[0])
  {
    if c < 0x80 then [c]
    else if c < 0x800 then [0xC0 + c / 64, 0x80 + c % 64]
    else if c < 0x10000 then [0xE0 + c / 4096, 0x80 + c / 64 % 64, 0x80 + c % 64]
    else [0xF0 + c / 262144, 0x80 + c / 4096 % 64, 0x80 + c / 64 % 64, 0x80 + c % 64]
  }

  function EncodeAll(t: Text): Bytes {
    if t == [] then [] else EncodeAll(t[..|t| - 1]) + Encode(t[|t| - 1])
  }

  /** A byte that continues a character: its two top bits are 10. */
  predicate Continuation(b: int) { 0x80 <= b < 0xC0 }

  /** How many bytes the character that begins with this byte has. */
  function Width(b: int): (n: nat)
    ensures 1 <= n <= 4
  {
    if b < 0xC0 then 1 else if b < 0xE0 then 2 else if b < 0xF0 then 3 else 4
  }

  function ScalarOf(n: int): CodePoint { if 0 <= n < 0xD800 || 0xE000 <= n < 0x110000 then n else 0xFFFD }

  /** One character; a replacement character where the bytes are not the start of one. */
  function DecodeOne(bs: Bytes): CodePoint
    requires bs != []
  {
    if Width(bs[0]) > |bs| then 0xFFFD
    else if bs[0] < 0xC0 then ScalarOf(bs[0])
    else if bs[0] < 0xE0 then ScalarOf((bs[0] - 0xC0) * 64 + (bs[1] - 0x80))
    else if bs[0] < 0xF0 then ScalarOf((bs[0] - 0xE0) * 4096 + (bs[1] - 0x80) * 64 + (bs[2] - 0x80))
    else ScalarOf((bs[0] - 0xF0) * 262144 + (bs[1] - 0x80) * 4096 + (bs[2] - 0x80) * 64 + (bs[3] - 0x80))
  }

  function Decode(bs: Bytes): Text {
    if bs == [] then []
    else if Width(bs[0]) > |bs| then [0xFFFD]
    else [DecodeOne(bs)] + Decode(bs[Width(bs[0])..])
  }

  // ---- decoding undoes encoding ----

  lemma WidthOfEncoded(c: CodePoint)
    ensures Width(Encode(c)[0]) == |Encode(c)|
    ensures |Encode(c)| >= 2 ==> Continuation(Encode(c)[1])
    ensures |Encode(c)| >= 3 ==> Continuation(Encode(c)[2])
    ensures |Encode(c)| >= 4 ==> Continuation(Encode(c)[3])
  {
  }

  lemma DecodeEncoded(c: CodePoint, after: Bytes)
    ensures DecodeOne(Encode(c) + after) == c
  {
    WidthOfEncoded(c);
    var bs := Encode(c) + after;
    assert forall i :: 0 <= i < |Encode(c)| ==> bs[i] == Encode(c)[i];
    Digits(c);
  }

  /** The base-64 digits of a scalar value. */
  lemma Digits(c: int)
    requires c >= 0
    ensures c == c / 64 * 64 + c % 64
    ensures c == c / 4096 * 4096 + c / 64 % 64 * 64 + c % 64
    ensures c == c / 262144 * 262144 + c / 4096 % 64 * 4096 + c / 64 % 64 * 64 + c % 64
  {
    assert c / 64 / 64 == c / 4096;
    assert c / 4096 / 64 == c / 262144;
  }

  lemma EncodeLast(t: Text, c: CodePoint)
    ensures EncodeAll(t + [c]) == EncodeAll(t) + Encode(c)
  {
  }

  lemma LastOf(t: Text)
    requires t != []
    ensures t == t[..|t| - 1] + [t[|t| - 1]]
  {
  }

  lemma {:induction false} EncodeConcat(a: Text, b: Text)
    ensures EncodeAll(a + b) == EncodeAll(a) + EncodeAll(b)
  {
    if b == [] {
      assert a + b == a;
    } else {
      var init, c := b[..|b| - 1], b[|b| - 1];
      EncodeConcat(a, init);
      LastOf(b);
      Associates(a, init, [c]);
      EncodeLast(a + init, c);
      Associates(EncodeAll(a), EncodeAll(init), Encode(c));
    }
  }

  lemma EncodeFirst(c: CodePoint, t: Text)
    ensures EncodeAll([c] + t) == Encode(c) + EncodeAll(t)
  {
    EncodeConcat([c], t);
    EncodeLast([], c);
    assert [] + [c] == [c];
  }

  lemma {:induction false} RoundTrip(t: Text)
    ensures Decode(EncodeAll(t)) == t
  {
    if t != [] {
      var c, rest := t[0], t[1..];
      assert t == [c] + rest;
      EncodeFirst(c, rest);
      DecodeEncoded(c, EncodeAll(rest));
      WidthOfEncoded(c);
      var bs := Encode(c) + EncodeAll(rest);
      assert bs[0] == Encode(c)[0] && bs[|Encode(c)|..] == EncodeAll(rest);
      RoundTrip(rest);
    }
  }

  // ---- cuts ----

  /** The bytes of the first i characters. */
  function Length(t: Text, i: nat): nat
    requires i <= |t|
  {
    |EncodeAll(t[..i])|
  }

  lemma CutParts(t: Text, a: Text, b: Text)
    requires t == a + b
    ensures EncodeAll(t) == EncodeAll(a) + EncodeAll(b)
    ensures EncodeAll(t)[..|EncodeAll(a)|] == EncodeAll(a) && EncodeAll(t)[|EncodeAll(a)|..] == EncodeAll(b)
  {
    EncodeConcat(a, b);
    Halves(EncodeAll(a), EncodeAll(b));
  }

  lemma CutInTwo(t: Text, i: nat)
    requires i <= |t|
    ensures EncodeAll(t) == EncodeAll(t[..i]) + EncodeAll(t[i..]) && Length(t, i) <= |EncodeAll(t)|
    ensures EncodeAll(t)[..Length(t, i)] == EncodeAll(t[..i])
    ensures EncodeAll(t)[Length(t, i)..] == EncodeAll(t[i..])
  {
    CutParts(t, t[..i], t[i..]);
  }

  lemma Halves(a: Bytes, b: Bytes)
    ensures (a + b)[..|a|] == a && (a + b)[|a|..] == b
  {
  }

  /** A position that is not inside a character is the end of a number of whole characters. */
  lemma {:induction false} BoundaryIsCut(t: Text, k: nat) returns (i: nat)
    requires k <= |EncodeAll(t)| && (k == |EncodeAll(t)| || !Continuation(EncodeAll(t)[k]))
    ensures i <= |t| && Length(t, i) == k
  {
    if k == |EncodeAll(t)| {
      i := |t|;
      assert t[..i] == t;
    } else {
      var n := |t| - 1;
      var before := EncodeAll(t[..n]);
      if k < |before| {
        assert EncodeAll(t)[k] == before[k];
        i := BoundaryIsCut(t[..n], k);
        assert t[..n][..i] == t[..i];
      } else {
        WidthOfEncoded(t[n]);
        assert EncodeAll(t)[k] == Encode(t[n])[k - |before|];
        i := n;
      }
    }
  }

  lemma FirstByte(t: Text)
    requires t != []
    ensures EncodeAll(t) != [] && !Continuation(EncodeAll(t)[0])
  {
    EncodeFirst(t[0], t[1..]);
    assert t == [t[0]] + t[1..];
  }

  /** Whole characters never end inside one. */
  lemma CutIsBoundary(t: Text, i: nat)
    requires i <= |t|
    ensures Length(t, i) <= |EncodeAll(t)|
    ensures Length(t, i) < |EncodeAll(t)| ==> !Continuation(EncodeAll(t)[Length(t, i)])
  {
    CutInTwo(t, i);
    if i < |t| { FirstByte(t[i..]); }
  }

  lemma {:induction false} LengthGrows(t: Text, i: nat, j: nat)
    requires i <= j <= |t|
    ensures Length(t, i) <= Length(t, j) && (i < j ==> Length(t, i) < Length(t, j))
  {
    if i < j {
      assert t[..j][..j - 1] == t[..j - 1];
      LengthGrows(t, i, j - 1);
    }
  }
}
