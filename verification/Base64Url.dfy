/** Base64 with the URL-safe alphabet (section 5 of RFC 4648), without its trailing padding,
    as core/auth.py uses it for tokens. The decoder is the lenient one of Python's binascii:
    it skips characters outside the alphabet and stops at complete padding. */
module Base64Url {
  import opened Wrappers

  type Byte = b: int | 0 <= b < 256
  type Sextet = v: int | 0 <= v < 64

  function ToChar(v: Sextet): char {
    if v < 26 then 'A' + v as char
    else if v < 52 then 'a' + (v - 26) as char
    else if v < 62 then '0' + (v - 52) as char
    else if v == 62 then '-'
    else '_'
  }

  /** `urlsafe_b64decode` maps '-' and '_' to '+' and '/' and leaves those valid. */
  function FromChar(c: char): Option<Sextet> {
    if 'A' <= c <= 'Z' then Some(c as int - 'A' as int)
    else if 'a' <= c <= 'z' then Some(c as int - 'a' as int + 26)
    else if '0' <= c <= '9' then Some(c as int - '0' as int + 52)
    else if c == '-' || c == '+' then Some(62)
    else if c == '_' || c == '/' then Some(63)
    else None
  }

  /** The bits of the bytes in groups of six; the last one is filled up with zeros. */
  function Sextets(bs: seq<Byte>): seq<Sextet> {
    if bs == [] then []
    else if |bs| == 1 then [bs[0] / 4, bs[0] % 4 * 16]
    else if |bs| == 2 then [bs[0] / 4, bs[0] % 4 * 16 + bs[1] / 16, bs[1] % 16 * 4]
    else [bs[0] / 4, bs[0] % 4 * 16 + bs[1] / 16, bs[1] % 16 * 4 + bs[2] / 64, bs[2] % 64] + Sextets(bs[3..])
  }

  /** The characters of the encoding, without padding. */
  function Body(bs: seq<Byte>): string {
    Chars(Sextets(bs))
  }

  function Chars(vs: seq<Sextet>): string {
    seq(|vs|, i requires 0 <= i < |vs| => ToChar(vs[i]))
  }

  function Repeat(c: char, n: nat): string {
    seq(n, i => c)
  }

  function Encode(bs: seq<Byte>): string {
    Body(bs) + Repeat('=', (3 - |bs| % 3) % 3)
  }

  /** `rstrip("=")` */
  function Strip(s: string): string {
    if s != "" && s[|s| - 1] == '=' then Strip(s[..|s| - 1]) else s
  }

  /** The padding that decoding adds back. */
  function Pad(s: string): string {
    if |s| % 4 != 0 then s + Repeat('=', 4 - |s| % 4) else s
  }

  /** The decoder between two characters: position in the group of four, bits left over from
      the last character, padding characters seen. */
  datatype Quad = Quad(pos: nat, left: nat, pads: nat) {
    predicate Valid() {
      pos < 4 && left < (if pos == 1 then 64 else if pos == 2 then 16 else if pos == 3 then 4 else 1)
    }
  }

  const START := Quad(0, 0, 0)

  /** One alphabet character. */
  function Shift(q: Quad, v: Sextet): (r: (Quad, seq<Byte>))
    requires q.Valid()
    ensures r.0.Valid()
  {
    if q.pos == 0 then (Quad(1, v, 0), [])
    else if q.pos == 1 then (Quad(2, v % 16, 0), [q.left * 4 + v / 16])
    else if q.pos == 2 then (Quad(3, v % 4, 0), [q.left * 16 + v / 4])
    else (Quad(0, 0, 0), [q.left * 64 + v])
  }

  /** The output, when `s` is still to be read and `out` was written. */
  function DecodeFrom(s: string, q: Quad, out: seq<Byte>): Option<seq<Byte>>
    requires q.Valid()
  {
    if s == "" then
      if q.pos == 0 then Some(out) else None
    else if s[0] == '=' then
      if q.pos >= 2 && q.pos + q.pads + 1 >= 4 then Some(out)
      else DecodeFrom(s[1..], if q.pos >= 2 then q.(pads := q.pads + 1) else q, out)
    else
      match FromChar(s[0])
      case None => DecodeFrom(s[1..], q, out)
      case Some(v) => DecodeFrom(s[1..], Shift(q, v).0, out + Shift(q, v).1)
  }

  function Decoded(s: string): Option<seq<Byte>> {
    DecodeFrom(s, START, [])
  }

  /** The decoder as it runs: one pass with a growing output. */
  method Decode(s: string) returns (r: Option<seq<Byte>>)
    ensures r == Decoded(s)
  {
    var q, out := START, [];
    var i := 0;
    while i < |s|
      invariant 0 <= i <= |s| && q.Valid()
      invariant DecodeFrom(s, START, []) == DecodeFrom(s[i..], q, out)
    {
      var c := s[i];
      assert s[i..][1..] == s[i + 1..];
      if c == '=' {
        if q.pos >= 2 && q.pos + q.pads + 1 >= 4 {
          return Some(out);
        }
        if q.pos >= 2 {
          q := q.(pads := q.pads + 1);
        }
      } else if FromChar(c).Some? {
        var (q', bytes) := Shift(q, FromChar(c).value);
        q, out := q', out + bytes;
      }
      i := i + 1;
    }
    return if q.pos == 0 then Some(out) else None;
  }

  // ---------------------------------------------------------------------------
  // Round trip
  // ---------------------------------------------------------------------------

  lemma CharsRoundTrip(v: Sextet)
    ensures FromChar(ToChar(v)) == Some(v) && ToChar(v) != '=' && ToChar(v) != ':'
  {
  }

  /** The alphabet of table 2 in section 5 of RFC 4648: four runs of consecutive characters. */
  lemma AlphabetOfStandard(v: Sextet)
    ensures [ToChar(0), ToChar(25), ToChar(26), ToChar(51)] == ['A', 'Z', 'a', 'z']
    ensures [ToChar(52), ToChar(61), ToChar(62), ToChar(63)] == ['0', '9', '-', '_']
    ensures v !in {25, 51, 61, 62, 63} ==> ToChar(v + 1) as int == ToChar(v) as int + 1
  {
  }

  lemma EncodingIs(bs: seq<Byte>, body: string, pads: nat)
    requires |Sextets(bs)| == |body| && pads == (3 - |bs| % 3) % 3
    requires forall i :: 0 <= i < |body| ==> body[i] == ToChar(Sextets(bs)[i])
    ensures Encode(bs) == body + Repeat('=', pads)
  {
    assert Body(bs) == body;
  }

  /** Test vectors of section 10 of RFC 4648, "f", "fo", "foo" and "foob", and the two
      characters in which the URL-safe alphabet differs. */
  lemma VectorsOfStandard()
    ensures Encode([]) == ""
    ensures Encode([102]) == "Zg" + Repeat('=', 2)
    ensures Encode([102, 111]) == "Zm8" + Repeat('=', 1)
    ensures Encode([102, 111, 111]) == "Zm9v" + Repeat('=', 0)
    ensures Encode([102, 111, 111, 98]) == "Zm9vYg" + Repeat('=', 2)
    ensures Encode([251, 255]) == "-_8" + Repeat('=', 1)
  {
    EncodingIs([102], "Zg", 2);
    EncodingIs([102, 111], "Zm8", 1);
    var foo: seq<Byte> := [102, 111, 111];
    assert foo[3..] == [];
    EncodingIs(foo, "Zm9v", 0);
    VectorOfFour();
    EncodingIs([251, 255], "-_8", 1);
  }

  lemma VectorOfFour()
    ensures Encode([102, 111, 111, 98]) == "Zm9vYg" + Repeat('=', 2)
  {
    var foob: seq<Byte> := [102, 111, 111, 98];
    assert foob[3..] == [98];
    assert Sextets(foob) == [25, 38, 61, 47] + [24, 32];
    EncodingIs(foob, "Zm9vYg", 2);
  }

  /** As many groups of six bits as it takes. */
  lemma {:induction false} CountOfSextets(bs: seq<Byte>)
    ensures |Sextets(bs)| == (8 * |bs| + 5) / 6
  {
    if |bs| < 3 {
    } else {
      CountOfSextets(bs[3..]);
    }
  }

  /** The encoding is padded to a whole number of groups of four. */
  lemma EncodingIsPadded(bs: seq<Byte>)
    ensures |Encode(bs)| % 4 == 0 && Body(bs) <= Encode(bs) && |Encode(bs)| < |Body(bs)| + 4
  {
    SextetCount(bs);
  }

  lemma {:induction false} SextetCount(bs: seq<Byte>)
    ensures |Sextets(bs)| % 4 == (if |bs| % 3 == 0 then 0 else |bs| % 3 + 1)
  {
    if |bs| >= 3 {
      SextetCount(bs[3..]);
      assert |Sextets(bs)| == 4 + |Sextets(bs[3..])|;
    }
  }

  /** No padding character and no colon among the encoded characters. */
  lemma BodyIsClean(bs: seq<Byte>)
    ensures '=' !in Body(bs) && ':' !in Body(bs)
    ensures |Body(bs)| % 4 == (if |bs| % 3 == 0 then 0 else |bs| % 3 + 1)
  {
    SextetCount(bs);
    forall i | 0 <= i < |Body(bs)| ensures Body(bs)[i] != '=' && Body(bs)[i] != ':' {
      CharsRoundTrip(Sextets(bs)[i]);
    }
  }

  lemma {:induction false} StripRepeat(s: string, n: nat)
    requires s == "" || s[|s| - 1] != '='
    ensures Strip(s + Repeat('=', n)) == s
  {
    if n == 0 {
      assert s + Repeat('=', 0) == s;
    } else {
      assert (s + Repeat('=', n))[..|s| + n - 1] == s + Repeat('=', n - 1);
      StripRepeat(s, n - 1);
    }
  }

  /** Padding restores what stripping took away. */
  lemma PadUndoesStrip(bs: seq<Byte>)
    ensures Strip(Encode(bs)) == Body(bs) && Pad(Strip(Encode(bs))) == Encode(bs)
  {
    var n := (3 - |bs| % 3) % 3;
    BodyIsClean(bs);
    assert Body(bs) == "" || Body(bs)[|Body(bs)| - 1] != '=';
    StripRepeat(Body(bs), n);
    if n == 0 {
      assert Encode(bs) == Body(bs);
    } else {
      assert 4 - |Body(bs)| % 4 == n;
    }
  }

  /** The decoder's state and output after reading characters of the alphabet. */
  function ShiftAll(vs: seq<Sextet>, q: Quad, out: seq<Byte>): (r: (Quad, seq<Byte>))
    requires q.Valid()
    ensures r.0.Valid()
  {
    if vs == [] then (q, out) else ShiftAll(vs[1..], Shift(q, vs[0]).0, out + Shift(q, vs[0]).1)
  }

  lemma {:induction false} DecodeReadsChars(vs: seq<Sextet>, tail: string, q: Quad, out: seq<Byte>)
    requires q.Valid()
    ensures DecodeFrom(Chars(vs) + tail, q, out) == DecodeFrom(tail, ShiftAll(vs, q, out).0, ShiftAll(vs, q, out).1)
  {
    if vs == [] {
      assert Chars(vs) + tail == tail;
    } else {
      CharsRoundTrip(vs[0]);
      assert (Chars(vs) + tail)[1..] == Chars(vs[1..]) + tail;
      DecodeReadsChars(vs[1..], tail, Shift(q, vs[0]).0, out + Shift(q, vs[0]).1);
    }
  }

  function First(v: Sextet, w: Sextet): Byte { v as int * 4 + w / 16 }

  function Second(v: Sextet, w: Sextet): Byte { v % 16 * 16 as int + w / 4 }

  function Third(v: Sextet, w: Sextet): Byte { v % 4 * 64 as int + w }

  lemma ShiftCons(v: Sextet, tail: seq<Sextet>, q: Quad, out: seq<Byte>)
    requires q.Valid()
    ensures ShiftAll([v] + tail, q, out) == ShiftAll(tail, Shift(q, v).0, out + Shift(q, v).1)
  {
    assert ([v] + tail)[1..] == tail;
  }

  /** Two characters complete the first byte of a group. */
  lemma ShiftTwo(v: Sextet, w: Sextet, tail: seq<Sextet>, out: seq<Byte>)
    ensures ShiftAll([v] + ([w] + tail), START, out) == ShiftAll(tail, Quad(2, w % 16, 0), out + [First(v, w)])
  {
    ShiftCons(v, [w] + tail, START, out);
    assert out + [] == out;
    ShiftCons(w, tail, Quad(1, v, 0), out);
  }

  /** Four characters make three bytes. */
  lemma ShiftFour(v0: Sextet, v1: Sextet, v2: Sextet, v3: Sextet, tail: seq<Sextet>, out: seq<Byte>)
    ensures ShiftAll([v0] + ([v1] + ([v2] + ([v3] + tail))), START, out)
         == ShiftAll(tail, START, out + [First(v0, v1), Second(v1, v2), Third(v2, v3)])
  {
    ShiftTwo(v0, v1, [v2] + ([v3] + tail), out);
    ShiftCons(v2, [v3] + tail, Quad(2, v1 % 16, 0), out + [First(v0, v1)]);
    ShiftCons(v3, tail, Quad(3, v2 % 4, 0), out + [First(v0, v1)] + [Second(v1, v2)]);
    assert out + [First(v0, v1)] + [Second(v1, v2)] + [Third(v2, v3)]
        == out + [First(v0, v1), Second(v1, v2), Third(v2, v3)];
  }

  /** The sextets of a group give its bytes back. */
  lemma GroupArithmetic(a: Byte, b: Byte, c: Byte)
    ensures First(a / 4, a % 4 * 16 + b / 16) == a
    ensures Second(a % 4 * 16 + b / 16, b % 16 * 4 + c / 64) == b
    ensures Third(b % 16 * 4 + c / 64, c % 64) == c
    ensures (b % 16 * 4) % 4 == 0 && (a % 4 * 16) % 16 == 0
  {
  }

  lemma ShiftGroup(a: Byte, b: Byte, c: Byte, tail: seq<Sextet>, out: seq<Byte>)
    ensures ShiftAll([a / 4, a % 4 * 16 + b / 16, b % 16 * 4 + c / 64, c % 64] + tail, START, out)
         == ShiftAll(tail, START, out + [a, b, c])
  {
    var v0, v1, v2, v3 := a / 4, a % 4 * 16 + b / 16, b % 16 * 4 + c / 64, c % 64;
    GroupArithmetic(a, b, c);
    assert [v0, v1, v2, v3] + tail == [v0] + ([v1] + ([v2] + ([v3] + tail)));
    ShiftFour(v0, v1, v2, v3, tail, out);
  }

  lemma ShiftLastOne(a: Byte, out: seq<Byte>)
    ensures ShiftAll([a / 4, a % 4 * 16], START, out) == (Quad(2, 0, 0), out + [a])
  {
    GroupArithmetic(a, 0, 0);
    assert [a / 4, a % 4 * 16] == [a / 4] + ([a % 4 * 16] + []);
    ShiftTwo(a / 4, a % 4 * 16, [], out);
  }

  lemma ShiftLastTwo(a: Byte, b: Byte, out: seq<Byte>)
    ensures ShiftAll([a / 4, a % 4 * 16 + b / 16, b % 16 * 4], START, out) == (Quad(3, 0, 0), out + [a, b])
  {
    var v0, v1, v2 := a / 4, a % 4 * 16 + b / 16, b % 16 * 4;
    GroupArithmetic(a, b, 0);
    assert [v0, v1, v2] == [v0] + ([v1] + ([v2] + []));
    ShiftTwo(v0, v1, [v2] + [], out);
    ShiftCons(v2, [], Quad(2, v1 % 16, 0), out + [a]);
    assert out + [a] + [b] == out + [a, b];
  }

  /** Where the decoder stands after the sextets of `n` bytes. */
  function AfterBytes(n: nat): Quad {
    Quad(if n % 3 == 0 then 0 else n % 3 + 1, 0, 0)
  }

  lemma AfterThreeMore(n: nat)
    requires n >= 3
    ensures AfterBytes(n) == AfterBytes(n - 3)
  {
  }

  lemma ThreeAndRest(bs: seq<Byte>, out: seq<Byte>)
    requires |bs| >= 3
    ensures out + bs[..3] + bs[3..] == out + bs
  {
  }

  /** Reading the sextets of some bytes writes those bytes. */
  lemma {:induction false} ShiftAllUndoesSextets(bs: seq<Byte>, out: seq<Byte>)
    ensures ShiftAll(Sextets(bs), START, out) == (AfterBytes(|bs|), out + bs)
  {
    if |bs| < 3 {
      ShiftLast(bs, out);
    } else {
      ShiftFirstGroup(bs, out);
      ShiftAllUndoesSextets(bs[3..], out + bs[..3]);
      AfterThreeMore(|bs|);
      ThreeAndRest(bs, out);
    }
  }

  lemma ShiftFirstGroup(bs: seq<Byte>, out: seq<Byte>)
    requires |bs| >= 3
    ensures ShiftAll(Sextets(bs), START, out) == ShiftAll(Sextets(bs[3..]), START, out + bs[..3])
  {
    assert bs[..3] == [bs[0], bs[1], bs[2]];
    ShiftGroup(bs[0], bs[1], bs[2], Sextets(bs[3..]), out);
  }

  lemma ShiftLast(bs: seq<Byte>, out: seq<Byte>)
    requires |bs| < 3
    ensures ShiftAll(Sextets(bs), START, out) == (AfterBytes(|bs|), out + bs)
  {
    if |bs| == 0 {
      assert out + bs == out;
    } else if |bs| == 1 {
      assert bs == [bs[0]];
      ShiftLastOne(bs[0], out);
    } else {
      assert bs == [bs[0], bs[1]];
      ShiftLastTwo(bs[0], bs[1], out);
    }
  }

  /** The padding completes the group and ends the decoding. */
  lemma DecodePadding(q: Quad, out: seq<Byte>)
    requires q.Valid() && q.pads == 0 && q.pos != 1
    ensures DecodeFrom(Repeat('=', (4 - q.pos) % 4), q, out) == Some(out)
  {
    assert q.pos == 2 ==> Repeat('=', 2)[1..] == Repeat('=', 1);
  }

  /** Stripped, re-padded and decoded, every byte string comes back. */
  lemma RoundTrip(bs: seq<Byte>)
    ensures Decoded(Pad(Strip(Encode(bs)))) == Some(bs)
    ensures ':' !in Strip(Encode(bs))
  {
    PadUndoesStrip(bs);
    BodyIsClean(bs);
    DecodeReadsChars(Sextets(bs), Repeat('=', (3 - |bs| % 3) % 3), START, []);
    ShiftAllUndoesSextets(bs, []);
    DecodePadding(ShiftAll(Sextets(bs), START, []).0, bs);
    assert [] + bs == bs;
  }

  // ---------------------------------------------------------------------------
  // Leniency of the decoder
  // ---------------------------------------------------------------------------

  /** The decoder skips a character outside the alphabet wherever it stands. */
  lemma {:induction false} DecodeSkips(s: string, c: char, t: string, q: Quad, out: seq<Byte>)
    requires q.Valid() && FromChar(c) == None && c != '='
    ensures DecodeFrom(s + [c] + t, q, out) == DecodeFrom(s + t, q, out)
  {
    if s == "" {
      assert s + [c] + t == [c] + t && s + t == t && ([c] + t)[1..] == t;
    } else {
      var a, b := s + [c] + t, s + t;
      assert a[0] == s[0] == b[0] && a[1..] == s[1..] + [c] + t && b[1..] == s[1..] + t;
      if s[0] == '=' {
        if !(q.pos >= 2 && q.pos + q.pads + 1 >= 4) {
          DecodeSkips(s[1..], c, t, if q.pos >= 2 then q.(pads := q.pads + 1) else q, out);
        }
      } else {
        match FromChar(s[0])
        case None => DecodeSkips(s[1..], c, t, q, out);
        case Some(v) => DecodeSkips(s[1..], c, t, Shift(q, v).0, out + Shift(q, v).1);
      }
    }
  }

  lemma {:induction false} PositionAfter(vs: seq<Sextet>, q: Quad, out: seq<Byte>)
    requires q.Valid()
    ensures ShiftAll(vs, q, out).0.pos == (q.pos + |vs|) % 4
  {
    if vs == [] {
    } else {
      PositionAfter(vs[1..], Shift(q, vs[0]).0, out + Shift(q, vs[0]).1);
    }
  }

  /** Without padding exactly the whole groups of four characters decode. */
  lemma UnpaddedDecodesExactly(vs: seq<Sextet>)
    ensures Decoded(Chars(vs)).Some? <==> |vs| % 4 == 0
  {
    DecodeReadsChars(vs, "", START, []);
    assert Chars(vs) + "" == Chars(vs);
    PositionAfter(vs, START, []);
  }

  /** Both alphabets decode alike. */
  lemma BothAlphabets()
    ensures FromChar('+') == FromChar('-') == Some(62) && FromChar('/') == FromChar('_') == Some(63)
  {
  }

  /** A padding character that does not complete a group is skipped before more characters. */
  lemma LonePadIsSkipped(c: char, t: string, q: Quad, out: seq<Byte>)
    requires q.Valid() && q.pads == 0 && q.pos != 3 && FromChar(c).Some?
    ensures DecodeFrom(['='] + ([c] + t), q, out) == DecodeFrom([c] + t, q, out)
  {
    assert (['='] + ([c] + t))[1..] == [c] + t && ([c] + t)[1..] == t;
  }

  /** What follows complete padding is ignored. */
  lemma TextAfterPaddingIsIgnored(t: string, q: Quad, out: seq<Byte>)
    requires q.Valid() && q.pads == 0 && q.pos >= 2
    ensures DecodeFrom(Repeat('=', 4 - q.pos) + t, q, out) == Some(out)
  {
    assert q.pos == 2 ==> (Repeat('=', 2) + t)[1..] == Repeat('=', 1) + t;
  }
}
