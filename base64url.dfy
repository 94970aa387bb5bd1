/**
 * The URL- and filename-safe Base64 alphabet of section 5 of RFC 4648, written
 * without '=' padding, as Django's `urlsafe_base64_encode` produces it and
 * `urlsafe_base64_decode` reads it back.
 */
module Base64Url {
  import opened Wrappers

  type Byte = b: int | 0 <= b < 256

  /** Character of the base64url alphabet for a 6-bit value. */
  function Letter(v: nat): (c: char)
    requires v < 64
    ensures LetterValue(c) == Some(v)
    ensures c != '/' && c != '='
  {
    if v < 26 then ('A' as int + v) as char
    else if v < 52 then ('a' as int + (v - 26)) as char
    else if v < 62 then ('0' as int + (v - 52)) as char
    else if v == 62 then '-'
    else '_'
  }

  /** 6-bit value of a base64url character; None for anything outside the alphabet. */
  function LetterValue(c: char): (r: Option<nat>)
    ensures r.Some? ==> r.value < 64
  {
    if 'A' <= c <= 'Z' then Some(c as int - 'A' as int)
    else if 'a' <= c <= 'z' then Some(c as int - 'a' as int + 26)
    else if '0' <= c <= '9' then Some(c as int - '0' as int + 52)
    else if c == '-' then Some(62)
    else if c == '_' then Some(63)
    else None
  }

  /** Base64url encoding without padding: 4 letters per 3 bytes, 2 or 3 for a short tail. */
  function Encode(bs: seq<Byte>): (s: string)
    ensures forall i :: 0 <= i < |s| ==> LetterValue(s[i]).Some?
    ensures '/' !in s
    decreases |bs|
  {
    if |bs| == 0 then ""
    else if |bs| == 1 then
      [Letter(bs[0] / 4), Letter((bs[0] % 4) * 16)]
    else if |bs| == 2 then
      [Letter(bs[0] / 4), Letter((bs[0] % 4) * 16 + bs[1] / 16), Letter((bs[1] % 16) * 4)]
    else
      [Letter(bs[0] / 4), Letter((bs[0] % 4) * 16 + bs[1] / 16),
       Letter((bs[1] % 16) * 4 + bs[2] / 64), Letter(bs[2] % 64)] + Encode(bs[3..])
  }

  /**
   * Decoding: every character must be in the alphabet and the length must not
   * leave a single dangling letter; unused low bits of a short tail are ignored.
   */
  function Decode(s: string): (r: Option<seq<Byte>>)
    ensures r.Some? <==> |s| % 4 != 1 && forall i :: 0 <= i < |s| ==> LetterValue(s[i]).Some?
    decreases |s|
  {
    if |s| == 0 then Some([])
    else if |s| == 1 then None
    else
      var v0, v1 := LetterValue(s[0]), LetterValue(s[1]);
      if v0.None? || v1.None? then None
      else
        var b0: Byte := v0.value * 4 + v1.value / 16;
        if |s| == 2 then Some([b0])
        else
          var v2 := LetterValue(s[2]);
          if v2.None? then None
          else
            var b1: Byte := (v1.value % 16) * 16 + v2.value / 4;
            if |s| == 3 then Some([b0, b1])
            else
              var v3 := LetterValue(s[3]);
              if v3.None? then None
              else
                var b2: Byte := (v2.value % 4) * 64 + v3.value;
                match Decode(s[4..])
                case None => None
                case Some(rest) => Some([b0, b1, b2] + rest)
  }

  /** The bit arithmetic of one full group undoes itself. */
  lemma GroupRoundTrip(b0: Byte, b1: Byte, b2: Byte)
    ensures (b0 / 4) * 4 + ((b0 % 4) * 16 + b1 / 16) / 16 == b0
    ensures (((b0 % 4) * 16 + b1 / 16) % 16) * 16 + ((b1 % 16) * 4 + b2 / 64) / 4 == b1
    ensures (((b1 % 16) * 4 + b2 / 64) % 4) * 64 + b2 % 64 == b2
  {
  }

  lemma OneByteRoundTrip(b0: Byte)
    ensures Decode(Encode([b0])) == Some([b0])
  {
    GroupRoundTrip(b0, 0, 0);
    var s := Encode([b0]);
    assert s == [Letter(b0 / 4), Letter((b0 % 4) * 16)];
  }

  lemma TwoByteRoundTrip(b0: Byte, b1: Byte)
    ensures Decode(Encode([b0, b1])) == Some([b0, b1])
  {
    GroupRoundTrip(b0, b1, 0);
    var s := Encode([b0, b1]);
    assert s == [Letter(b0 / 4), Letter((b0 % 4) * 16 + b1 / 16), Letter((b1 % 16) * 4)];
  }

  lemma GroupDecode(b0: Byte, b1: Byte, b2: Byte, t: string)
    ensures Decode(Encode([b0, b1, b2]) + t) ==
            match Decode(t) case None => None case Some(rest) => Some([b0, b1, b2] + rest)
  {
    GroupRoundTrip(b0, b1, b2);
    var s := Encode([b0, b1, b2]) + t;
    assert Encode([b0, b1, b2]) == [Letter(b0 / 4), Letter((b0 % 4) * 16 + b1 / 16),
                                    Letter((b1 % 16) * 4 + b2 / 64), Letter(b2 % 64)] + Encode([]);
    assert s[4..] == t;
  }

  /** Decoding the encoding of any byte string gives the bytes back. */
  lemma {:induction false} RoundTrip(bs: seq<Byte>)
    ensures Decode(Encode(bs)) == Some(bs)
    decreases |bs|
  {
    if |bs| == 0 {
    } else if |bs| == 1 {
      assert bs == [bs[0]];
      OneByteRoundTrip(bs[0]);
    } else if |bs| == 2 {
      assert bs == [bs[0], bs[1]];
      TwoByteRoundTrip(bs[0], bs[1]);
    } else {
      var head := [bs[0], bs[1], bs[2]];
      assert Encode(bs) == Encode(head) + Encode(bs[3..]);
      GroupDecode(bs[0], bs[1], bs[2], Encode(bs[3..]));
      RoundTrip(bs[3..]);
      assert head + bs[3..] == bs;
    }
  }
}
