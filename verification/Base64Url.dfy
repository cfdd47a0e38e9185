/** Base64 with the URL-safe alphabet (section 5 of RFC 4648), its padding stripped by the
    writer and restored by the reader. */
module Base64Url {
  import opened Text

  type Byte = x: int | 0 <= x < 256
  type Sextet = x: int | 0 <= x < 64

  function Letter(s: Sextet): char {
    if s < 26 then 'A' + s as char
    else if s < 52 then 'a' + (s - 26) as char
    else if s < 62 then '0' + (s - 52) as char
    else if s == 62 then '-' else '_'
  }

  predicate IsLetter(c: char) {
    'A' <= c <= 'Z' || 'a' <= c <= 'z' || '0' <= c <= '9' || c == '-' || c == '_'
  }

  function Value(c: char): Sextet
    requires IsLetter(c)
  {
    if 'A' <= c <= 'Z' then (c - 'A') as int
    else if 'a' <= c <= 'z' then (c - 'a') as int + 26
    else if '0' <= c <= '9' then (c - '0') as int + 52
    else if c == '-' then 62 else 63
  }

  lemma LetterValue(s: Sextet)
    ensures IsLetter(Letter(s)) && Value(Letter(s)) == s && Letter(s) != '='
  {
  }

  predicate AllLetters(s: string) {
    forall i :: 0 <= i < |s| ==> IsLetter(s[i])
  }

  // Three bytes as four sextets, and back.

  function S0(x: Byte): Sextet { x / 4 }
  function S1(x: Byte, y: Byte): Sextet { x % 4 * 16 + y / 16 }
  function S2(y: Byte, z: Byte): Sextet { y % 16 * 4 + z / 64 }
  function S3(z: Byte): Sextet { z % 64 }
  function B0(s: Sextet, t: Sextet): Byte { s * 4 + t / 16 }
  function B1(t: Sextet, u: Sextet): Byte { t % 16 * 16 + u / 4 }
  function B2(u: Sextet, v: Sextet): Byte { u % 4 * 64 + v }

  lemma Regrouped(x: Byte, y: Byte, z: Byte)
    ensures B0(S0(x), S1(x, y)) == x && B1(S1(x, y), S2(y, z)) == y && B2(S2(y, z), S3(z)) == z
  {
  }

  /** The standard encoding, padded with `=` to a multiple of four. */
  function Padded(b: seq<Byte>): string {
    if b == [] then ""
    else if |b| == 1 then [Letter(S0(b[0])), Letter(S1(b[0], 0)), '=', '=']
    else if |b| == 2 then [Letter(S0(b[0])), Letter(S1(b[0], b[1])), Letter(S2(b[1], 0)), '=']
    else [Letter(S0(b[0])), Letter(S1(b[0], b[1])), Letter(S2(b[1], b[2])), Letter(S3(b[2]))] + Padded(b[3..])
  }

  /** `.rstrip(b"=")`. */
  function Stripped(s: string): string {
    if s != "" && s[|s| - 1] == '=' then Stripped(s[..|s| - 1]) else s
  }

  function Pad(n: nat): string {
    if n == 0 then "" else "=" + Pad(n - 1)
  }

  /** `-len(data) % 4`. */
  function Missing(n: nat): nat {
    (0 - n) % 4
  }

  function Restored(data: string): string {
    data + Pad(Missing(|data|))
  }

  /** One group of four characters: three, two or one bytes, or nothing it can mean.  Unused
      trailing bits are ignored. */
  function Quad(q: string): Option<seq<Byte>>
    requires |q| >= 4
  {
    if !IsLetter(q[0]) || !IsLetter(q[1]) then None
    else if q[2] == '=' && q[3] == '=' then Some([B0(Value(q[0]), Value(q[1]))])
    else if !IsLetter(q[2]) then None
    else if q[3] == '=' then Some([B0(Value(q[0]), Value(q[1])), B1(Value(q[1]), Value(q[2]))])
    else if !IsLetter(q[3]) then None
    else Some([B0(Value(q[0]), Value(q[1])), B1(Value(q[1]), Value(q[2])), B2(Value(q[2]), Value(q[3]))])
  }

  /** Strict decoding: whole groups only, a short group only at the end. */
  function Decoded(s: string): Option<seq<Byte>> {
    if s == "" then Some([])
    else if |s| < 4 || Quad(s).None? || (|s| > 4 && |Quad(s).value| < 3) then None
    else
      match Decoded(s[4..])
      case None => None
      case Some(tail) => Some(Quad(s).value + tail)
  }

  function Encode(b: seq<Byte>): string {
    Stripped(Padded(b))
  }

  function Decode(data: string): Option<seq<Byte>> {
    Decoded(Restored(data))
  }

  lemma FirstQuad(b: seq<Byte>)
    requires b != []
    ensures |Padded(b)| >= 4 && Quad(Padded(b)) == Some(if |b| < 3 then b else b[..3])
    ensures |Padded(b)| > 4 ==> |b| >= 3
    ensures Padded(b)[4..] == if |b| < 3 then "" else Padded(b[3..])
  {
    hide Letter, Value, IsLetter, S0, S1, S2, S3, B0, B1, B2;
    NotPadding();
    var x, y, z := b[0], (if |b| > 1 then b[1] else 0), (if |b| > 2 then b[2] else 0);
    Regrouped(x, y, z);
    LetterValue(S0(x));
    LetterValue(S1(x, y));
    LetterValue(S2(y, z));
    LetterValue(S3(z));
    assert |b| == 1 ==> b == [x];
    assert |b| == 2 ==> b == [x, y];
    assert |b| >= 3 ==> b[..3] == [x, y, z];
  }

  lemma NotPadding()
    ensures !IsLetter('=')
  {
  }

  lemma DecodedStep(s: string, head: seq<Byte>, tail: seq<Byte>)
    requires |s| >= 4 && Quad(s) == Some(head) && (|s| > 4 ==> |head| >= 3) && Decoded(s[4..]) == Some(tail)
    ensures Decoded(s) == Some(head + tail)
  {
  }

  lemma {:induction false} DecodedOfPadded(b: seq<Byte>)
    ensures Decoded(Padded(b)) == Some(b)
  {
    hide Padded, Quad, Decoded;
    EmptyDecoded();
    if b != [] {
      FirstQuad(b);
      var rest := if |b| < 3 then [] else b[3..];
      if |b| >= 3 {
        DecodedOfPadded(b[3..]);
      }
      DecodedStep(Padded(b), if |b| < 3 then b else b[..3], rest);
      assert b == (if |b| < 3 then b else b[..3]) + rest;
    }
  }

  lemma EmptyDecoded()
    ensures Padded([]) == "" && Decoded("") == Some([])
  {
  }

  lemma {:induction false} PadBack(n: nat)
    ensures |Pad(n)| == n && Pad(n + 1) == Pad(n) + "="
  {
    if n > 0 {
      PadBack(n - 1);
    }
  }

  lemma TwoStripped(s: string)
    requires |s| == 4 && s[2] == '=' && s[3] == '=' && s[1] != '='
    ensures Stripped(s) == s[..2] && Restored(s[..2]) == s
  {
    assert s[..3][..2] == s[..2];
    assert Stripped(s[..3]) == s[..2];
    assert Pad(2) == "=" + Pad(1) && Pad(1) == "=" + Pad(0);
  }

  lemma OneStripped(s: string)
    requires |s| == 4 && s[3] == '=' && s[2] != '='
    ensures Stripped(s) == s[..3] && Restored(s[..3]) == s
  {
    assert Stripped(s[..3]) == s[..3];
    assert Pad(1) == "=" + Pad(0);
  }

  lemma ShortGroup(b: seq<Byte>)
    requires 0 < |b| < 3
    ensures AllLetters(Encode(b)) && Restored(Encode(b)) == Padded(b) && Encode(b) != ""
  {
    hide Letter, Value, IsLetter, S0, S1, S2, Stripped, Restored;
    LetterValue(S0(b[0]));
    if |b| == 1 {
      LetterValue(S1(b[0], 0));
      TwoStripped(Padded(b));
    } else {
      LetterValue(S1(b[0], b[1]));
      LetterValue(S2(b[1], 0));
      OneStripped(Padded(b));
    }
  }

  lemma LongGroup(b: seq<Byte>)
    requires |b| >= 3
    ensures |Padded(b)| >= 4 && AllLetters(Padded(b)[..4]) && Padded(b)[3] != '=' && Padded(b)[4..] == Padded(b[3..])
  {
    hide Letter, Value, IsLetter, S0, S1, S2, S3;
    LetterValue(S0(b[0]));
    LetterValue(S1(b[0], b[1]));
    LetterValue(S2(b[1], b[2]));
    LetterValue(S3(b[2]));
  }

  lemma MissingRepeats(n: nat)
    ensures Missing(n + 4) == Missing(n)
  {
  }

  lemma RestoredOfSum(head: string, rest: string)
    requires |head| == 4
    ensures Restored(head + rest) == head + Restored(rest)
  {
    hide Missing, Pad;
    MissingRepeats(|rest|);
  }

  lemma NoBytes()
    ensures Padded([]) == "" && Stripped("") == "" && Restored("") == ""
  {
  }

  /** Stripping leaves letters only, and takes exactly the padding that restoring adds. */
  lemma {:induction false} StrippedOfPadded(b: seq<Byte>)
    ensures AllLetters(Encode(b)) && Restored(Encode(b)) == Padded(b) && (b != [] ==> Encode(b) != "")
  {
    hide Padded, IsLetter, Missing, Stripped, Restored, Pad;
    if b == [] {
      NoBytes();
    } else if |b| < 3 {
      ShortGroup(b);
    } else {
      LongGroup(b);
      var head, tail := Padded(b)[..4], Padded(b)[4..];
      StrippedOfPadded(b[3..]);
      StrippedOfSum(head, tail);
      assert Padded(b) == head + tail;
      RestoredOfSum(head, Stripped(tail));
    }
  }

  lemma {:induction false} StrippedOfSum(head: string, tail: string)
    requires head != "" && head[|head| - 1] != '='
    ensures Stripped(head + tail) == head + Stripped(tail)
    decreases |tail|
  {
    if tail == "" {
      assert head + tail == head;
    } else if tail[|tail| - 1] == '=' {
      assert (head + tail)[..|head + tail| - 1] == head + tail[..|tail| - 1];
      StrippedOfSum(head, tail[..|tail| - 1]);
    }
  }

  /** Reading back what was written, for bytes of any length. */
  lemma DecodeEncode(b: seq<Byte>)
    ensures Decode(Encode(b)) == Some(b)
  {
    StrippedOfPadded(b);
    DecodedOfPadded(b);
  }

  /** No padding count makes sense of a single left-over character. */
  lemma {:induction false} LoneCharacter(data: string)
    requires |data| % 4 == 1 && AllLetters(data)
    ensures Decode(data) == None
    decreases |data|
  {
    hide IsLetter, Value, B0, B1, B2;
    NotPadding();
    if |data| == 1 {
      assert Pad(3) == "=" + Pad(2);
      assert Missing(1) == 3;
    } else {
      LoneCharacter(data[4..]);
      MissingRepeats(|data| - 4);
      assert Restored(data)[4..] == Restored(data[4..]);
    }
  }

  /** The letters are these, up to bits of the last one that stand for no byte. */
  ghost predicate Writes(b: seq<Byte>, data: string) {
    && |Encode(b)| == |data| && (forall i :: 0 <= i < |data| - 1 ==> Encode(b)[i] == data[i])
    && (data != "" && |data| % 4 == 0 ==> Encode(b)[|data| - 1] == data[|data| - 1])
    && (|data| % 4 == 2 ==> IsLetter(Encode(b)[|data| - 1]) && IsLetter(data[|data| - 1])
                            && Value(Encode(b)[|data| - 1]) == Value(data[|data| - 1]) / 16 * 16)
    && (|data| % 4 == 3 ==> IsLetter(Encode(b)[|data| - 1]) && IsLetter(data[|data| - 1])
                            && Value(Encode(b)[|data| - 1]) == Value(data[|data| - 1]) / 4 * 4)
  }

  lemma LetterOfValue(c: char)
    requires IsLetter(c)
    ensures Letter(Value(c)) == c
  {
  }

  lemma Sextets(s: Sextet, t: Sextet, u: Sextet, v: Sextet)
    ensures S0(B0(s, t)) == s && S1(B0(s, t), B1(t, u)) == t && S2(B1(t, u), B2(u, v)) == u && S3(B2(u, v)) == v
    ensures S1(B0(s, t), 0) == t / 16 * 16 && S2(B1(t, u), 0) == u / 4 * 4
  {
  }

  lemma EncodeLong(b: seq<Byte>)
    requires |b| >= 3
    ensures Encode(b) == [Letter(S0(b[0])), Letter(S1(b[0], b[1])), Letter(S2(b[1], b[2])), Letter(S3(b[2]))] + Encode(b[3..])
  {
    hide Letter, S0, S1, S2, S3, Stripped;
    LongGroup(b);
    var head := Padded(b)[..4];
    StrippedOfSum(head, Padded(b[3..]));
    assert Padded(b) == head + Padded(b[3..]);
  }

  lemma EncodeShort(b: seq<Byte>)
    requires 0 < |b| < 3
    ensures |b| == 1 ==> Encode(b) == [Letter(S0(b[0])), Letter(S1(b[0], 0))]
    ensures |b| == 2 ==> Encode(b) == [Letter(S0(b[0])), Letter(S1(b[0], b[1])), Letter(S2(b[1], 0))]
  {
    hide Letter, S0, S1, S2, Restored, Stripped;
    LetterValue(S1(b[0], if |b| == 2 then b[1] else 0));
    if |b| == 1 {
      TwoStripped(Padded(b));
    } else {
      LetterValue(S2(b[1], 0));
      OneStripped(Padded(b));
    }
  }

  /** The last, incomplete group. */
  lemma LastGroup(data: string)
    requires AllLetters(data) && (|data| == 2 || |data| == 3)
    ensures Decode(data).Some? && Writes(Decode(data).value, data)
  {
    hide Letter, Value, IsLetter, S0, S1, S2, S3, B0, B1, B2, Stripped, Encode;
    NotPadding();
    assert Pad(1) == "=" + Pad(0) && Pad(2) == "=" + Pad(1);
    var s, t, u := Value(data[0]), Value(data[1]), if |data| == 3 then Value(data[2]) else 0;
    Sextets(s, t, u, 0);
    LetterOfValue(data[0]);
    LetterOfValue(data[1]);
    LetterValue(t / 16 * 16);
    LetterValue(u / 4 * 4);
    var b := if |data| == 2 then [B0(s, t)] else [B0(s, t), B1(t, u)];
    EncodeShort(b);
    assert Decoded(Restored(data)) == Some(b + []);
    assert b + [] == b;
  }

  /** Letters are decoded whatever they are, unless one is left over; and what they are decoded to is
      written with the same letters, but for bits that stand for no byte. */
  lemma {:induction false} LettersDecode(data: string)
    requires AllLetters(data)
    ensures Decode(data).Some? <==> |data| % 4 != 1
    ensures Decode(data).Some? ==> Writes(Decode(data).value, data)
    decreases |data|
  {
    hide IsLetter, Value, Letter, S0, S1, S2, S3, B0, B1, B2, Encode, Padded, Stripped, Restored, Decoded;
    if data == "" {
      NoBytes();
      EmptyDecoded();
      EmptyEncoded();
    } else if |data| == 1 {
      LoneCharacter(data);
    } else if |data| < 4 {
      LastGroup(data);
    } else {
      LettersDecode(data[4..]);
      FirstFour(data);
    }
  }

  lemma EmptyEncoded()
    ensures Encode([]) == ""
  {
  }

  lemma FirstFour(data: string)
    requires |data| >= 4 && AllLetters(data)
    ensures Decode(data).Some? <==> Decode(data[4..]).Some?
    ensures Decode(data).Some? && Writes(Decode(data[4..]).value, data[4..]) ==> Writes(Decode(data).value, data)
  {
    hide IsLetter, Value, Letter, S0, S1, S2, S3, B0, B1, B2, Encode, Padded, Stripped, Restored;
    NotPadding();
    var s, t, u, v := Value(data[0]), Value(data[1]), Value(data[2]), Value(data[3]);
    var head := [B0(s, t), B1(t, u), B2(u, v)];
    RestoredOfSum(data[..4], data[4..]);
    assert data == data[..4] + data[4..];
    assert Restored(data)[4..] == Restored(data[4..]) && Quad(Restored(data)) == Some(head);
    if Decode(data[4..]).Some? {
      var tail := Decode(data[4..]).value;
      assert Decode(data) == Some(head + tail);
      EncodeLong(head + tail);
      assert (head + tail)[3..] == tail;
      Sextets(s, t, u, v);
      LetterOfValue(data[0]);
      LetterOfValue(data[1]);
      LetterOfValue(data[2]);
      LetterOfValue(data[3]);
      assert forall i :: 4 <= i < |data| ==> data[i] == data[4..][i - 4];
    }
  }
}
