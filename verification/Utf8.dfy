/**
 Decoding UTF-8 that arrives in chunks, by the decoder of the WHATWG Encoding Standard: each chunk on its
 own, as `Buffer.toString` does it, and with unfinished bytes carried over, as a streaming `TextDecoder`
 does it.
 */
module Utf8 {
  import opened Text
  import opened ChunkedDecoding

  const REPLACEMENT := '\U{FFFD}'

  function Encode(c: char): seq<Byte> {
    var n := c as nat;
    if n < 0x80 then [n]
    else if n < 0x800 then [0xC0 + n / 64, 0x80 + n % 64]
    else if n < 0x10000 then [0xE0 + n / 4096, 0x80 + n / 64 % 64, 0x80 + n % 64]
    else [0xF0 + n / 262144, 0x80 + n / 4096 % 64, 0x80 + n / 64 % 64, 0x80 + n % 64]
  }

  function Encoded(t: string): (cs: seq<seq<Byte>>)
    ensures |cs| == |t| && forall i :: 0 <= i < |t| ==> cs[i] == Encode(t[i])
  {
    seq(|t|, i requires 0 <= i < |t| => Encode(t[i]))
  }

  function EncodeAll(t: string): seq<Byte> {
    ConcatBytes(Encoded(t))
  }

  // ---------------------------------------------------------------- the decoder

  /** How many bytes a character with this lead byte has; zero if no character starts like this. */
  function Width(lead: Byte): nat {
    if lead < 0x80 then 1
    else if 0xC2 <= lead <= 0xDF then 2
    else if 0xE0 <= lead <= 0xEF then 3
    else if 0xF0 <= lead <= 0xF4 then 4
    else 0
  }

  predicate IsSecond(lead: Byte, b: Byte) {
    (if lead == 0xE0 then 0xA0 else if lead == 0xF0 then 0x90 else 0x80) <= b
    <= (if lead == 0xED then 0x9F else if lead == 0xF4 then 0x8F else 0xBF)
  }

  predicate IsContinuation(b: Byte) {
    0x80 <= b <= 0xBF
  }

  /** The bytes at the front that can belong to one character. */
  function Matched(s: seq<Byte>): (n: nat)
    requires s != []
    ensures 1 <= n <= |s|
  {
    var w := Width(s[0]);
    if w <= 1 || |s| < 2 || !IsSecond(s[0], s[1]) then 1
    else if w == 2 || |s| < 3 || !IsContinuation(s[2]) then 2
    else if w == 3 || |s| < 4 || !IsContinuation(s[3]) then 3
    else 4
  }

  function Two(a: int, b: int): int {
    (a - 0xC0) * 64 + (b - 0x80)
  }

  function Three(a: int, b: int, c: int): int {
    (a - 0xE0) * 4096 + (b - 0x80) * 64 + (c - 0x80)
  }

  function Four(a: int, b: int, c: int, d: int): int {
    (a - 0xF0) * 262144 + (b - 0x80) * 4096 + (c - 0x80) * 64 + (d - 0x80)
  }

  function Scalar(s: seq<Byte>): char
    requires s != [] && Matched(s) == Width(s[0])
  {
    var w := Width(s[0]);
    if w == 1 then s[0] as char
    else if w == 2 then Two(s[0], s[1]) as char
    else if w == 3 then Three(s[0], s[1], s[2]) as char
    else Four(s[0], s[1], s[2], s[3]) as char
  }

  /** The first decoded character and the bytes it takes: a character, or one replacement for the longest
      piece of a character that the bytes start with. */
  function First(s: seq<Byte>): (char, nat) {
    if s == [] then (REPLACEMENT, 0)
    else (if Matched(s) == Width(s[0]) then Scalar(s) else REPLACEMENT, Matched(s))
  }

  /** Bytes that a longer input could still complete to a character. */
  predicate Unfinished(s: seq<Byte>) {
    s != [] && Matched(s) == |s| < Width(s[0])
  }

  const Utf8Decoder := Decoder(First, Unfinished, IsContinuation)

  /** Each chunk decoded on its own. */
  function DecodeChunks(chunks: seq<seq<Byte>>): seq<string> {
    DecodeEach(Utf8Decoder, chunks)
  }

  const BYTE_ORDER_MARK := '\U{FEFF}'

  function WithoutMark(t: string): string {
    if t != [] && t[0] == BYTE_ORDER_MARK then t[1..] else t
  }

  /** The first text that is not empty loses its byte order mark. */
  function DropMark(texts: seq<string>): seq<string> {
    if texts == [] then []
    else if texts[0] == [] then [[]] + DropMark(texts[1..])
    else [WithoutMark(texts[0])] + texts[1..]
  }

  /** The chunks decoded by one streaming `TextDecoder`. */
  function StreamChunks(chunks: seq<seq<Byte>>): seq<string> {
    DropMark(StreamEach(Utf8Decoder, [], chunks))
  }

  // ---------------------------------------------------------------- one character

  /** The bytes of one character, no more and no less. */
  predicate IsCharacter(b: seq<Byte>) {
    b != [] && Matched(b) == Width(b[0]) == |b|
  }

  lemma {:induction false} SplitThree(n: nat)
    ensures n / 4096 * 4096 + n / 64 % 64 * 64 + n % 64 == n
  {
    assert n / 4096 == n / 64 / 64;
  }

  lemma {:induction false} SplitFour(n: nat)
    ensures n / 262144 * 262144 + n / 4096 % 64 * 4096 + n / 64 % 64 * 64 + n % 64 == n
  {
    assert n / 262144 == n / 4096 / 64;
    SplitThree(n);
  }

  lemma {:induction false} EncodedCharacter(c: char)
    ensures IsCharacter(Encode(c)) && Scalar(Encode(c)) == c
  {
    SplitThree(c as nat);
    SplitFour(c as nat);
  }

  lemma {:induction false} InFront(b: seq<Byte>, more: seq<Byte>)
    requires IsCharacter(b)
    ensures First(b + more) == (Scalar(b), |b|) && !Unfinished(b + more)
  {
    var t := b + more;
    assert t[0] == b[0];
    assert |b| > 1 ==> t[1] == b[1];
    assert |b| > 2 ==> t[2] == b[2];
    assert |b| > 3 ==> t[3] == b[3];
  }

  lemma {:induction false} CutIsUnfinished(b: seq<Byte>, k: nat)
    requires IsCharacter(b) && 0 < k < |b|
    ensures Unfinished(b[..k]) && First(b[..k]).1 == k
  {
    assert forall i :: 0 <= i < k ==> b[..k][i] == b[i];
  }

  lemma {:induction false} RestIsStray(b: seq<Byte>, j: nat)
    requires IsCharacter(b) && 0 < j < |b|
    ensures Alone(Utf8Decoder, b[j])
  {
    forall more ensures Utf8Decoder.first([b[j]] + more).1 == 1 {
      assert ([b[j]] + more)[0] == b[j];
      assert Width(b[j]) == 0;
    }
  }

  /** The bytes of a character behave as the chunk reasoning needs it. */
  lemma {:induction false} CharacterIsLetter(b: seq<Byte>)
    requires IsCharacter(b)
    ensures Letter(Utf8Decoder, b)
  {
    forall more ensures Utf8Decoder.first(b + more) == (Utf8Decoder.first(b).0, |b|) && !Utf8Decoder.unfinished(b + more) {
      InFront(b, more);
      InFront(b, []);
      assert b + [] == b;
    }
    forall k | 0 < k < |b| ensures Utf8Decoder.unfinished(b[..k]) && Utf8Decoder.first(b[..k]).1 == k {
      CutIsUnfinished(b, k);
    }
    forall j | 0 < j < |b| ensures Alone(Utf8Decoder, b[j]) {
      RestIsStray(b, j);
    }
  }

  lemma {:induction false} EncodedIsLetter(c: char)
    ensures Letter(Utf8Decoder, Encode(c)) && First(Encode(c)).0 == c
  {
    EncodedCharacter(c);
    CharacterIsLetter(Encode(c));
    InFront(Encode(c), []);
    assert Encode(c) + [] == Encode(c);
  }

  lemma {:induction false} EncodedLetters(t: string)
    ensures Letters(Utf8Decoder, Encoded(t)) && Firsts(Utf8Decoder, Encoded(t)) == t
  {
    forall i | 0 <= i < |t| ensures Letter(Utf8Decoder, Encoded(t)[i]) && Utf8Decoder.first(Encoded(t)[i]).0 == t[i] {
      EncodedIsLetter(t[i]);
    }
  }

  // ---------------------------------------------------------------- chunks

  /** No chunk starts with a continuation byte. */
  predicate CutBetweenCharacters(chunks: seq<seq<Byte>>) {
    forall i :: 0 <= i < |chunks| ==> chunks[i] == [] || !(0x80 <= chunks[i][0] <= 0xBF)
  }

  /** Decoding each chunk on its own gives the text back exactly when no chunk starts with a continuation
      byte. */
  lemma {:induction false} DecodedIffWhole(t: string, chunks: seq<seq<Byte>>)
    requires ConcatBytes(chunks) == EncodeAll(t)
    ensures Concat(DecodeChunks(chunks)) == t <==> CutBetweenCharacters(chunks)
  {
    EncodedLetters(t);
    EachIffClean(Utf8Decoder, Encoded(t), chunks);
  }

  /** One two-byte character in two chunks comes out as two replacement characters. */
  lemma {:induction false} SplitAccent()
    ensures EncodeAll("\U{00E9}") == ConcatBytes([[0xC3], [0xA9]])
    ensures Concat(DecodeChunks([[0xC3], [0xA9]])) == [REPLACEMENT, REPLACEMENT]
  {
    var chunks: seq<seq<Byte>> := [[0xC3], [0xA9]];
    assert Encoded("\U{00E9}") == [[0xC3, 0xA9]];
    assert ConcatBytes([[0xC3, 0xA9]]) == [0xC3, 0xA9] + ConcatBytes([]);
    assert chunks[1..] == [[0xA9]] && chunks[1..][1..] == [];
    assert ConcatBytes(chunks) == [0xC3] + ([0xA9] + []);
    assert Decode(Utf8Decoder, [0xC3]) == [REPLACEMENT] && Decode(Utf8Decoder, [0xA9]) == [REPLACEMENT];
    assert DecodeEach(Utf8Decoder, chunks[1..]) == [Decode(Utf8Decoder, [0xA9])] + DecodeEach(Utf8Decoder, []);
    assert DecodeChunks(chunks) == [Decode(Utf8Decoder, [0xC3])] + ([Decode(Utf8Decoder, [0xA9])] + []);
  }

  lemma {:induction false} DropMarkConcat(texts: seq<string>)
    ensures Concat(DropMark(texts)) == WithoutMark(Concat(texts))
  {
    if texts != [] {
      if texts[0] == [] {
        DropMarkConcat(texts[1..]);
        assert DropMark(texts)[1..] == DropMark(texts[1..]);
      } else {
        assert DropMark(texts)[1..] == texts[1..];
        assert Concat(texts)[0] == texts[0][0];
      }
    }
  }

  /** A streaming decoder gives the text back wherever the bytes are cut, without a leading byte order mark. */
  lemma {:induction false} StreamDecodes(t: string, chunks: seq<seq<Byte>>)
    requires ConcatBytes(chunks) == EncodeAll(t)
    ensures Concat(StreamChunks(chunks)) == WithoutMark(t)
  {
    EncodedLetters(t);
    assert [] + ConcatBytes(chunks) == ConcatBytes(chunks);
    StreamCarriesOver(Utf8Decoder, [], chunks, Encoded(t));
    DropMarkConcat(StreamEach(Utf8Decoder, [], chunks));
  }
}
