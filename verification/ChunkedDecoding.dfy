/** Decoding bytes that arrive in chunks, for any decoder that takes one character at a time. */
module ChunkedDecoding {
  import opened Text

  type Byte = b: nat | b < 256

  /** `first` gives the first character of the bytes and how many bytes it takes; `unfinished` says whether
      more bytes could complete a character; `inner` marks bytes that continue a character. */
  datatype Decoder = Decoder(first: seq<Byte> -> (char, nat), unfinished: seq<Byte> -> bool, inner: Byte -> bool)

  function ConcatBytes(chunks: seq<seq<Byte>>): seq<Byte> {
    if chunks == [] then [] else chunks[0] + ConcatBytes(chunks[1..])
  }

  /** A complete buffer. */
  function Decode(d: Decoder, s: seq<Byte>): string
    decreases |s|
  {
    if s == [] then []
    else
      var (c, n) := d.first(s);
      if 1 <= n <= |s| then [c] + Decode(d, s[n..]) else []
  }

  /** Streaming: a character cut off at the end waits for the next chunk. */
  function DecodeStream(d: Decoder, s: seq<Byte>): (string, seq<Byte>)
    decreases |s|
  {
    if s == [] || d.unfinished(s) then ([], s)
    else
      var (c, n) := d.first(s);
      if 1 <= n <= |s| then
        var (more, pending) := DecodeStream(d, s[n..]);
        ([c] + more, pending)
      else ([], s)
  }

  function DecodeEach(d: Decoder, chunks: seq<seq<Byte>>): seq<string> {
    if chunks == [] then [] else [Decode(d, chunks[0])] + DecodeEach(d, chunks[1..])
  }

  function StreamEach(d: Decoder, pending: seq<Byte>, chunks: seq<seq<Byte>>): seq<string>
    decreases |chunks|
  {
    if chunks == [] then []
    else
      var (text, left) := DecodeStream(d, pending + chunks[0]);
      [text] + StreamEach(d, left, chunks[1..])
  }

  // ---------------------------------------------------------------- letters

  /** A byte inside characters; at the front it decodes on its own, whatever follows. */
  ghost predicate Alone(d: Decoder, b: Byte) {
    d.inner(b) && forall more :: d.first([b] + more).1 == 1
  }

  /** The bytes of one character: decoded the same whatever follows; cut short they are unfinished and
      decode to one character; and all but the first are inner bytes. */
  ghost predicate Letter(d: Decoder, b: seq<Byte>) {
    && b != []
    && (forall more :: d.first(b + more) == (d.first(b).0, |b|) && !d.unfinished(b + more))
    && (forall k :: 0 < k < |b| ==> d.unfinished(b[..k]) && d.first(b[..k]).1 == k)
    && !d.inner(b[0]) && (forall j :: 0 < j < |b| ==> Alone(d, b[j]))
  }

  ghost predicate Letters(d: Decoder, cs: seq<seq<Byte>>) {
    forall i :: 0 <= i < |cs| ==> Letter(d, cs[i])
  }

  function Firsts(d: Decoder, cs: seq<seq<Byte>>): (t: string)
    ensures |t| == |cs| && forall i :: 0 <= i < |cs| ==> t[i] == d.first(cs[i]).0
  {
    seq(|cs|, i requires 0 <= i < |cs| => d.first(cs[i]).0)
  }

  lemma {:induction false} DecodeOne(d: Decoder, b: seq<Byte>, more: seq<Byte>)
    requires Letter(d, b)
    ensures Decode(d, b + more) == [d.first(b).0] + Decode(d, more)
    ensures DecodeStream(d, b + more) ==
            ([d.first(b).0] + DecodeStream(d, more).0, DecodeStream(d, more).1)
  {
    assert (b + more)[|b|..] == more;
  }

  lemma {:induction false} LettersRest(d: Decoder, cs: seq<seq<Byte>>, m: nat)
    requires Letters(d, cs) && m <= |cs|
    ensures Letters(d, cs[..m]) && Letters(d, cs[m..])
    ensures Firsts(d, cs) == Firsts(d, cs[..m]) + Firsts(d, cs[m..])
    ensures m < |cs| ==> Letter(d, cs[m])
  {
    forall i | 0 <= i < |cs[m..]| ensures Letter(d, cs[m..][i]) {
      assert cs[m..][i] == cs[m + i];
    }
  }

  lemma {:induction false} DecodeLetters(d: Decoder, cs: seq<seq<Byte>>, rest: seq<Byte>)
    requires Letters(d, cs)
    ensures Decode(d, ConcatBytes(cs) + rest) == Firsts(d, cs) + Decode(d, rest)
  {
    if cs == [] {
      assert ConcatBytes(cs) + rest == rest;
      assert Firsts(d, cs) + Decode(d, rest) == Decode(d, rest);
    } else {
      LettersRest(d, cs, 1);
      DecodeLetters(d, cs[1..], rest);
      DecodeOneMore(d, cs, rest);
    }
  }

  lemma {:induction false} DecodeOneMore(d: Decoder, cs: seq<seq<Byte>>, rest: seq<Byte>)
    requires cs != [] && Letter(d, cs[0])
    requires Decode(d, ConcatBytes(cs[1..]) + rest) == Firsts(d, cs[1..]) + Decode(d, rest)
    ensures Decode(d, ConcatBytes(cs) + rest) == Firsts(d, cs) + Decode(d, rest)
  {
    var more := ConcatBytes(cs[1..]) + rest;
    assert ConcatBytes(cs) + rest == cs[0] + more;
    DecodeOne(d, cs[0], more);
    FirstsOfRest(d, cs, Decode(d, rest));
  }

  lemma {:induction false} StreamLetters(d: Decoder, cs: seq<seq<Byte>>, rest: seq<Byte>)
    requires Letters(d, cs)
    ensures DecodeStream(d, ConcatBytes(cs) + rest).0 == Firsts(d, cs) + DecodeStream(d, rest).0
    ensures DecodeStream(d, ConcatBytes(cs) + rest).1 == DecodeStream(d, rest).1
  {
    if cs == [] {
      assert ConcatBytes(cs) + rest == rest;
      assert Firsts(d, cs) + DecodeStream(d, rest).0 == DecodeStream(d, rest).0;
    } else {
      LettersRest(d, cs, 1);
      StreamLetters(d, cs[1..], rest);
      StreamOneMore(d, cs, rest);
    }
  }

  lemma {:induction false} StreamOneMore(d: Decoder, cs: seq<seq<Byte>>, rest: seq<Byte>)
    requires cs != [] && Letter(d, cs[0])
    requires DecodeStream(d, ConcatBytes(cs[1..]) + rest).0 ==
             Firsts(d, cs[1..]) + DecodeStream(d, rest).0
    requires DecodeStream(d, ConcatBytes(cs[1..]) + rest).1 == DecodeStream(d, rest).1
    ensures DecodeStream(d, ConcatBytes(cs) + rest).0 == Firsts(d, cs) + DecodeStream(d, rest).0
    ensures DecodeStream(d, ConcatBytes(cs) + rest).1 == DecodeStream(d, rest).1
  {
    var more := ConcatBytes(cs[1..]) + rest;
    assert ConcatBytes(cs) + rest == cs[0] + more;
    DecodeOne(d, cs[0], more);
    FirstsOfRest(d, cs, DecodeStream(d, rest).0);
  }

  lemma {:induction false} FirstsOfRest(d: Decoder, cs: seq<seq<Byte>>, t: string)
    requires cs != []
    ensures [d.first(cs[0]).0] + (Firsts(d, cs[1..]) + t) == Firsts(d, cs) + t
  {
  }

  ghost predicate Stray(d: Decoder, s: seq<Byte>) {
    forall j :: 0 <= j < |s| ==> Alone(d, s[j])
  }

  lemma {:induction false} DecodeStray(d: Decoder, s: seq<Byte>, rest: seq<Byte>)
    requires Stray(d, s)
    ensures |Decode(d, s + rest)| == |s| + |Decode(d, rest)|
    decreases |s|
  {
    if s == [] {
      assert s + rest == rest;
    } else {
      var more := s[1..] + rest;
      assert Alone(d, s[0]);
      assert s + rest == [s[0]] + more;
      assert (s + rest)[1..] == more;
      DecodeStray(d, s[1..], rest);
    }
  }

  // ---------------------------------------------------------------- where a chunk ends

  /** The front of some letters: m of them whole, then k bytes of the next. */
  ghost predicate EndsAt(front: seq<Byte>, back: seq<Byte>, cs: seq<seq<Byte>>, m: nat, k: nat) {
    && m <= |cs| && (k > 0 ==> m < |cs| && k < |cs[m]|)
    && front == ConcatBytes(cs[..m]) + (if k > 0 then cs[m][..k] else [])
    && back == if k > 0 then cs[m][k..] + ConcatBytes(cs[m + 1..]) else ConcatBytes(cs[m..])
  }

  lemma {:induction false} EndsLater(front: seq<Byte>, back: seq<Byte>, cs: seq<seq<Byte>>, m: nat, k: nat)
    requires cs != [] && EndsAt(front, back, cs[1..], m, k)
    ensures EndsAt(cs[0] + front, back, cs, m + 1, k)
  {
    assert cs[..m + 1][1..] == cs[1..][..m];
    assert cs[1..][m..] == cs[m + 1..];
    if k > 0 {
      assert cs[1..][m] == cs[m + 1] && cs[1..][m + 1..] == cs[m + 2..];
      assert cs[0] + (ConcatBytes(cs[1..][..m]) + cs[m + 1][..k]) == ConcatBytes(cs[..m + 1]) + cs[m + 1][..k];
    } else {
      assert cs[0] + (ConcatBytes(cs[1..][..m]) + []) == ConcatBytes(cs[..m + 1]) + [];
    }
  }

  lemma {:induction false} WhereItEnds(front: seq<Byte>, back: seq<Byte>, cs: seq<seq<Byte>>) returns (m: nat, k: nat)
    requires front + back == ConcatBytes(cs)
    ensures EndsAt(front, back, cs, m, k)
    decreases |cs|
  {
    if cs == [] || front == [] {
      m, k := 0, 0;
      assert front == [] && back == ConcatBytes(cs);
      assert cs[..0] == [] && cs[0..] == cs;
    } else if |front| < |cs[0]| {
      m, k := 0, |front|;
      assert front == (front + back)[..|front|] == cs[0][..k];
      assert back == (front + back)[|front|..] == cs[0][k..] + ConcatBytes(cs[1..]);
      assert cs[..0] == [] && [] + cs[0][..k] == cs[0][..k];
    } else {
      var rest := front[|cs[0]|..];
      assert front[..|cs[0]|] == (front + back)[..|cs[0]|] == cs[0];
      assert front == cs[0] + rest;
      assert rest + back == (front + back)[|cs[0]|..] == ConcatBytes(cs[1..]);
      m, k := WhereItEnds(rest, back, cs[1..]);
      EndsLater(rest, back, cs, m, k);
      m := m + 1;
    }
  }

  lemma {:induction false} NothingLeft(cs: seq<seq<Byte>>)
    requires forall i :: 0 <= i < |cs| ==> cs[i] != []
    ensures |ConcatBytes(cs)| >= if cs == [] then 0 else |cs[0]|
    ensures ConcatBytes(cs) == [] ==> cs == []
  {
  }

  // ---------------------------------------------------------------- each chunk on its own

  lemma {:induction false} CutDecodes(d: Decoder, b: seq<Byte>, k: nat)
    requires Letter(d, b) && 0 < k < |b|
    ensures |Decode(d, b[..k])| == 1 && DecodeStream(d, b[..k]) == ([], b[..k])
    ensures Stray(d, b[k..])
  {
    assert b[..k][k..] == [];
  }

  lemma {:induction false} DecodeFront(d: Decoder,
                                       front: seq<Byte>, back: seq<Byte>, cs: seq<seq<Byte>>, m: nat, k: nat)
    requires Letters(d, cs) && EndsAt(front, back, cs, m, k)
    ensures |Decode(d, front)| == m + (if k > 0 then 1 else 0)
    ensures DecodeStream(d, front) == (Firsts(d, cs[..m]), if k > 0 then cs[m][..k] else [])
    ensures if k > 0 then Stray(d, cs[m][k..]) else Decode(d, front) == Firsts(d, cs[..m])
  {
    var whole := Firsts(d, cs[..m]);
    LettersRest(d, cs, m);
    assert whole + [] == whole;
    if k > 0 {
      CutDecodes(d, cs[m], k);
      DecodeLetters(d, cs[..m], cs[m][..k]);
      StreamLetters(d, cs[..m], cs[m][..k]);
    } else {
      DecodeLetters(d, cs[..m], []);
      StreamLetters(d, cs[..m], []);
      assert front == ConcatBytes(cs[..m]);
    }
  }

  function TotalLength(d: Decoder, chunks: seq<seq<Byte>>): nat {
    if chunks == [] then 0 else |Decode(d, chunks[0])| + TotalLength(d, chunks[1..])
  }

  /** No chunk starts with a byte that continues a character. */
  predicate Clean(d: Decoder, chunks: seq<seq<Byte>>) {
    forall i :: 0 <= i < |chunks| ==> chunks[i] == [] || !d.inner(chunks[i][0])
  }

  lemma {:induction false} CleanRest(d: Decoder, chunks: seq<seq<Byte>>)
    requires chunks != []
    ensures Clean(d, chunks) <==> (chunks[0] == [] || !d.inner(chunks[0][0])) && Clean(d, chunks[1..])
  {
    assert forall i :: 0 < i < |chunks| ==> chunks[i] == chunks[1..][i - 1];
  }

  lemma {:induction false} StartsOuter(d: Decoder, cs: seq<seq<Byte>>, front: seq<Byte>, back: seq<Byte>)
    requires Letters(d, cs) && front + back == ConcatBytes(cs) && front != []
    ensures !d.inner(front[0])
  {
    assert (front + back)[0] == front[0];
    assert cs != [] && Letter(d, cs[0]);
  }

  /** A chunk that outlasts the stray bytes before it. */
  lemma {:induction false} FirstChunk(d: Decoder, tail: seq<Byte>, cs: seq<seq<Byte>>, chunk: seq<Byte>, back: seq<Byte>) returns (m: nat, k: nat)
    requires Stray(d, tail) && Letters(d, cs)
    requires |tail| <= |chunk| && chunk + back == tail + ConcatBytes(cs)
    ensures m <= |cs| && (k > 0 ==> m < |cs| && k < |cs[m]|)
    ensures |Decode(d, chunk)| == |tail| + m + (if k > 0 then 1 else 0)
    ensures k == 0 ==> back == ConcatBytes(cs[m..])
    ensures k == 0 && tail == [] ==> Decode(d, chunk) == Firsts(d, cs[..m])
    ensures k > 0 ==> back == cs[m][k..] + ConcatBytes(cs[m + 1..]) && Stray(d, cs[m][k..])
  {
    var front := chunk[|tail|..];
    assert chunk[..|tail|] == (chunk + back)[..|tail|] == tail;
    assert chunk == tail + front;
    assert front + back == (chunk + back)[|tail|..] == ConcatBytes(cs);
    m, k := WhereItEnds(front, back, cs);
    DecodeFront(d, front, back, cs, m, k);
    DecodeStray(d, tail, front);
    assert tail == [] ==> chunk == front;
  }

  /** A cut inside a character makes the decoded text longer. */
  lemma {:induction false} CutsLengthen(d: Decoder, tail: seq<Byte>, cs: seq<seq<Byte>>, chunks: seq<seq<Byte>>)
    requires Stray(d, tail) && Letters(d, cs) && ConcatBytes(chunks) == tail + ConcatBytes(cs)
    ensures TotalLength(d, chunks) >= |tail| + |cs|
    ensures tail == [] && !Clean(d, chunks) ==> TotalLength(d, chunks) > |cs|
    decreases |chunks|
  {
    if chunks == [] {
      assert |tail + ConcatBytes(cs)| == 0;
      NothingLeft(cs);
    } else if |chunks[0]| < |tail| {
      CutInTail(d, tail, cs, chunks[0], ConcatBytes(chunks[1..]));
      CutsLengthen(d, tail[|chunks[0]|..], cs, chunks[1..]);
    } else {
      var m, k := FirstChunk(d, tail, cs, chunks[0], ConcatBytes(chunks[1..]));
      LettersRest(d, cs, m);
      if k > 0 {
        LettersRest(d, cs, m + 1);
        CutsLengthen(d, cs[m][k..], cs[m + 1..], chunks[1..]);
      } else {
        assert [] + ConcatBytes(cs[m..]) == ConcatBytes(cs[m..]);
        CutsLengthen(d, [], cs[m..], chunks[1..]);
        if tail == [] {
          FirstIsOuter(d, cs, chunks);
        }
      }
    }
  }

  lemma {:induction false} FirstIsOuter(d: Decoder, cs: seq<seq<Byte>>, chunks: seq<seq<Byte>>)
    requires chunks != [] && Letters(d, cs) && ConcatBytes(chunks) == [] + ConcatBytes(cs)
    ensures Clean(d, chunks) <==> Clean(d, chunks[1..])
  {
    CleanRest(d, chunks);
    if chunks[0] != [] {
      StartsOuter(d, cs, chunks[0], ConcatBytes(chunks[1..]));
    }
  }

  lemma {:induction false} CutInTail(d: Decoder, tail: seq<Byte>, cs: seq<seq<Byte>>, chunk: seq<Byte>, back: seq<Byte>)
    requires Stray(d, tail) && |chunk| < |tail| && chunk + back == tail + ConcatBytes(cs)
    ensures |Decode(d, chunk)| == |chunk| && Stray(d, tail[|chunk|..])
    ensures back == tail[|chunk|..] + ConcatBytes(cs)
  {
    assert chunk == (chunk + back)[..|chunk|] == tail[..|chunk|];
    assert back == (chunk + back)[|chunk|..] == tail[|chunk|..] + ConcatBytes(cs);
    DecodeStray(d, chunk, []);
    assert chunk + [] == chunk;
  }

  lemma {:induction false} ConcatLength(d: Decoder, chunks: seq<seq<Byte>>)
    ensures |Concat(DecodeEach(d, chunks))| == TotalLength(d, chunks)
  {
    if chunks != [] {
      ConcatLength(d, chunks[1..]);
      assert DecodeEach(d, chunks)[1..] == DecodeEach(d, chunks[1..]);
    }
  }

  /** What is left of a cut character shows at the start of a later chunk. */
  lemma {:induction false} InnerShows(d: Decoder, tail: seq<Byte>, rest: seq<Byte>, chunks: seq<seq<Byte>>)
    requires tail != [] && d.inner(tail[0]) && ConcatBytes(chunks) == tail + rest
    ensures !Clean(d, chunks)
    decreases |chunks|
  {
    assert (tail + rest)[0] == tail[0];
    CleanRest(d, chunks);
    if chunks[0] == [] {
      assert ConcatBytes(chunks) == ConcatBytes(chunks[1..]);
      InnerShows(d, tail, rest, chunks[1..]);
    } else {
      assert ConcatBytes(chunks)[0] == chunks[0][0];
    }
  }

  lemma {:induction false} CleanDecodes(d: Decoder, cs: seq<seq<Byte>>, chunks: seq<seq<Byte>>)
    requires Letters(d, cs) && ConcatBytes(chunks) == ConcatBytes(cs) && Clean(d, chunks)
    ensures Concat(DecodeEach(d, chunks)) == Firsts(d, cs)
    decreases |chunks|
  {
    if chunks == [] {
      NothingLeft(cs);
    } else {
      assert [] + ConcatBytes(cs) == ConcatBytes(cs);
      var m, k := FirstChunk(d, [], cs, chunks[0], ConcatBytes(chunks[1..]));
      CleanRest(d, chunks);
      assert k == 0 by {
        if k > 0 {
          InnerShows(d, cs[m][k..], ConcatBytes(cs[m + 1..]), chunks[1..]);
        }
      }
      LettersRest(d, cs, m);
      CleanDecodes(d, cs[m..], chunks[1..]);
      assert DecodeEach(d, chunks)[1..] == DecodeEach(d, chunks[1..]);
    }
  }

  /** Decoding each chunk on its own gives the text exactly when no chunk starts inside a character. */
  lemma {:induction false} EachIffClean(d: Decoder, cs: seq<seq<Byte>>, chunks: seq<seq<Byte>>)
    requires Letters(d, cs) && ConcatBytes(chunks) == ConcatBytes(cs)
    ensures Concat(DecodeEach(d, chunks)) == Firsts(d, cs) <==> Clean(d, chunks)
  {
    assert [] + ConcatBytes(cs) == ConcatBytes(cs);
    if Clean(d, chunks) {
      CleanDecodes(d, cs, chunks);
    } else {
      CutsLengthen(d, [], cs, chunks);
      ConcatLength(d, chunks);
    }
  }

  // ---------------------------------------------------------------- one streaming decoder

  lemma {:induction false} LeftOver(left: seq<Byte>, front: seq<Byte>, back: seq<Byte>, cs: seq<seq<Byte>>, m: nat, k: nat)
    requires EndsAt(front, back, cs, m, k) && left == (if k > 0 then cs[m][..k] else [])
    requires forall i :: 0 <= i < |cs| ==> cs[i] != []
    ensures left + back == ConcatBytes(cs[m..]) && (cs[m..] == [] || |left| < |cs[m..][0]|)
  {
    if k > 0 {
      assert cs[m..][1..] == cs[m + 1..];
      assert cs[m] == cs[m][..k] + cs[m][k..];
    }
  }

  /** Wherever the bytes are cut, a streaming decoder gives the text. */
  lemma {:induction false} StreamCarriesOver(d: Decoder,
                                             pending: seq<Byte>, chunks: seq<seq<Byte>>, cs: seq<seq<Byte>>)
    requires Letters(d, cs) && pending + ConcatBytes(chunks) == ConcatBytes(cs)
    requires cs == [] || |pending| < |cs[0]|
    ensures Concat(StreamEach(d, pending, chunks)) == Firsts(d, cs)
    decreases |chunks|
  {
    if chunks == [] {
      assert pending + [] == pending;
      NothingLeft(cs);
    } else {
      var front, back := pending + chunks[0], ConcatBytes(chunks[1..]);
      assert front + back == pending + ConcatBytes(chunks);
      var m, k := WhereItEnds(front, back, cs);
      DecodeFront(d, front, back, cs, m, k);
      var (text, left) := DecodeStream(d, front);
      LeftOver(left, front, back, cs, m, k);
      LettersRest(d, cs, m);
      StreamCarriesOver(d, left, chunks[1..], cs[m..]);
      assert StreamEach(d, pending, chunks)[1..] == StreamEach(d, left, chunks[1..]);
    }
  }
}
