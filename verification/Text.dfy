/** Splitting on a delimiter, as `String.prototype.split` does it, and reading a text that arrives in pieces. */
module Text {

  predicate StartsWith(s: string, d: string) {
    |d| <= |s| && s[..|d|] == d
  }

  /** The leftmost occurrence of the delimiter, or the length of the text. */
  function Find(s: string, d: string): (i: nat)
    requires d != []
    ensures i <= |s| && (i < |s| ==> i + |d| <= |s|)
  {
    if s == [] || StartsWith(s, d) then 0 else 1 + Find(s[1..], d)
  }

  /** Find is the one position where the delimiter starts and before which it does not. */
  lemma {:induction false} FindIsLeftmost(s: string, d: string, i: nat)
    requires d != [] && i <= |s|
    requires forall j :: 0 <= j < i ==> !StartsWith(s[j..], d)
    requires i < |s| ==> StartsWith(s[i..], d)
    ensures Find(s, d) == i
  {
    if i == 0 {
      assert s[0..] == s;
    } else {
      assert s[0..] == s;
      forall j | 0 <= j < i - 1 ensures !StartsWith(s[1..][j..], d) {
        assert s[1..][j..] == s[j + 1..];
      }
      assert s[1..][i - 1..] == s[i..];
      FindIsLeftmost(s[1..], d, i - 1);
    }
  }

  lemma {:induction false} FoundThere(s: string, d: string)
    requires d != []
    ensures Find(s, d) < |s| ==> StartsWith(s[Find(s, d)..], d)
    ensures forall j :: 0 <= j < Find(s, d) ==> !StartsWith(s[j..], d)
  {
    if s == [] || StartsWith(s, d) {
      assert s[0..] == s;
    } else {
      FoundThere(s[1..], d);
      forall j | 0 <= j < Find(s, d) ensures !StartsWith(s[j..], d) {
        if j == 0 {
          assert s[0..] == s;
        } else {
          assert s[j..] == s[1..][j - 1..];
        }
      }
      if Find(s, d) < |s| {
        assert s[Find(s, d)..] == s[1..][Find(s[1..], d)..];
      }
    }
  }

  function Split(s: string, d: string): (parts: seq<string>)
    requires d != []
    ensures parts != []
    decreases |s|
  {
    var i := Find(s, d);
    if i == |s| then [s] else [s[..i]] + Split(s[i + |d|..], d)
  }

  function Last(parts: seq<string>): string
    requires parts != []
  {
    parts[|parts| - 1]
  }

  function Init(parts: seq<string>): seq<string>
    requires parts != []
  {
    parts[..|parts| - 1]
  }

  function Concat(chunks: seq<string>): string {
    if chunks == [] then "" else chunks[0] + Concat(chunks[1..])
  }

  /** An occurrence found in a prefix stays the leftmost one when more text arrives. */
  lemma {:induction false} FindInPrefix(a: string, b: string, d: string)
    requires d != [] && Find(a, d) < |a|
    ensures Find(a + b, d) == Find(a, d)
  {
    var i := Find(a, d);
    FoundThere(a, d);
    assert (a + b)[i..] == a[i..] + b;
    assert StartsWith((a + b)[i..], d) by {
      assert (a[i..] + b)[..|d|] == a[i..][..|d|];
    }
    forall j | 0 <= j < i ensures !StartsWith((a + b)[j..], d) {
      assert (a + b)[j..][..|d|] == a[j..][..|d|];
    }
    FindIsLeftmost(a + b, d, i);
  }

  lemma {:induction false} SplitFound(s: string, d: string)
    requires d != [] && Find(s, d) < |s|
    ensures Split(s, d) == [s[..Find(s, d)]] + Split(s[Find(s, d) + |d|..], d)
  {
  }

  lemma {:induction false} PrependPart(x: string, parts: seq<string>, more: seq<string>)
    requires parts != []
    ensures [x] + (Init(parts) + more) == Init([x] + parts) + more && Last([x] + parts) == Last(parts)
  {
  }

  lemma {:induction false} SplitUnfound(a: string, b: string, d: string)
    requires d != [] && Find(a, d) == |a|
    ensures Split(a + b, d) == Init(Split(a, d)) + Split(Last(Split(a, d)) + b, d)
  {
    assert Split(a, d) == [a];
    assert Init([a]) == [] && Last([a]) == a;
  }

  lemma {:induction false} SplitFoundInPrefix(a: string, b: string, d: string)
    requires d != [] && Find(a, d) < |a|
    ensures Split(a + b, d) == [a[..Find(a, d)]] + Split(a[Find(a, d) + |d|..] + b, d)
  {
    var i, s := Find(a, d), a + b;
    FindInPrefix(a, b, d);
    assert s[..i] == a[..i];
    assert s[i + |d|..] == a[i + |d|..] + b;
    SplitFound(s, d);
  }

  /** Splitting resumes from the unfinished last part. */
  lemma {:induction false} SplitResumes(a: string, b: string, d: string)
    requires d != []
    ensures Split(a + b, d) == Init(Split(a, d)) + Split(Last(Split(a, d)) + b, d)
    decreases |a|
  {
    var i := Find(a, d);
    if i == |a| {
      SplitUnfound(a, b, d);
    } else {
      var rest := a[i + |d|..];
      var parts := Split(rest, d);
      SplitResumes(rest, b, d);
      SplitFoundInPrefix(a, b, d);
      PrependPart(a[..i], parts, Split(Last(parts) + b, d));
      assert Split(a, d) == [a[..i]] + parts;
    }
  }

  /** The last part holds no delimiter. */
  lemma {:induction false} LastIsWhole(a: string, d: string)
    requires d != []
    ensures Split(Last(Split(a, d)), d) == [Last(Split(a, d))]
  {
    SplitResumes(a, "", d);
    assert a + "" == a && Last(Split(a, d)) + "" == Last(Split(a, d));
    var tail := Split(Last(Split(a, d)), d);
    assert |tail| == 1 && tail[0] == Last(Split(a, d)) by {
      assert |Split(a, d)| == |Init(Split(a, d))| + |tail|;
      assert Split(a, d)[|Split(a, d)| - 1] == tail[0];
    }
  }

  /** Reading in pieces: append, split, keep the last part for the next piece. */
  function Feed(buffer: string, chunks: seq<string>, d: string): (seq<string>, string)
    requires d != []
    decreases |chunks|
  {
    if chunks == [] then ([], buffer)
    else
      var parts := Split(buffer + chunks[0], d);
      var (rest, left) := Feed(Last(parts), chunks[1..], d);
      (Init(parts) + rest, left)
  }

  /** However the text is cut, the parts and the remainder are those of the whole text. */
  lemma {:induction false} FeedIsSplit(buffer: string, chunks: seq<string>, d: string)
    requires d != [] && Split(buffer, d) == [buffer]
    ensures Feed(buffer, chunks, d).0 + [Feed(buffer, chunks, d).1] == Split(buffer + Concat(chunks), d)
    decreases |chunks|
  {
    if chunks == [] {
      assert buffer + Concat(chunks) == buffer;
    } else {
      var start := buffer + chunks[0];
      LastIsWhole(start, d);
      FeedIsSplit(Last(Split(start, d)), chunks[1..], d);
      SplitResumes(start, Concat(chunks[1..]), d);
      assert buffer + Concat(chunks) == start + Concat(chunks[1..]);
      var (rest, left) := Feed(Last(Split(start, d)), chunks[1..], d);
      assert Init(Split(start, d)) + rest + [left] == Init(Split(start, d)) + (rest + [left]);
    }
  }

  lemma {:induction false} FeedFromStart(chunks: seq<string>, d: string)
    requires d != []
    ensures Feed("", chunks, d).0 == Init(Split(Concat(chunks), d))
    ensures Feed("", chunks, d).1 == Last(Split(Concat(chunks), d))
  {
    FeedIsSplit("", chunks, d);
    assert "" + Concat(chunks) == Concat(chunks);
    var (parts, left) := Feed("", chunks, d);
    assert Init(parts + [left]) == parts && Last(parts + [left]) == left;
  }

  // ---------------------------------------------------------------- trimming

  /** White space and line terminators, as `trim` removes them. */
  predicate IsSpace(c: char) {
    || c == '\t' || c == '\n' || c == '\U{000B}' || c == '\U{000C}' || c == '\r' || c == ' '
    || c == '\U{00A0}' || c == '\U{1680}' || '\U{2000}' <= c <= '\U{200A}'
    || c == '\U{2028}' || c == '\U{2029}' || c == '\U{202F}' || c == '\U{205F}' || c == '\U{3000}' || c == '\U{FEFF}'
  }

  function TrimStart(s: string): string {
    if s != [] && IsSpace(s[0]) then TrimStart(s[1..]) else s
  }

  function TrimEnd(s: string): string {
    if s != [] && IsSpace(s[|s| - 1]) then TrimEnd(s[..|s| - 1]) else s
  }

  function Trim(s: string): string {
    TrimEnd(TrimStart(s))
  }

  function Without(s: string, c: char): string {
    if s == [] then [] else (if s[0] == c then [] else [s[0]]) + Without(s[1..], c)
  }
}
