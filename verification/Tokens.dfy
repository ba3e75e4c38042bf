/** C strings in a buffer and the in-place tokeniser strtok_r (POSIX) with a single delimiter. */
module Tokens {

  const NULL := -1
  const NUL := '\0'

  /** The tokens of a text: its maximal non-empty delimiter-free segments, from left to right. */
  function Split(t: string, d: char): seq<string>
    decreases |t|
  {
    if t == [] then []
    else if t[0] == d then Split(t[1..], d)
    else [t[..Until(t, d)]] + Split(t[Until(t, d)..], d)
  }

  /** The length of the longest prefix without the delimiter. */
  function Until(t: string, d: char): (n: nat)
    ensures n <= |t| && forall k :: 0 <= k < n ==> t[k] != d
    ensures n < |t| ==> t[n] == d
    ensures t != [] && t[0] != d ==> n > 0
  {
    if t == [] || t[0] == d then 0 else Until(t[1..], d) + 1
  }

  // ---- What the tokens of a text are, by position ----

  datatype Span = Span(from: nat, to: nat)

  /** The span is non-empty, contains no delimiter, and cannot be extended to either side. */
  predicate MaximalSegment(t: string, d: char, x: Span) {
    && x.from < x.to <= |t|
    && (forall k :: x.from <= k < x.to ==> t[k] != d)
    && (x.from == 0 || t[x.from - 1] == d)
    && (x.to == |t| || t[x.to] == d)
  }

  /** Where the delimiter-free stretch from position o on ends. */
  function EndOf(t: string, d: char, o: nat): (e: nat)
    requires o <= |t|
    ensures o <= e <= |t|
    ensures o < |t| && t[o] != d ==> o < e
    decreases |t| - o
  {
    if o == |t| || t[o] == d then o else EndOf(t, d, o + 1)
  }

  lemma {:induction false} EndOfIsEnd(t: string, d: char, o: nat)
    requires o <= |t|
    ensures forall k :: o <= k < EndOf(t, d, o) ==> t[k] != d
    ensures EndOf(t, d, o) < |t| ==> t[EndOf(t, d, o)] == d
    ensures EndOf(t, d, o) == o + Until(t[o..], d)
    decreases |t| - o
  {
    if o < |t| && t[o] != d {
      assert t[o..][1..] == t[o + 1..];
      EndOfIsEnd(t, d, o + 1);
    }
  }

  /** Where the tokens lie from position o on. */
  function Spans(t: string, d: char, o: nat): seq<Span>
    requires o <= |t|
    decreases |t| - o
  {
    if o == |t| then []
    else if t[o] == d then Spans(t, d, o + 1)
    else [Span(o, EndOf(t, d, o))] + Spans(t, d, EndOf(t, d, o))
  }

  predicate LeftToRight(spans: seq<Span>) {
    forall k, l :: 0 <= k < l < |spans| ==> spans[k].to < spans[l].from
  }

  /** All spans are maximal segments from o on, left to right. */
  predicate Segments(t: string, d: char, xs: seq<Span>, o: nat) {
    LeftToRight(xs) && forall k :: 0 <= k < |xs| ==> MaximalSegment(t, d, xs[k]) && o <= xs[k].from
  }

  lemma SegmentsCons(t: string, d: char, x: Span, ys: seq<Span>)
    requires MaximalSegment(t, d, x) && Segments(t, d, ys, x.to)
    ensures Segments(t, d, [x] + ys, x.from)
  {
    var xs := [x] + ys;
    forall l | 0 < l < |xs| ensures x.to < xs[l].from && MaximalSegment(t, d, xs[l]) {
      assert xs[l] == ys[l - 1];
      assert x.to < |t| ==> t[x.to] == d;
    }
  }

  /** From the start of a segment or from a delimiter on, only maximal segments are listed, left to right. */
  lemma {:induction false} SpansAreMaximal(t: string, d: char, o: nat)
    requires o <= |t| && (o == 0 || o == |t| || t[o - 1] == d || t[o] == d)
    ensures Segments(t, d, Spans(t, d, o), o)
    decreases |t| - o
  {
    if o < |t| {
      if t[o] == d {
        SpansAreMaximal(t, d, o + 1);
      } else {
        EndOfIsEnd(t, d, o);
        SpansAreMaximal(t, d, EndOf(t, d, o));
        SegmentsCons(t, d, Span(o, EndOf(t, d, o)), Spans(t, d, EndOf(t, d, o)));
      }
    }
  }

  /** A maximal segment from a token's start on is that token, or starts after its end. */
  lemma SegmentOrToken(t: string, d: char, o: nat, x: Span)
    requires o <= x.from && MaximalSegment(t, d, x) && t[o] != d
    ensures x == Span(o, EndOf(t, d, o)) || EndOf(t, d, o) <= x.from
  {
    EndOfIsEnd(t, d, o);
    if x.from > o {
      assert t[x.from - 1] == d;
    }
  }

  lemma {:induction false} SpansAreComplete(t: string, d: char, o: nat, x: Span)
    requires o <= x.from && MaximalSegment(t, d, x)
    ensures x in Spans(t, d, o)
    decreases |t| - o
  {
    if t[o] == d {
      SpansAreComplete(t, d, o + 1, x);
    } else {
      SegmentOrToken(t, d, o, x);
      if EndOf(t, d, o) <= x.from {
        SpansAreComplete(t, d, EndOf(t, d, o), x);
      }
    }
  }

  function Texts(t: string, spans: seq<Span>): seq<string>
    requires forall x <- spans :: x.from <= x.to <= |t|
  {
    seq(|spans|, k requires 0 <= k < |spans| => t[spans[k].from..spans[k].to])
  }

  lemma {:induction false} SplitFollowsSpans(t: string, d: char, o: nat)
    requires o <= |t|
    ensures forall x <- Spans(t, d, o) :: x.from <= x.to <= |t|
    ensures Split(t[o..], d) == Texts(t, Spans(t, d, o))
    decreases |t| - o
  {
    if o < |t| {
      if t[o] == d {
        assert t[o..][1..] == t[o + 1..];
        SplitFollowsSpans(t, d, o + 1);
      } else {
        EndOfIsEnd(t, d, o);
        var e := EndOf(t, d, o);
        assert t[o..][e - o..] == t[e..] && t[o..][..e - o] == t[o..e];
        SplitFollowsSpans(t, d, e);
      }
    }
  }

  /** Split lists exactly the maximal segments of the text, each once, from left to right. */
  lemma SplitIsMaximalSegments(t: string, d: char)
    ensures var spans := Spans(t, d, 0);
            && (forall x :: x in spans <==> MaximalSegment(t, d, x))
            && LeftToRight(spans)
            && Split(t, d) == Texts(t, spans)
  {
    SpansAreMaximal(t, d, 0);
    forall x | MaximalSegment(t, d, x) ensures x in Spans(t, d, 0) {
      SpansAreComplete(t, d, 0, x);
    }
    SplitFollowsSpans(t, d, 0);
    assert t[0..] == t;
  }

  // ---- strtok_r ----

  /** A C string starts at p and ends at the terminator at e. */
  predicate IsString(b: seq<char>, p: int, e: int) {
    0 <= p <= e < |b| && b[e] == NUL && NUL !in b[p..e]
  }

  /** The text of the C string at p, as strcmp and atoi read it. */
  function TextAt(b: seq<char>, p: nat): string
    decreases |b| - p
  {
    if p >= |b| || b[p] == NUL then [] else [b[p]] + TextAt(b, p + 1)
  }

  lemma {:induction false} TextOfString(b: seq<char>, p: int, e: int)
    requires IsString(b, p, e)
    ensures TextAt(b, p) == b[p..e]
    decreases e - p
  {
    if p < e {
      assert b[p..e] == [b[p]] + b[p + 1..e];
      TextOfString(b, p + 1, e);
    }
  }

  lemma UntilIs(t: string, d: char, n: nat)
    requires n <= |t| && (forall k :: 0 <= k < n ==> t[k] != d) && (n == |t| || t[n] == d)
    ensures Until(t, d) == n
  {
    assert Until(t, d) < |t| ==> t[Until(t, d)] == d;
  }

  /**
   * strtok_r(s, d, &save). The text still to be tokenised ends at e. The first token is cut off in place by
   * overwriting the delimiter behind it; its end is reported as `stop`.
   */
  method StrtokR(buf: array<char>, s: int, d: char, save: int, ghost e: int)
    returns (tok: int, save': int, ghost stop: int)
    requires d != NUL
    requires s != NULL || save != NULL ==> IsString(buf[..], if s == NULL then save else s, e)
    modifies buf
    ensures s == NULL && save == NULL ==> tok == save' == NULL && buf[..] == old(buf[..])
    ensures s != NULL || save != NULL ==>
      var p := if s == NULL then save else s;
      var tokens := Split(old(buf[p..e]), d);
      && (tok == NULL <==> tokens == [])
      && (tokens == [] ==> save' == NULL && buf[..] == old(buf[..]))
      && (tokens != [] ==>
            && p <= tok < stop <= e
            && IsString(buf[..], tok, stop) && buf[tok..stop] == tokens[0]
            && (if save' == NULL then stop == e && tokens[1..] == []
                else && save' == stop + 1 && IsString(buf[..], save', e)
                     && Split(buf[save'..e], d) == tokens[1..])
            // nothing but the one delimiter changes
            && buf[..] == if stop < e then old(buf[..])[stop := NUL] else old(buf[..]))
  {
    tok, save', stop := NULL, save, e;
    if s == NULL && save == NULL {
      return;
    }
    var p := if s == NULL then save else s;
    tok := SkipDelimiters(buf, p, d, e);
    if buf[tok] == NUL {
      tok, save' := NULL, NULL;
      return;
    }
    var i := FindEnd(buf, tok, d, e);
    stop := i;
    if buf[i] == NUL {
      save' := NULL;
    } else {
      ghost var b := buf[..];
      buf[i] := NUL;
      save' := i + 1;
      assert buf[..] == b[i := NUL];
      assert buf[tok..stop] == b[tok..stop] && buf[save'..e] == b[save'..e] == b[i..e][1..];
    }
  }

  method SkipDelimiters(buf: array<char>, p: int, d: char, ghost e: int) returns (i: int)
    requires d != NUL && IsString(buf[..], p, e)
    ensures p <= i <= e && IsString(buf[..], i, e)
    ensures buf[i] != d && (buf[i] == NUL <==> i == e)
    ensures Split(buf[p..e], d) == Split(buf[i..e], d)
  {
    i := p;
    while buf[i] == d
      invariant p <= i <= e && IsString(buf[..], i, e)
      invariant Split(buf[p..e], d) == Split(buf[i..e], d)
      decreases e - i
    {
      assert buf[i..e][1..] == buf[i + 1..e];
      i := i + 1;
    }
    assert i < e ==> buf[i] in buf[i..e];
  }

  method FindEnd(buf: array<char>, tok: int, d: char, ghost e: int) returns (i: int)
    requires d != NUL && IsString(buf[..], tok, e) && tok < e && buf[tok] != d
    ensures tok < i <= e && IsString(buf[..], i, e) && NUL !in buf[tok..i]
    ensures if buf[i] == NUL then i == e else i < e && buf[i] == d
    ensures Split(buf[tok..e], d) == [buf[tok..i]] + Split(buf[i..e], d)
  {
    i := tok;
    while buf[i] != d && buf[i] != NUL
      invariant tok <= i <= e && IsString(buf[..], i, e) && NUL !in buf[tok..i]
      invariant forall k :: tok <= k < i ==> buf[k] != d
      decreases e - i
    {
      assert buf[i..e][1..] == buf[i + 1..e];
      assert buf[tok..i + 1] == buf[tok..i] + [buf[i]];
      i := i + 1;
    }
    assert i < e ==> buf[i] in buf[i..e];
    ghost var t := buf[tok..e];
    UntilIs(t, d, i - tok);
    assert t[..i - tok] == buf[tok..i] && t[i - tok..] == buf[i..e];
  }
}
