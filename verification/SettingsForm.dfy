/**
 * The form bodies of main/webserver.c: '&'-separated key=value pairs (the form-urlencoded syntax of section 8.2.1
 * of RFC 1866, without percent-decoding), tokenised in place.
 */
module SettingsForm {
  import opened Types
  import opened Tokens
  import opened Decimal

  datatype Limits = Limits(lower: Uint16, upper: Uint16, afterrun: Uint16)

  const NO_LIMITS := Limits(0, 0, 0)

  const LOW := "low"
  const HIGH := "high"
  const AFTERRUN := "afterrun_seconds"

  // ---- What a pair and a form mean ----

  /** The key of a pair: its first '='-free part. */
  function Key(pair: string): string {
    var parts := Split(pair, '=');
    if parts == [] then "" else parts[0]
  }

  predicate HasValue(pair: string) {
    |Split(pair, '=')| >= 2
  }

  function Value(pair: string): string {
    var parts := Split(pair, '=');
    if |parts| >= 2 then parts[1] else ""
  }

  /** The effect of one pair on the three locals of handle_limits. */
  function Assigned(l: Limits, pair: string): Limits {
    if Key(pair) == LOW then l.(lower := ToUint16(Atoi(Value(pair))))
    else if Key(pair) == HIGH then l.(upper := ToUint16(Atoi(Value(pair))))
    else if Key(pair) == AFTERRUN then l.(afterrun := ToUint16(Atoi(Value(pair))))
    else l
  }

  function AllAssigned(l: Limits, pairs: seq<string>): Limits
    decreases |pairs|
  {
    if pairs == [] then l else AllAssigned(Assigned(l, pairs[0]), pairs[1..])
  }

  /** What handle_limits makes of a form. */
  function ParsedLimits(form: string): Limits {
    AllAssigned(NO_LIMITS, Split(form, '&'))
  }

  /** The pair gives strcmp and atoi something to read. */
  predicate ReadablePair(pair: string) {
    && Split(pair, '=') != []
    && (Key(pair) in [LOW, HIGH, AFTERRUN] ==> HasValue(pair) && AtoiDefined(Value(pair)))
  }

  predicate Readable(pairs: seq<string>) {
    forall pair <- pairs :: ReadablePair(pair)
  }

  // ---- handle_limits ----

  /** One turn of the loop: the inner tokeniser works in place on the pair in buf[token..stop]. */
  method HandlePair(buf: array<char>, token: int, ghost stop: int, l: Limits) returns (l': Limits)
    requires IsString(buf[..], token, stop) && ReadablePair(buf[token..stop])
    modifies buf
    ensures l' == Assigned(l, old(buf[token..stop]))
    // the inner tokeniser stays inside the pair
    ensures buf[..token] == old(buf[..token]) && buf[stop..] == old(buf[stop..])
  {
    l' := l;
    ghost var pair := buf[token..stop];
    var key, inner, keyStop := StrtokR(buf, token, '=', NULL, stop);
    TextOfString(buf[..], key, keyStop);
    var name := TextAt(buf[..], key);
    assert name == Key(pair);
    if name in [LOW, HIGH, AFTERRUN] {
      var value, _, valueStop := StrtokR(buf, NULL, '=', inner, stop);
      TextOfString(buf[..], value, valueStop);
      assert TextAt(buf[..], value) == Value(pair);
      var parsed: Int32 := Atoi(TextAt(buf[..], value));
      var number := ToUint16(parsed);
      if name == LOW {
        l' := l.(lower := number);
      } else if name == HIGH {
        l' := l.(upper := number);
      } else {
        l' := l.(afterrun := number);
      }
    }
  }

  /** The outer tokeniser has not read anything but the first of the pairs still to do. */
  ghost predicate AtPair(b: seq<char>, token: int, stop: int, outer: int, n: int, todo: seq<string>) {
    if token == NULL then todo == []
    else
      && todo != [] && token < stop <= n && IsString(b, token, stop) && b[token..stop] == todo[0]
      && Unread(b, stop, outer, n, todo[1..])
  }

  /** The pairs from outer on are still intact. */
  ghost predicate Unread(b: seq<char>, stop: int, outer: int, n: int, rest: seq<string>) {
    if outer == NULL then rest == []
    else outer == stop + 1 && IsString(b, outer, n) && Split(b[outer..n], '&') == rest
  }

  lemma StaysUnread(b: seq<char>, b': seq<char>, stop: int, outer: int, n: int, rest: seq<string>)
    requires 0 <= stop <= |b| == |b'| && b[stop..] == b'[stop..] && Unread(b, stop, outer, n, rest)
    ensures Unread(b', stop, outer, n, rest)
  {
    if outer != NULL {
      assert b[outer..n] == b[stop..][1..n - stop] == b'[outer..n];
      assert b'[n] == b'[stop..][n - stop] == b[n];
    }
  }

  method HandleLimits(buf: array<char>, ghost n: nat) returns (l: Limits)
    requires IsString(buf[..], 0, n) && Readable(Split(buf[..n], '&'))
    modifies buf
    ensures l == ParsedLimits(old(buf[..n]))
  {
    ghost var todo := Split(buf[..n], '&');
    assert buf[0..n] == buf[..n];
    l := NO_LIMITS;
    var token, outer, stop := StrtokR(buf, 0, '&', NULL, n);
    while token != NULL
      invariant AtPair(buf[..], token, stop, outer, n, todo)
      invariant Readable(todo)
      invariant AllAssigned(l, todo) == ParsedLimits(old(buf[..n]))
      decreases |todo|
    {
      ghost var b := buf[..];
      l := HandlePair(buf, token, stop, l);
      StaysUnread(b, buf[..], stop, outer, n, todo[1..]);
      todo := todo[1..];
      token, outer, stop := StrtokR(buf, NULL, '&', outer, n);
    }
  }

  // ---- handle_udp_logging ----

  /** A text that strcpy can put into one of the two 50-byte buffers. */
  type BufferText = s: string | |s| < 50

  const UDP_SERVER := "udp_server"
  const UDP_PORT := "udp_port"

  /** The two text locals of handle_udp_logging, which C leaves uninitialised. */
  datatype UdpTexts = UdpTexts(server: string, port: string)

  /** A missing server value counts as the empty text. */
  function UdpAssigned(l: UdpTexts, pair: string): UdpTexts {
    if Key(pair) == UDP_SERVER then l.(server := Value(pair))
    else if Key(pair) == UDP_PORT then l.(port := Value(pair))
    else l
  }

  function AllUdpAssigned(l: UdpTexts, pairs: seq<string>): UdpTexts
    decreases |pairs|
  {
    if pairs == [] then l else AllUdpAssigned(UdpAssigned(l, pairs[0]), pairs[1..])
  }

  /** The pair fits the local buffers and gives strcmp and strcpy something to read. */
  predicate UdpReadablePair(pair: string) {
    && |pair| < 100 && |Value(pair)| < 50
    && Split(pair, '=') != []
    && (Key(pair) == UDP_PORT ==> HasValue(pair))
  }

  predicate UdpReadable(pairs: seq<string>) {
    forall pair <- pairs :: UdpReadablePair(pair)
  }

  ghost predicate Mentions(pairs: seq<string>, key: string) {
    exists pair <- pairs :: Key(pair) == key
  }

  /** What handle_udp_logging makes of a form that mentions both settings. */
  function ParsedUdp(form: string): UdpTexts {
    AllUdpAssigned(UdpTexts("", ""), Split(form, '&'))
  }

  /** What the handler needs of the form: readable pairs, both settings, and a port atoi can read. */
  ghost predicate UdpComplete(form: string) {
    var pairs := Split(form, '&');
    && UdpReadable(pairs) && Mentions(pairs, UDP_SERVER) && Mentions(pairs, UDP_PORT)
    && AtoiDefined(ParsedUdp(form).port)
  }

  lemma {:induction false} UninitialisedIsIrrelevant(l: UdpTexts, l': UdpTexts, pairs: seq<string>)
    requires l.server == l'.server || Mentions(pairs, UDP_SERVER)
    requires l.port == l'.port || Mentions(pairs, UDP_PORT)
    ensures AllUdpAssigned(l, pairs) == AllUdpAssigned(l', pairs)
    decreases |pairs|
  {
    if pairs != [] {
      assert pairs == [pairs[0]] + pairs[1..];
      UninitialisedIsIrrelevant(UdpAssigned(l, pairs[0]), UdpAssigned(l', pairs[0]), pairs[1..]);
    }
  }

  /** strcpy of a string that fits. */
  method Strcpy(src: array<char>, p: int, ghost e: int, dst: array<char>)
    requires src != dst && IsString(src[..], p, e) && e - p < dst.Length
    modifies dst
    ensures IsString(dst[..], 0, e - p) && dst[0..e - p] == src[p..e]
  {
    var i := 0;
    while src[p + i] != NUL
      invariant 0 <= i <= e - p && IsString(src[..], p + i, e)
      invariant dst[..i] == src[p..p + i]
      decreases e - p - i
    {
      dst[i] := src[p + i];
      i := i + 1;
    }
    dst[i] := NUL;
    assert dst[0..i] == src[p..e];
  }

  /** Key and value of a pair, from its first part and the parts that remain. */
  lemma PartsOfPair(pair: string, first: string, rest: seq<string>)
    requires Split(pair, '=') == [first] + rest
    ensures Key(pair) == first
    ensures if rest == [] then !HasValue(pair) && Value(pair) == "" else HasValue(pair) && Value(pair) == rest[0]
  {
  }

  /** strtok_r(NULL, "=", &inner), and a copy of the text it points to unless it is NULL. */
  method NextText(buf: array<char>, inner: int, ghost n: int, ghost rest: seq<string>)
    returns (found: bool, text: BufferText)
    requires rest != [] ==> |rest[0]| < 50
    requires if inner == NULL then rest == [] else IsString(buf[..], inner, n) && Split(buf[inner..n], '=') == rest
    modifies buf
    ensures found <==> rest != []
    ensures text == if found then rest[0] else ""
  {
    var value, _, stop := StrtokR(buf, NULL, '=', inner, n);
    found, text := value != NULL, "";
    if found {
      TextOfString(buf[..], value, stop);
      text := TextAt(buf[..], value);
    }
  }

  /** One turn of the loop: the inner tokeniser works on a copy, so the body itself is only read. */
  method HandleUdpPair(buf: array<char>, token: int, ghost stop: int, l: UdpTexts) returns (l': UdpTexts)
    requires IsString(buf[..], token, stop) && UdpReadablePair(buf[token..stop])
    ensures l' == UdpAssigned(l, buf[token..stop])
  {
    l' := l;
    var pair := new char[100];
    Strcpy(buf, token, stop, pair);
    ghost var n := stop - token;
    var key, inner, keyStop := StrtokR(pair, 0, '=', token, n);
    TextOfString(pair[..], key, keyStop);
    var name := TextAt(pair[..], key);
    ghost var rest := if inner == NULL then [] else Split(pair[inner..n], '=');
    PartsOfPair(buf[token..stop], name, rest);
    if name == UDP_SERVER {
      var found, value := NextText(pair, inner, n, rest);
      if !found {
        value := "";
      }
      l' := l.(server := value);
    } else if name == UDP_PORT {
      var _, value := NextText(pair, inner, n, rest);
      l' := l.(port := value);
    }
  }

  method HandleUdpLogging(buf: array<char>, ghost n: nat) returns (server: string, port: Uint16)
    requires IsString(buf[..], 0, n) && UdpComplete(buf[..n])
    modifies buf
    ensures server == ParsedUdp(old(buf[..n])).server
    ensures port == ToUint16(Atoi(ParsedUdp(old(buf[..n])).port))
  {
    ghost var pairs := Split(buf[..n], '&');
    ghost var todo := pairs;
    assert buf[0..n] == buf[..n];
    var l: UdpTexts := *;
    UninitialisedIsIrrelevant(l, UdpTexts("", ""), pairs);
    var token, outer, stop := StrtokR(buf, 0, '&', 0, n);
    while token != NULL
      invariant AtPair(buf[..], token, stop, outer, n, todo)
      invariant UdpReadable(todo)
      invariant AllUdpAssigned(l, todo) == ParsedUdp(old(buf[..n]))
      decreases |todo|
    {
      l := HandleUdpPair(buf, token, stop, l);
      todo := todo[1..];
      token, outer, stop := StrtokR(buf, NULL, '&', outer, n);
    }
    var parsed: Int32 := Atoi(l.port);
    server, port := l.server, ToUint16(parsed);
  }
}
