/** What the limits parser computes, without reference to its loop, and its inverse, the printed form. */
module FormMeaning {
  import opened Types
  import opened Tokens
  import opened Decimal
  import opened SettingsForm

  predicate IsLimitKey(key: string) {
    key == "low" || key == "high" || key == "afterrun_seconds"
  }

  function Limit(l: Limits, key: string): Uint16
    requires IsLimitKey(key)
  {
    if key == "low" then l.lower else if key == "high" then l.upper else l.afterrun
  }

  // ---- The last pair with a key decides ----

  /** Pair i is the last one with the key. */
  ghost predicate IsLast(pairs: seq<string>, key: string, i: nat) {
    i < |pairs| && Key(pairs[i]) == key && forall j :: i < j < |pairs| ==> Key(pairs[j]) != key
  }

  lemma {:induction false} UnmentionedKeyIsKept(l: Limits, pairs: seq<string>, key: string)
    requires IsLimitKey(key) && forall pair <- pairs :: Key(pair) != key
    ensures Limit(AllAssigned(l, pairs), key) == Limit(l, key)
    decreases |pairs|
  {
    if pairs != [] {
      UnmentionedKeyIsKept(Assigned(l, pairs[0]), pairs[1..], key);
    }
  }

  lemma {:induction false} LastPairDecides(l: Limits, pairs: seq<string>, key: string, i: nat)
    requires IsLimitKey(key) && IsLast(pairs, key, i)
    ensures Limit(AllAssigned(l, pairs), key) == ToUint16(Atoi(Value(pairs[i])))
    decreases |pairs|
  {
    var rest := pairs[1..];
    if i == 0 {
      assert forall pair <- rest :: Key(pair) != key by {
        forall pair | pair in rest ensures Key(pair) != key {
          var j :| 0 <= j < |rest| && rest[j] == pair;
          assert pairs[j + 1] == pair;
        }
      }
      UnmentionedKeyIsKept(Assigned(l, pairs[0]), rest, key);
    } else {
      assert forall j :: 0 <= j < |rest| ==> rest[j] == pairs[j + 1];
      LastPairDecides(Assigned(l, pairs[0]), rest, key, i - 1);
    }
  }

  lemma KeyMeaning(form: string, key: string)
    requires IsLimitKey(key)
    ensures var pairs := Split(form, '&');
            && (forall i: nat :: IsLast(pairs, key, i) ==>
                  Limit(ParsedLimits(form), key) == Atoi(Value(pairs[i])) % 0x1_0000)
            && ((forall pair <- pairs :: Key(pair) != key) ==> Limit(ParsedLimits(form), key) == 0)
  {
    var pairs := Split(form, '&');
    forall i: nat | IsLast(pairs, key, i)
      ensures Limit(ParsedLimits(form), key) == Atoi(Value(pairs[i])) % 0x1_0000
    {
      LastPairDecides(NO_LIMITS, pairs, key, i);
    }
    if forall pair <- pairs :: Key(pair) != key {
      UnmentionedKeyIsKept(NO_LIMITS, pairs, key);
    }
  }

  /** Each limit is the atoi of the last pair with its key, modulo 65536; without such a pair it is 0. */
  lemma ParserMeaning(form: string)
    ensures var pairs, l := Split(form, '&'), ParsedLimits(form);
            && (forall i: nat :: IsLast(pairs, "low", i) ==> l.lower == Atoi(Value(pairs[i])) % 0x1_0000)
            && (forall i: nat :: IsLast(pairs, "high", i) ==> l.upper == Atoi(Value(pairs[i])) % 0x1_0000)
            && (forall i: nat :: IsLast(pairs, "afterrun_seconds", i) ==>
                  l.afterrun == Atoi(Value(pairs[i])) % 0x1_0000)
            && ((forall pair <- pairs :: Key(pair) != "low") ==> l.lower == 0)
            && ((forall pair <- pairs :: Key(pair) != "high") ==> l.upper == 0)
            && ((forall pair <- pairs :: Key(pair) != "afterrun_seconds") ==> l.afterrun == 0)
  {
    KeyMeaning(form, "low");
    KeyMeaning(form, "high");
    KeyMeaning(form, "afterrun_seconds");
  }

  lemma {:induction false} SomeLast(pairs: seq<string>, key: string, pair: string)
    requires pair in pairs && Key(pair) == key
    ensures exists i: nat :: IsLast(pairs, key, i)
  {
    var n := |pairs| - 1;
    if Key(pairs[n]) == key {
      assert IsLast(pairs, key, n);
    } else {
      var p := pairs[..n];
      assert pairs == p + [pairs[n]];
      SomeLast(p, key, pair);
      var i: nat :| IsLast(p, key, i);
      assert forall j :: 0 <= j < n ==> p[j] == pairs[j];
      assert IsLast(pairs, key, i);
    }
  }

  /** Pairs that set the key agree on its value. */
  ghost predicate Agree(pairs: seq<string>, key: string) {
    forall a <- pairs, b <- pairs :: Key(a) == key && Key(b) == key ==> Value(a) == Value(b)
  }

  lemma SamePairsSameLimit(a: seq<string>, b: seq<string>, key: string)
    requires IsLimitKey(key) && Agree(a, key)
    requires forall pair :: Key(pair) == key ==> (pair in a <==> pair in b)
    ensures Limit(AllAssigned(NO_LIMITS, a), key) == Limit(AllAssigned(NO_LIMITS, b), key)
  {
    if pair :| pair in a && Key(pair) == key {
      SomeLast(a, key, pair);
      SomeLast(b, key, pair);
      var i: nat :| IsLast(a, key, i);
      var j: nat :| IsLast(b, key, j);
      assert a[i] in a && b[j] in b;
      LastPairDecides(NO_LIMITS, a, key, i);
      LastPairDecides(NO_LIMITS, b, key, j);
    } else {
      assert forall pair <- b :: Key(pair) == key ==> pair in a;
      UnmentionedKeyIsKept(NO_LIMITS, a, key);
      UnmentionedKeyIsKept(NO_LIMITS, b, key);
    }
  }

  /**
   * Order, repetition of equal settings and unknown keys do not matter: two forms mentioning the same settings,
   * none of them twice with different values, have the same limits.
   */
  lemma OrderIsIrrelevant(form: string, form': string)
    requires forall key :: IsLimitKey(key) ==> Agree(Split(form, '&'), key)
    requires forall pair :: IsLimitKey(Key(pair)) ==> (pair in Split(form, '&') <==> pair in Split(form', '&'))
    ensures ParsedLimits(form) == ParsedLimits(form')
  {
    var a, b := Split(form, '&'), Split(form', '&');
    assert IsLimitKey("low") && IsLimitKey("high") && IsLimitKey("afterrun_seconds");
    SamePairsSameLimit(a, b, "low");
    SamePairsSameLimit(a, b, "high");
    SamePairsSameLimit(a, b, "afterrun_seconds");
  }

  // ---- The printed form ----

  /** One filled-in input of an HTML form. */
  datatype Input = Input(name: string, value: string)

  /** None of the characters the parsers treat specially (a browser would percent-encode them). */
  predicate Free(s: string) {
    forall c <- s :: c != '&' && c != '=' && c != '\0'
  }

  predicate Plain(x: Input) {
    x.name != [] && Free(x.name) && Free(x.value)
  }

  function PairText(x: Input): string {
    x.name + "=" + x.value
  }

  function PairTexts(xs: seq<Input>): seq<string> {
    seq(|xs|, i requires 0 <= i < |xs| => PairText(xs[i]))
  }

  /** The body a browser posts for the inputs. */
  function Body(xs: seq<Input>): string {
    if xs == [] then ""
    else if |xs| == 1 then PairText(xs[0])
    else PairText(xs[0]) + "&" + Body(xs[1..])
  }

  lemma SplitOne(t: string, d: char)
    requires t != [] && forall c <- t :: c != d
    ensures Split(t, d) == [t]
  {
    assert forall k :: 0 <= k < |t| ==> t[k] in t;
    UntilIs(t, d, |t|);
    assert t[..|t|] == t && t[|t|..] == [];
  }

  lemma SplitFirst(t: string, d: char, r: string)
    requires t != [] && forall c <- t :: c != d
    ensures Split(t + [d] + r, d) == [t] + Split(r, d)
  {
    var s := t + [d] + r;
    assert forall k :: 0 <= k < |t| ==> s[k] == t[k] && t[k] in t;
    UntilIs(s, d, |t|);
    assert s[..|t|] == t && s[|t|..] == [d] + r && ([d] + r)[1..] == r;
  }

  lemma PairTextIsFree(x: Input)
    requires Plain(x)
    ensures PairText(x) != [] && forall c <- PairText(x) :: c != '&' && c != NUL
  {
  }

  lemma {:induction false} SplitBody(xs: seq<Input>)
    requires forall x <- xs :: Plain(x)
    ensures Split(Body(xs), '&') == PairTexts(xs)
    ensures forall c <- Body(xs) :: c != NUL
  {
    if xs != [] {
      PairTextIsFree(xs[0]);
      assert PairTexts(xs) == [PairText(xs[0])] + PairTexts(xs[1..]);
      if |xs| == 1 {
        SplitOne(PairText(xs[0]), '&');
      } else {
        SplitBody(xs[1..]);
        SplitFirst(PairText(xs[0]), '&', Body(xs[1..]));
      }
    }
  }

  lemma SplitPair(x: Input)
    requires Plain(x)
    ensures Split(PairText(x), '=') != [] && Key(PairText(x)) == x.name
    ensures Value(PairText(x)) == x.value && (x.value != [] ==> HasValue(PairText(x)))
  {
    SplitFirst(x.name, '=', x.value);
    if x.value != [] {
      SplitOne(x.value, '=');
    }
  }

  /** Some input gives the key this value, and none gives it another. */
  ghost predicate Carries(xs: seq<Input>, key: string, value: string) {
    Input(key, value) in xs && forall x <- xs :: x.name == key ==> x.value == value
  }

  /** The inputs contain the three limits, in any order and among any others, each with its printed value. */
  ghost predicate Prints(xs: seq<Input>, l: Limits) {
    && (forall x <- xs :: Plain(x))
    && Carries(xs, "low", Numeral(l.lower))
    && Carries(xs, "high", Numeral(l.upper))
    && Carries(xs, "afterrun_seconds", Numeral(l.afterrun))
  }

  /** The pairs of a posted body are the inputs. */
  lemma PairsOfBody(xs: seq<Input>)
    requires forall x <- xs :: Plain(x)
    ensures var pairs := Split(Body(xs), '&');
            && |pairs| == |xs|
            && forall i :: 0 <= i < |xs| ==>
                 && Split(pairs[i], '=') != [] && Key(pairs[i]) == xs[i].name && Value(pairs[i]) == xs[i].value
                 && (xs[i].value != [] ==> HasValue(pairs[i]))
  {
    SplitBody(xs);
    forall i | 0 <= i < |xs|
      ensures var pair := Split(Body(xs), '&')[i];
              && Split(pair, '=') != [] && Key(pair) == xs[i].name && Value(pair) == xs[i].value
              && (xs[i].value != [] ==> HasValue(pair))
    {
      SplitPair(xs[i]);
    }
  }

  lemma SmallIsUnchanged(v: Uint16)
    ensures ToUint16(v) == v
  {
  }

  /** Pairs that all give the key the same text, and one of which mentions it, give its limit that number. */
  lemma UnanimousPairs(pairs: seq<string>, key: string, n: nat, text: string)
    requires IsLimitKey(key) && n < |pairs| && Key(pairs[n]) == key
    requires forall i :: 0 <= i < |pairs| && Key(pairs[i]) == key ==> Value(pairs[i]) == text
    ensures Limit(AllAssigned(NO_LIMITS, pairs), key) == ToUint16(Atoi(text))
  {
    SomeLast(pairs, key, pairs[n]);
    var i: nat :| IsLast(pairs, key, i);
    LastPairDecides(NO_LIMITS, pairs, key, i);
  }

  lemma CarriedLimit(xs: seq<Input>, key: string, value: string, v: Uint16)
    requires IsLimitKey(key) && Carries(xs, key, value) && Atoi(value) == v
    requires forall x <- xs :: Plain(x)
    ensures Limit(ParsedLimits(Body(xs)), key) == v
  {
    PairsOfBody(xs);
    var pairs := Split(Body(xs), '&');
    var n :| 0 <= n < |xs| && xs[n] == Input(key, value);
    assert forall i :: 0 <= i < |xs| ==> xs[i] in xs;
    UnanimousPairs(pairs, key, n, value);
    SmallIsUnchanged(v);
  }

  lemma CarriedPairs(xs: seq<Input>, low: string, high: string, afterrun: string)
    requires forall x <- xs :: Plain(x)
    requires Carries(xs, "low", low) && Carries(xs, "high", high) && Carries(xs, "afterrun_seconds", afterrun)
    requires low != [] && high != [] && afterrun != []
    requires AtoiDefined(low) && AtoiDefined(high) && AtoiDefined(afterrun)
    ensures Readable(Split(Body(xs), '&'))
  {
    PairsOfBody(xs);
    var pairs := Split(Body(xs), '&');
    forall i | 0 <= i < |pairs| ensures ReadablePair(pairs[i]) {
      assert xs[i] in xs;
    }
  }

  /** Round trip: parsing the printed form gives back exactly the limits, for all 16-bit values. */
  lemma ParsePrinted(xs: seq<Input>, l: Limits)
    requires Prints(xs, l)
    ensures ParsedLimits(Body(xs)) == l
    ensures Readable(Split(Body(xs), '&'))
    ensures forall c <- Body(xs) :: c != NUL
  {
    AtoiOfNumeral(l.lower);
    AtoiOfNumeral(l.upper);
    AtoiOfNumeral(l.afterrun);
    CarriedLimit(xs, "low", Numeral(l.lower), l.lower);
    CarriedLimit(xs, "high", Numeral(l.upper), l.upper);
    CarriedLimit(xs, "afterrun_seconds", Numeral(l.afterrun), l.afterrun);
    CarriedPairs(xs, Numeral(l.lower), Numeral(l.upper), Numeral(l.afterrun));
    SplitBody(xs);
  }

  /** The limits page has these three inputs. */
  function LimitInputs(l: Limits): multiset<Input> {
    multiset{Input("low", Numeral(l.lower)), Input("high", Numeral(l.upper)),
             Input("afterrun_seconds", Numeral(l.afterrun))}
  }

  lemma NumeralIsFree(v: nat)
    ensures Free(Numeral(v))
  {
    var s := Numeral(v);
    assert forall c <- s :: IsDigit(c);
  }

  lemma LimitKeysAreFree(key: string)
    requires IsLimitKey(key)
    ensures key != [] && Free(key)
  {
  }

  lemma NumeralIsPlain(key: string, v: nat)
    requires IsLimitKey(key)
    ensures Plain(Input(key, Numeral(v)))
  {
    NumeralIsFree(v);
    LimitKeysAreFree(key);
  }

  lemma NumeralIsShort(v: Uint16)
    ensures |Numeral(v)| <= 5
  {
    assert v / 10 / 10 / 10 / 10 < 10;
    assert |Numeral(v / 10 / 10 / 10 / 10)| == 1;
    assert |Numeral(v / 10 / 10 / 10)| <= 2;
    assert |Numeral(v / 10 / 10)| <= 3;
  }

  lemma ThreeElements<T>(xs: seq<T>, a: T, b: T, c: T)
    requires multiset(xs) == multiset{a, b, c}
    ensures |xs| == 3 && a in xs && b in xs && c in xs
    ensures forall x <- xs :: x == a || x == b || x == c
  {
    assert |multiset(xs)| == |xs|;
    assert a in multiset(xs) && b in multiset(xs) && c in multiset(xs);
    forall x | x in xs ensures x == a || x == b || x == c {
      assert x in multiset(xs);
    }
  }

  lemma PrintsThree(xs: seq<Input>, l: Limits, a: Input, b: Input, c: Input)
    requires a == Input("low", Numeral(l.lower)) && b == Input("high", Numeral(l.upper))
    requires c == Input("afterrun_seconds", Numeral(l.afterrun))
    requires |xs| == 3 && a in xs && b in xs && c in xs && forall x <- xs :: x == a || x == b || x == c
    ensures Prints(xs, l)
  {
    NumeralIsPlain("low", l.lower);
    NumeralIsPlain("high", l.upper);
    NumeralIsPlain("afterrun_seconds", l.afterrun);
  }

  /** Its three inputs in any order print the limits, in a body that fits the receive buffer. */
  lemma AnyOrderPrints(xs: seq<Input>, l: Limits)
    requires multiset(xs) == LimitInputs(l)
    ensures Prints(xs, l) && |Body(xs)| < 100
  {
    var a, b := Input("low", Numeral(l.lower)), Input("high", Numeral(l.upper));
    var c := Input("afterrun_seconds", Numeral(l.afterrun));
    ThreeElements(xs, a, b, c);
    PrintsThree(xs, l, a, b, c);
    NumeralIsShort(l.lower);
    NumeralIsShort(l.upper);
    NumeralIsShort(l.afterrun);
    assert |PairText(a)| <= 22 && |PairText(b)| <= 22 && |PairText(c)| <= 22;
    ShortPairs(xs);
  }

  lemma ShortPairs(xs: seq<Input>)
    requires |xs| == 3 && forall x <- xs :: |PairText(x)| <= 22
    ensures |Body(xs)| < 100
  {
    BodyOfThree(xs);
    assert xs[0] in xs && xs[1] in xs && xs[2] in xs;
  }

  lemma BodyOfThree(xs: seq<Input>)
    requires |xs| == 3
    ensures |Body(xs)| == |PairText(xs[0])| + |PairText(xs[1])| + |PairText(xs[2])| + 2
  {
    assert xs[1..][1..] == [xs[2]] && Body(xs[1..]) == PairText(xs[1]) + "&" + Body([xs[2]]);
  }

  // ---- The logging form ----

  lemma {:induction false} UnmentionedTextIsKept(l: UdpTexts, pairs: seq<string>, key: string)
    requires forall pair <- pairs :: Key(pair) != key
    ensures key == "udp_server" ==> AllUdpAssigned(l, pairs).server == l.server
    ensures key == "udp_port" ==> AllUdpAssigned(l, pairs).port == l.port
    decreases |pairs|
  {
    if pairs != [] {
      UnmentionedTextIsKept(UdpAssigned(l, pairs[0]), pairs[1..], key);
    }
  }

  /** The last pair with its key decides each text of the logging form. */
  lemma {:induction false} LastTextDecides(l: UdpTexts, pairs: seq<string>, key: string, i: nat)
    requires IsLast(pairs, key, i)
    ensures key == "udp_server" ==> AllUdpAssigned(l, pairs).server == Value(pairs[i])
    ensures key == "udp_port" ==> AllUdpAssigned(l, pairs).port == Value(pairs[i])
    decreases |pairs|
  {
    var rest := pairs[1..];
    assert forall j :: 0 <= j < |rest| ==> rest[j] == pairs[j + 1];
    if i == 0 {
      UnmentionedTextIsKept(UdpAssigned(l, pairs[0]), rest, key);
    } else {
      LastTextDecides(UdpAssigned(l, pairs[0]), rest, key, i - 1);
    }
  }

  lemma CarriedText(xs: seq<Input>, key: string, value: string)
    requires Carries(xs, key, value) && forall x <- xs :: Plain(x)
    ensures key == "udp_server" ==> ParsedUdp(Body(xs)).server == value
    ensures key == "udp_port" ==> ParsedUdp(Body(xs)).port == value
    ensures Mentions(Split(Body(xs), '&'), key)
  {
    PairsOfBody(xs);
    var pairs := Split(Body(xs), '&');
    var n :| 0 <= n < |xs| && xs[n] == Input(key, value);
    SomeLast(pairs, key, pairs[n]);
    var i: nat :| IsLast(pairs, key, i);
    assert xs[i] in xs;
    LastTextDecides(UdpTexts("", ""), pairs, key, i);
  }

  /** Round trip of the logging form: every server text (the empty one included) and every port come back. */
  lemma ParsePrintedUdp(xs: seq<Input>, server: string, port: Uint16)
    requires forall x <- xs :: Plain(x) && |x.value| < 50 && |PairText(x)| < 100
    requires Carries(xs, "udp_server", server) && Carries(xs, "udp_port", Numeral(port))
    ensures var form := Body(xs);
            && ParsedUdp(form).server == server && Atoi(ParsedUdp(form).port) == port
            && UdpReadable(Split(form, '&'))
            && Mentions(Split(form, '&'), "udp_server") && Mentions(Split(form, '&'), "udp_port")
  {
    CarriedText(xs, "udp_server", server);
    CarriedText(xs, "udp_port", Numeral(port));
    AtoiOfNumeral(port);
    SplitBody(xs);
    PairsOfBody(xs);
    var pairs := Split(Body(xs), '&');
    forall i | 0 <= i < |pairs| ensures UdpReadablePair(pairs[i]) {
      assert xs[i] in xs;
    }
  }
}
