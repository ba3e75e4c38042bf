/** post_handler of main/webserver.c: receiving a body in pieces and acting on it. */
module WebServer {
  import opened Types
  import opened Tokens
  import opened Decimal
  import opened SettingsForm
  import opened FormMeaning
  import opened Firmware
  import NvsStore
  import StoreRuns

  const CONTENT_SIZE := 1000
  const MESSAGE_SIZE := 100
  const ADDRESS_SIZE := 4  // sizeof(single_message): the size of an address on this 32-bit target

  function Joined(pieces: seq<string>): string {
    if pieces == [] then "" else pieces[0] + Joined(pieces[1..])
  }

  function Min(a: nat, b: nat): nat {
    if a < b then a else b
  }

  /** The receive size post_handler asks for. */
  function ReceiveSize(contentLen: nat): (n: nat)
    ensures n == if contentLen < 4 then contentLen else 4
  {
    Min(contentLen, ADDRESS_SIZE)
  }

  /** A request whose body arrives in the given pieces, one for each successful receive call. */
  class Request {
    const contentLen: nat
    var arriving: seq<string>

    /** httpd_req_recv never delivers nothing, or more than it is asked for, before the end of the body. */
    ghost predicate Valid()
      reads this
    {
      forall piece <- arriving :: 1 <= |piece| <= ReceiveSize(contentLen)
    }

    constructor (contentLen: nat, pieces: seq<string>)
      requires forall piece <- pieces :: 1 <= |piece| <= ReceiveSize(contentLen)
      ensures Valid() && this.contentLen == contentLen && arriving == pieces
    {
      this.contentLen, arriving := contentLen, pieces;
    }

    /** httpd_req_recv: the next piece, or 0 when the body has been received. */
    method Receive(buf: array<char>, size: nat) returns (ret: nat)
      requires Valid() && size == ReceiveSize(contentLen) && size <= buf.Length
      modifies `arriving, buf
      ensures Valid()
      ensures ret <= size && (ret == 0 <==> old(arriving) == [])
      ensures arriving == if ret == 0 then [] else old(arriving)[1..]
      ensures buf[..ret] + Joined(arriving) == Joined(old(arriving))
    {
      if arriving == [] {
        assert buf[..0] == [];
        return 0;
      }
      var piece := arriving[0];
      assert piece in arriving;
      ret := |piece|;
      forall i | 0 <= i < ret {
        buf[i] := piece[i];
      }
      assert buf[..ret] == piece;
      arriving := arriving[1..];
    }
  }

  /** memcpy(dst + offset, src, n) */
  method Memcpy(dst: array<char>, offset: nat, src: array<char>, n: nat)
    requires dst != src && n <= src.Length && offset + n <= dst.Length
    modifies dst
    ensures dst[..offset + n] == old(dst[..offset]) + src[..n]
  {
    forall i | 0 <= i < n {
      dst[offset + i] := src[i];
    }
  }

  /** The receive loop: content accumulates the pieces in order, whatever their sizes. */
  method ReceiveInto(req: Request, content: array<char>, message: array<char>) returns (offset: nat)
    requires req.Valid() && |Joined(req.arriving)| <= content.Length
    requires content != message && message.Length == 100
    modifies req, content, message
    ensures req.arriving == [] && offset == |Joined(old(req.arriving))|
    ensures content[..offset] == Joined(old(req.arriving))
  {
    ghost var got, left := "", Joined(req.arriving);
    offset := 0;
    var size := ReceiveSize(req.contentLen);
    var ret := req.Receive(message, size);
    while ret != 0
      invariant 0 <= ret <= size && req.Valid()
      invariant offset == |got| && |got| + |left| <= content.Length && content[..offset] == got
      invariant got + left == Joined(old(req.arriving))
      invariant message[..ret] + Joined(req.arriving) == left
      invariant ret == 0 ==> req.arriving == []
      decreases |req.arriving|, ret
    {
      Regroup(got, message[..ret], Joined(req.arriving));
      Memcpy(content, offset, message, ret);
      offset := offset + ret;
      got, left := got + message[..ret], Joined(req.arriving);
      ret := req.Receive(message, size);
    }
  }

  lemma Regroup(a: string, b: string, c: string)
    ensures (a + b) + c == a + (b + c)
    ensures |a| + |b| + |c| == |a| + |b + c|
  {
  }

  /** The first half of post_handler: the body, terminated, in a fresh buffer. */
  method ReceiveBody(req: Request) returns (content: array<char>, offset: nat)
    requires req.Valid() && |Joined(req.arriving)| < 1000
    modifies req
    ensures fresh(content) && content.Length == 1000 && req.arriving == []
    ensures offset < 1000 && content[..offset] == Joined(old(req.arriving)) && content[offset] == '\0'
  {
    content := new char[CONTENT_SIZE](_ => NUL);
    var message := new char[MESSAGE_SIZE];
    offset := ReceiveInto(req, content, message);
    ghost var body := content[..offset];
    content[offset] := NUL;
    assert content[..offset] == body;
  }

  /** The URIs post_handler tells apart (credentials end in a restart and are not parsed here). */
  datatype Route = LimitsRoute | LoggingRoute

  /** The C string a body makes: everything before its first NUL. */
  function FormOf(body: string): string {
    body[..Until(body, NUL)]
  }

  /** What the parser of the route needs of the form. */
  ghost predicate Acceptable(route: Route, form: string) {
    match route
    case LimitsRoute => Readable(Split(form, '&'))
    case LoggingRoute => UdpComplete(form) && NvsStore.FitsServer(ParsedUdp(form).server)
  }

  /** The action a posted form amounts to. */
  function Posted(route: Route, form: string): Action {
    match route
    case LimitsRoute =>
      var l := ParsedLimits(form);
      LimitsPosted(l.lower, l.upper, l.afterrun)
    case LoggingRoute =>
      UdpServerPosted(ParsedUdp(form).server, ToUint16(Atoi(ParsedUdp(form).port)))
  }

  method ApplyLimits(ctrl: Controller, content: array<char>, ghost n: nat, md: NvsStore.Medium, ghost c: Clock)
    requires IsString(content[..], 0, n) && Acceptable(LimitsRoute, content[..n])
    modifies content, ctrl.store
    ensures ctrl.Abs() == Step(old(ctrl.Abs()), Event(Posted(LimitsRoute, old(content[..n])), c, md))
  {
    var l := HandleLimits(content, n);
    ctrl.store.SetLimit(l.lower, l.upper, l.afterrun, md);
  }

  method ApplyUdpLogging(ctrl: Controller, content: array<char>, ghost n: nat, md: NvsStore.Medium, ghost c: Clock)
    requires IsString(content[..], 0, n) && Acceptable(LoggingRoute, content[..n])
    modifies content, ctrl.store
    ensures ctrl.Abs() == Step(old(ctrl.Abs()), Event(Posted(LoggingRoute, old(content[..n])), c, md))
  {
    var server, port := HandleUdpLogging(content, n);
    ctrl.store.SetUdpServer(server, port, md);
  }

  /** post_handler: however the body is fragmented, the effect is that of the form it contains. */
  method PostHandler(ctrl: Controller, req: Request, route: Route, md: NvsStore.Medium, ghost c: Clock)
    requires req.Valid() && |Joined(req.arriving)| < 1000
    requires Acceptable(route, FormOf(Joined(req.arriving)))
    modifies req, ctrl.store
    ensures ctrl.Abs() == Step(old(ctrl.Abs()), Event(Posted(route, FormOf(Joined(old(req.arriving)))), c, md))
  {
    ghost var body := Joined(req.arriving);
    ghost var n := Until(body, NUL);
    var content, offset := ReceiveBody(req);
    assert content[..n] == body[..n] && IsString(content[..], 0, n);
    match route {
      case LimitsRoute => ApplyLimits(ctrl, content, n, md, c);
      case LoggingRoute => ApplyUdpLogging(ctrl, content, n, md, c);
    }
  }

  lemma FormWithoutNul(body: string)
    requires forall ch <- body :: ch != NUL
    ensures FormOf(body) == body
  {
    assert forall i :: 0 <= i < |body| ==> body[i] in body;
  }

  predicate LimitsAre(s: NvsStore.State, l: Limits) {
    NvsStore.LowLimit(s) == l.lower && NvsStore.HighLimit(s) == l.upper && NvsStore.AfterrunSeconds(s) == l.afterrun
  }

  lemma PrintedPost(l: Limits, xs: seq<Input>)
    requires multiset(xs) == LimitInputs(l)
    ensures |Body(xs)| < 1000 && Acceptable(LimitsRoute, FormOf(Body(xs)))
    ensures Posted(LimitsRoute, FormOf(Body(xs))) == LimitsPosted(l.lower, l.upper, l.afterrun)
  {
    AnyOrderPrints(xs, l);
    ParsePrinted(xs, l);
    FormWithoutNul(Body(xs));
  }

  /**
   * The settings page round trip: posting the three printed limits in any order, received in any fragments, makes
   * the getters return exactly those values, at once and after any later events that post no limits, over any
   * number of reboots on which the store opens.
   */
  lemma SettingsRoundTrip(f: State, l: Limits, c: Clock, md: NvsStore.Medium, es: seq<Event>)
    requires f.store.mounted && md.commits
    requires {NvsStore.LowLimitKey, NvsStore.HighLimitKey, NvsStore.AfterrunKey} <= md.ints
    requires forall e <- es :: !e.action.LimitsPosted? && e.action != PoweredOn(false)
    ensures forall xs, pieces | multiset(xs) == LimitInputs(l) && Joined(pieces) == Body(xs) ::
      var form := FormOf(Joined(pieces));
      && |Joined(pieces)| < 1000 && Acceptable(LimitsRoute, form)
      && LimitsAre(Run(Step(f, Event(Posted(LimitsRoute, form), c, md)), es).store, l)
  {
    forall xs, pieces | multiset(xs) == LimitInputs(l) && Joined(pieces) == Body(xs)
      ensures var form := FormOf(Joined(pieces));
              && |Joined(pieces)| < 1000 && Acceptable(LimitsRoute, form)
              && LimitsAre(Run(Step(f, Event(Posted(LimitsRoute, form), c, md)), es).store, l)
    {
      PrintedPost(l, xs);
      StoreRuns.LimitsPersist(f, Event(LimitsPosted(l.lower, l.upper, l.afterrun), c, md), es);
    }
  }

  lemma PrintedUdpPost(server: string, port: Uint16, xs: seq<Input>)
    requires NvsStore.FitsServer(server)
    requires forall x <- xs :: Plain(x) && |x.value| < 50 && |PairText(x)| < 100
    requires Carries(xs, "udp_server", server) && Carries(xs, "udp_port", Numeral(port))
    ensures Acceptable(LoggingRoute, FormOf(Body(xs)))
    ensures Posted(LoggingRoute, FormOf(Body(xs))) == UdpServerPosted(server, port)
  {
    ParsePrintedUdp(xs, server, port);
    SplitBody(xs);
    FormWithoutNul(Body(xs));
    SmallIsUnchanged(port);
  }

  /**
   * The round trip of the logging form: however the body is fragmented, server and port are those posted, at once
   * and after any later events that post no others, over any number of reboots on which the store opens.
   */
  lemma LoggingRoundTrip(f: State, server: string, port: Uint16, xs: seq<Input>, pieces: seq<string>, c: Clock,
                         md: NvsStore.Medium, es: seq<Event>)
    requires f.store.mounted && NvsStore.FitsServer(server)
    requires md.commits && NvsStore.UdpPortKey in md.ints && NvsStore.UdpServerKey in md.strs
    requires forall x <- xs :: Plain(x) && |x.value| < 50 && |PairText(x)| < 100
    requires Carries(xs, "udp_server", server) && Carries(xs, "udp_port", Numeral(port))
    requires Joined(pieces) == Body(xs)
    requires forall e <- es :: !e.action.UdpServerPosted? && e.action != PoweredOn(false)
    ensures Acceptable(LoggingRoute, FormOf(Joined(pieces)))
    ensures var g := Step(f, Event(Posted(LoggingRoute, FormOf(Joined(pieces))), c, md));
            var s := Run(g, es).store;
            s.cache.udpServer == server && NvsStore.UdpPort(s) == port
  {
    PrintedUdpPost(server, port, xs);
    StoreRuns.UdpServerPersists(f, Event(UdpServerPosted(server, port), c, md), es);
  }
}
