/** main/wlan.c: reconnecting to the access point, and the choice between station and access-point mode. */
module Wlan {

  datatype WifiEvent = StaStart | Disconnected | GotIp | OtherEvent

  const MAXIMUM_RETRY := 3

  /** s_retry_num, the two event bits, and the number of esp_wifi_connect calls so far. */
  datatype Link = Link(retries: nat, connected: bool, failed: bool, connects: nat)

  const IDLE := Link(0, false, false, 0)

  function Handled(l: Link, e: WifiEvent): Link {
    match e
    case StaStart => l.(connects := l.connects + 1)
    case Disconnected =>
      if l.retries < MAXIMUM_RETRY then l.(connects := l.connects + 1, retries := l.retries + 1)
      else l.(failed := true)
    case GotIp => l.(retries := 0, connected := true)
    case OtherEvent => l
  }

  function AllHandled(es: seq<WifiEvent>): Link {
    if es == [] then IDLE else Handled(AllHandled(es[..|es| - 1]), es[|es| - 1])
  }

  // ---- By history ----

  /** Disconnects since the last GotIp. */
  function Drops(es: seq<WifiEvent>): nat {
    if es == [] then 0
    else match es[|es| - 1]
      case Disconnected => Drops(es[..|es| - 1]) + 1
      case GotIp => 0
      case _ => Drops(es[..|es| - 1])
  }

  /** Event i is at least the fourth disconnect since the last GotIp. */
  predicate GivesUp(es: seq<WifiEvent>, i: nat)
    requires i < |es|
  {
    es[i] == Disconnected && Drops(es[..i]) >= 3
  }

  /** Event i makes the station connect again. */
  predicate Reconnects(es: seq<WifiEvent>, i: nat)
    requires i < |es|
  {
    es[i] == StaStart || (es[i] == Disconnected && Drops(es[..i]) < 3)
  }

  /**
   * In every run the retry counter is min(3, disconnects since the last GotIp), and the connected bit is set
   * exactly if an address was ever obtained.
   */
  lemma {:induction false} RetryCounter(es: seq<WifiEvent>)
    ensures AllHandled(es).retries == if Drops(es) < 3 then Drops(es) else 3
    ensures AllHandled(es).connected <==> GotIp in es
  {
    if es != [] {
      RetryCounter(es[..|es| - 1]);
      assert es == es[..|es| - 1] + [es[|es| - 1]];
    }
  }

  lemma PrefixAgrees(es: seq<WifiEvent>, n: nat, i: nat)
    requires i < n <= |es|
    ensures GivesUp(es[..n], i) == GivesUp(es, i) && Reconnects(es[..n], i) == Reconnects(es, i)
  {
    assert es[..n][..i] == es[..i];
  }

  /** The fail bit is set exactly if some disconnect was the fourth or a later one of its series. */
  lemma {:induction false} FailBit(es: seq<WifiEvent>)
    ensures AllHandled(es).failed <==> exists i :: 0 <= i < |es| && GivesUp(es, i)
  {
    if es != [] {
      var n := |es| - 1;
      FailBit(es[..n]);
      RetryCounter(es[..n]);
      forall i | 0 <= i < n ensures GivesUp(es[..n], i) == GivesUp(es, i) {
        PrefixAgrees(es, n, i);
      }
      assert AllHandled(es).failed <==> AllHandled(es[..n]).failed || GivesUp(es, n);
    }
  }

  function ReconnectTimes(es: seq<WifiEvent>): set<nat> {
    set i: nat | i < |es| && Reconnects(es, i)
  }

  /** esp_wifi_connect is called once for the start and for every disconnect that does not give up, and only then. */
  lemma {:induction false} ConnectCalls(es: seq<WifiEvent>)
    ensures AllHandled(es).connects == |ReconnectTimes(es)|
  {
    if es != [] {
      var n := |es| - 1;
      ConnectCalls(es[..n]);
      RetryCounter(es[..n]);
      ReconnectTimesSnoc(es);
      assert n !in ReconnectTimes(es[..n]);
    }
  }

  lemma ReconnectTimesSnoc(es: seq<WifiEvent>)
    requires es != []
    ensures var n := |es| - 1;
            ReconnectTimes(es) == ReconnectTimes(es[..n]) + if Reconnects(es, n) then {n} else {}
  {
    var n := |es| - 1;
    forall i: nat | i < n ensures Reconnects(es[..n], i) == Reconnects(es, i) {
      PrefixAgrees(es, n, i);
    }
  }

  // ---- Start-up ----

  predicate BitSet(l: Link) {
    l.connected || l.failed
  }

  /** After m events the wait of wifi_init_sta, begun after k of them, sees its first bit. */
  ghost predicate Wakes(es: seq<WifiEvent>, k: nat, m: nat) {
    k <= m <= |es| && BitSet(AllHandled(es[..m])) && forall j :: k <= j < m ==> !BitSet(AllHandled(es[..j]))
  }

  function Count(es: seq<WifiEvent>, e: WifiEvent): nat {
    if es == [] then 0 else Count(es[..|es| - 1], e) + if es[|es| - 1] == e then 1 else 0
  }

  /** Until the first address, a run without a decision has at most three disconnects. */
  lemma {:induction false} Undecided(es: seq<WifiEvent>)
    ensures GotIp !in es ==> Drops(es) == Count(es, Disconnected)
    ensures !BitSet(AllHandled(es)) ==> GotIp !in es && Count(es, Disconnected) <= 3
  {
    if es != [] {
      var n := |es| - 1;
      assert es == es[..n] + [es[n]];
      Undecided(es[..n]);
      RetryCounter(es[..n]);
      RetryCounter(es);
    }
  }

  /**
   * Start-up that waits from the first event on chooses station mode exactly if the first address precedes the
   * fourth disconnect, and access-point mode exactly at the fourth disconnect with no address before it.
   */
  lemma StartDecision(es: seq<WifiEvent>, m: nat)
    requires Wakes(es, 0, m)
    ensures AllHandled(es[..m]).connected <==>
      GotIp in es[..m] && Count(es[..m], Disconnected) <= 3
    ensures !AllHandled(es[..m]).connected <==>
      GotIp !in es[..m] && Count(es[..m], Disconnected) == 4
    ensures Count(es[..m], Disconnected) + Count(es[..m], GotIp) <= 4
  {
    var p := es[..m];
    RetryCounter(p);
    assert m > 0 by {
      assert es[..0] == [];
    }
    var q := es[..m - 1];
    assert p[..m - 1] == q && p == q + [p[m - 1]];
    Undecided(q);
    RetryCounter(q);
    NoneCounted(q, GotIp);
  }

  lemma {:induction false} NoneCounted(es: seq<WifiEvent>, e: WifiEvent)
    requires e !in es
    ensures Count(es, e) == 0
  {
    if es != [] {
      NoneCounted(es[..|es| - 1], e);
    }
  }

  /** Bits are never cleared. */
  lemma {:induction false} BitsStay(es: seq<WifiEvent>, j: nat, m: nat)
    requires j <= m <= |es|
    ensures BitSet(AllHandled(es[..j])) ==> BitSet(AllHandled(es[..m]))
    decreases m
  {
    if j < m {
      BitsStay(es, j, m - 1);
      assert es[..m][..m - 1] == es[..m - 1];
    }
  }

  lemma WakesOnce(es: seq<WifiEvent>, k: nat, m: nat, n: nat)
    requires Wakes(es, k, m) && Wakes(es, k, n)
    ensures m == n
  {
  }

  /**
   * A wait begun after k events, where d is when the first bit is set: it ends at d, or at once if the bit is
   * already there. Its outcome differs from that of a timely wait exactly if the fail bit came first and an address
   * followed before k; it is station mode then, because the connected bit is tested first.
   */
  lemma LateWait(es: seq<WifiEvent>, k: nat, d: nat)
    requires Wakes(es, 0, d) && k <= |es|
    ensures var m := if k < d then d else k;
            && (forall n: nat :: Wakes(es, k, n) <==> n == m)
            && (AllHandled(es[..m]).connected <==> AllHandled(es[..d]).connected || GotIp in es[d..m])
  {
    var m := if k < d then d else k;
    BitsStay(es, d, m);
    assert es[..m] == es[..d] + es[d..m];
    RetryCounter(es[..d]);
    RetryCounter(es[..m]);
    assert Wakes(es, k, m);
    forall n: nat | Wakes(es, k, n) ensures n == m {
      WakesOnce(es, k, m, n);
    }
  }

  lemma DecidingEventsCounted(es: seq<WifiEvent>)
    requires !BitSet(AllHandled(es))
    ensures Count(es, Disconnected) + Count(es, GotIp) <= 3
  {
    Undecided(es);
    NoneCounted(es, GotIp);
  }

  /** Four disconnects or addresses are always enough for a decision. */
  lemma StartDecides(es: seq<WifiEvent>)
    requires Count(es, Disconnected) + Count(es, GotIp) >= 4
    ensures exists m: nat :: Wakes(es, 0, m)
  {
    assert es[..|es|] == es;
    if !BitSet(AllHandled(es)) {
      DecidingEventsCounted(es);
    }
    FirstWake(es, |es|);
  }

  lemma {:induction false} FirstWake(es: seq<WifiEvent>, n: nat)
    requires n <= |es| && BitSet(AllHandled(es[..n]))
    ensures exists m: nat :: Wakes(es, 0, m)
  {
    if j: nat :| j < n && BitSet(AllHandled(es[..j])) {
      FirstWake(es, j);
    } else {
      assert Wakes(es, 0, n);
    }
  }

  // ---- The program ----

  datatype StartResult = StationMode | AccessPointMode | StillWaiting

  class Wifi {
    var retryNum: nat
    var connectedBit: bool
    var failBit: bool
    ghost var connects: nat

    ghost function Abs(): Link
      reads this
    {
      Link(retryNum, connectedBit, failBit, connects)
    }

    constructor ()
      ensures Abs() == IDLE
    {
      retryNum, connectedBit, failBit, connects := 0, false, false, 0;
    }

    /** event_handler */
    method EventHandler(e: WifiEvent)
      modifies this
      ensures Abs() == Handled(old(Abs()), e)
    {
      if e == StaStart {
        connects := connects + 1;
      } else if e == Disconnected {
        if retryNum < MAXIMUM_RETRY {
          connects := connects + 1;
          retryNum := retryNum + 1;
        } else {
          failBit := true;
        }
      } else if e == GotIp {
        retryNum := 0;
        connectedBit := true;
      }
    }

    /** wlan_start: handlers run on the given events until a bit wakes the wait; the bits decide the mode. */
    method Start(es: seq<WifiEvent>) returns (r: StartResult, ghost m: nat)
      requires Abs() == IDLE
      modifies this
      ensures m <= |es| && Abs() == AllHandled(es[..m])
      ensures r == StillWaiting ==> m == |es| && forall j :: 0 <= j <= m ==> !BitSet(AllHandled(es[..j]))
      ensures r != StillWaiting ==> Wakes(es, 0, m)
      ensures r == StationMode ==> AllHandled(es[..m]).connected
      ensures r == AccessPointMode ==> !AllHandled(es[..m]).connected
    {
      var n := 0;
      while n < |es| && !connectedBit && !failBit
        invariant 0 <= n <= |es| && Abs() == AllHandled(es[..n])
        invariant forall j :: 0 <= j < n ==> !BitSet(AllHandled(es[..j]))
      {
        EventHandler(es[n]);
        assert es[..n + 1][..n] == es[..n];
        n := n + 1;
      }
      m := n;
      r := if connectedBit then StationMode else if failBit then AccessPointMode else StillWaiting;
    }
  }
}
