/**
 * The test-case base classes: reading the real address out of a reply
 * payload, judging one attempt, running a case's attempts in order until
 * the first failure, and the `setUp` that prepares the packet generator
 * and the expected address.  The network is an oracle: given every packet
 * sent so far (the current one last) and how the reply is collected, it
 * yields the payload of the packet received, if any.
 */
module BaseTest {
  import opened Wrappers
  import opened PyStr
  import opened PktGen

  /** The text the echo server puts before the address it read. */
  const REAL_ADDR_MARKER: string := "RealAddr="

  datatype AttemptError =
    | NoPktRecv
    | RealAddrNotFound(payload: string)
    | RealAddrMismatch(actual: string, expected: string)

  datatype Outcome = Pass | Fail(error: AttemptError)

  /** `payload.split('RealAddr=')[-1]` when there are at least two parts. */
  function ExtractRealAddr(payload: string): Option<string>
  {
    var parts := Split(payload, REAL_ADDR_MARKER);
    if |parts| < 2 then None else Some(parts[|parts| - 1])
  }

  lemma MarkerUnbordered()
    ensures Unbordered(REAL_ADDR_MARKER)
  {
    var m := REAL_ADDR_MARKER;
    forall d | 0 < d < |m|
      ensures m[d..] != m[..|m| - d]
    {
      assert m[d..][0] != m[..|m| - d][0];
    }
  }

  /**
   * Nothing is extracted exactly when the marker is absent; otherwise the
   * payload ends with the marker and the extracted text, which holds no
   * further marker: it is the text after the last marker.
   */
  lemma ExtractRealAddrSpec(payload: string)
    ensures ExtractRealAddr(payload).None? <==> !Contains(payload, REAL_ADDR_MARKER)
    ensures ExtractRealAddr(payload).Some? ==>
      EndsWith(payload, REAL_ADDR_MARKER + ExtractRealAddr(payload).value) &&
      !Contains(ExtractRealAddr(payload).value, REAL_ADDR_MARKER)
  {
    var m := REAL_ADDR_MARKER;
    SplitSeveralIff(payload, m);
    if |Split(payload, m)| >= 2 {
      SplitLastFollowsSeparator(payload, m);
    }
  }

  /** Whatever precedes it, a final marker followed by marker-free text yields that text. */
  lemma ExtractAfterLastMarker(prefix: string, t: string)
    requires !Contains(t, REAL_ADDR_MARKER)
    ensures ExtractRealAddr(prefix + REAL_ADDR_MARKER + t) == Some(t)
  {
    MarkerUnbordered();
    SplitLastAfterFinalSeparator(prefix, REAL_ADDR_MARKER, t);
  }

  /**
   * `assert_payload`: raises "real addr not found" without a marker, and
   * otherwise compares the text after the last marker with the expected one.
   */
  function AssertPayload(payload: string, expected: string): Outcome
  {
    match ExtractRealAddr(payload)
    case None => Fail(RealAddrNotFound(payload))
    case Some(actual) => if actual == expected then Pass else Fail(RealAddrMismatch(actual, expected))
  }

  /**
   * A payload passes exactly when it ends with the marker and the expected
   * text and the expected text holds no marker; it is reported as missing
   * the address exactly when it holds no marker.
   */
  lemma AssertPayloadPassesIff(payload: string, expected: string)
    ensures AssertPayload(payload, expected) == Pass <==>
      EndsWith(payload, REAL_ADDR_MARKER + expected) && !Contains(expected, REAL_ADDR_MARKER)
    ensures AssertPayload(payload, expected) == Fail(RealAddrNotFound(payload)) <==>
      !Contains(payload, REAL_ADDR_MARKER)
  {
    var m := REAL_ADDR_MARKER;
    ExtractRealAddrSpec(payload);
    if EndsWith(payload, m + expected) && !Contains(expected, m) {
      var k := |payload| - |m + expected|;
      assert payload[k..k + |m|] == (m + expected)[..|m|];
      assert OccursAt(payload, m, k);
      MarkerUnbordered();
      SuffixAfterSeparatorUnique(payload, m, ExtractRealAddr(payload).value, expected);
    }
  }

  /** How the reply is collected: `sr1`, or a sniffer on a destination port. */
  datatype Receive = Sr1 | Sniff(dstPort: int)

  /** One `sr1_and_assert` or `send_sniff_and_assert` call. */
  datatype Attempt = Attempt(pkt: Packet, recv: Receive, expected: string)

  /** The payload received after the last of the sent packets, if any arrives in time. */
  type Network = (seq<Packet>, Receive) -> Option<string>

  /** No packet is an error; a packet's payload goes to `assert_payload`. */
  function Judge(reply: Option<string>, expected: string): (o: Outcome)
    ensures o == Fail(NoPktRecv) <==> reply.None?
  {
    match reply
    case None => Fail(NoPktRecv)
    case Some(payload) => AssertPayload(payload, expected)
  }

  /**
   * An attempt passes exactly when a reply arrived that ends with the
   * marker and the expected text, the expected text holding no marker.
   */
  lemma JudgePassesIff(reply: Option<string>, expected: string)
    ensures Judge(reply, expected) == Pass <==>
      reply.Some? && EndsWith(reply.value, REAL_ADDR_MARKER + expected) && !Contains(expected, REAL_ADDR_MARKER)
  {
    if reply.Some? {
      AssertPayloadPassesIff(reply.value, expected);
    }
  }

  /** The packets of a list of attempts, in order. */
  function Packets(plan: seq<Attempt>): (r: seq<Packet>)
    ensures |r| == |plan|
  {
    if plan == [] then [] else [plan[0].pkt] + Packets(plan[1..])
  }

  datatype Verdict = Passed | Failed(index: nat, error: AttemptError)

  /** A run of later attempts seen from `n` attempts earlier. */
  function Later(r: (Verdict, seq<Packet>), n: nat): (Verdict, seq<Packet>)
  {
    (if r.0.Failed? then Failed(r.0.index + n, r.0.error) else Passed, r.1)
  }

  /**
   * The attempts run one after another from the sent packets `sent`; the
   * first failure raises and ends the case.  Yields the verdict and every
   * packet sent.
   */
  function Run(net: Network, sent: seq<Packet>, plan: seq<Attempt>): (Verdict, seq<Packet>)
    decreases |plan|
  {
    if plan == [] then (Passed, sent)
    else
      var now := sent + [plan[0].pkt];
      match Judge(net(now, plan[0].recv), plan[0].expected)
      case Fail(e) => (Failed(0, e), now)
      case Pass => Later(Run(net, now, plan[1..]), 1)
  }

  /** One step of a run: the first attempt's outcome decides whether the rest runs. */
  lemma RunStep(net: Network, sent: seq<Packet>, plan: seq<Attempt>, o: Outcome)
    requires plan != []
    requires o == Judge(net(sent + [plan[0].pkt], plan[0].recv), plan[0].expected)
    ensures o.Fail? ==> Run(net, sent, plan) == (Failed(0, o.error), sent + [plan[0].pkt])
    ensures o.Pass? ==> Run(net, sent, plan) == Later(Run(net, sent + [plan[0].pkt], plan[1..]), 1)
  {
  }

  lemma LaterLater(r: (Verdict, seq<Packet>), n: nat)
    ensures Later(Later(r, 1), n) == Later(r, n + 1)
  {
  }

  /** What attempt `k` of a run meets, provided the attempts before it passed. */
  function AttemptOutcome(net: Network, sent: seq<Packet>, plan: seq<Attempt>, k: nat): Outcome
    requires k < |plan|
  {
    Judge(net(sent + Packets(plan[..k + 1]), plan[k].recv), plan[k].expected)
  }

  lemma PacketsOfPrefix(plan: seq<Attempt>, k: nat)
    requires 0 < k <= |plan|
    ensures Packets(plan[..k]) == [plan[0].pkt] + Packets(plan[1..][..k - 1])
  {
    assert plan[..k][1..] == plan[1..][..k - 1];
  }

  /** Attempt `k` of a run is attempt `k - 1` of the run after the first packet. */
  lemma AttemptOutcomeShift(net: Network, sent: seq<Packet>, plan: seq<Attempt>, k: nat)
    requires 0 < k < |plan|
    ensures AttemptOutcome(net, sent, plan, k) == AttemptOutcome(net, sent + [plan[0].pkt], plan[1..], k - 1)
  {
    PacketsOfPrefix(plan, k + 1);
    assert sent + Packets(plan[..k + 1]) == sent + [plan[0].pkt] + Packets(plan[1..][..k]);
  }

  /** The first attempt of a run meets the reply to the first packet. */
  lemma AttemptOutcomeFirst(net: Network, sent: seq<Packet>, plan: seq<Attempt>)
    requires plan != []
    ensures AttemptOutcome(net, sent, plan, 0) == Judge(net(sent + [plan[0].pkt], plan[0].recv), plan[0].expected)
  {
    PacketsOfPrefix(plan, 1);
    assert plan[1..][..0] == [];
    assert Packets(plan[..1]) == [plan[0].pkt];
  }

  /** A run passes exactly when every attempt passes. */
  lemma {:induction false} RunPassesIff(net: Network, sent: seq<Packet>, plan: seq<Attempt>)
    ensures Run(net, sent, plan).0 == Passed <==>
      forall k | 0 <= k < |plan| :: AttemptOutcome(net, sent, plan, k) == Pass
    decreases |plan|
  {
    if plan != [] {
      var now := sent + [plan[0].pkt];
      AttemptOutcomeFirst(net, sent, plan);
      if AttemptOutcome(net, sent, plan, 0) == Pass {
        RunPassesIff(net, now, plan[1..]);
        forall k | 0 < k < |plan|
          ensures AttemptOutcome(net, sent, plan, k) == AttemptOutcome(net, now, plan[1..], k - 1)
        {
          AttemptOutcomeShift(net, sent, plan, k);
        }
        if forall k | 0 <= k < |plan| - 1 :: AttemptOutcome(net, now, plan[1..], k) == Pass {
          assert forall k | 0 <= k < |plan| :: AttemptOutcome(net, sent, plan, k) == Pass;
        } else {
          var k :| 0 <= k < |plan| - 1 && AttemptOutcome(net, now, plan[1..], k) != Pass;
          assert AttemptOutcome(net, sent, plan, k + 1) != Pass;
        }
      }
    }
  }

  /** A passing run sent every packet of the plan, in order. */
  lemma {:induction false} RunSentPassed(net: Network, sent: seq<Packet>, plan: seq<Attempt>)
    requires Run(net, sent, plan).0 == Passed
    ensures Run(net, sent, plan).1 == sent + Packets(plan)
    decreases |plan|
  {
    if plan != [] {
      var now := sent + [plan[0].pkt];
      var o := Judge(net(now, plan[0].recv), plan[0].expected);
      RunStep(net, sent, plan, o);
      RunSentPassed(net, now, plan[1..]);
      assert Packets(plan) == [plan[0].pkt] + Packets(plan[1..]);
    }
  }

  /**
   * A failing run failed at one of its attempts and sent the packets up to
   * that one and no further.
   */
  lemma {:induction false} RunSentFailed(net: Network, sent: seq<Packet>, plan: seq<Attempt>)
    requires Run(net, sent, plan).0.Failed?
    ensures Run(net, sent, plan).0.index < |plan|
    ensures Run(net, sent, plan).1 == sent + Packets(plan[..Run(net, sent, plan).0.index + 1])
    decreases |plan|
  {
    var now := sent + [plan[0].pkt];
    var o := Judge(net(now, plan[0].recv), plan[0].expected);
    RunStep(net, sent, plan, o);
    if o == Pass {
      RunSentFailed(net, now, plan[1..]);
      var rest := Run(net, now, plan[1..]);
      PacketsOfPrefix(plan, rest.0.index + 2);
      assert sent + Packets(plan[..rest.0.index + 2]) == now + Packets(plan[1..][..rest.0.index + 1]);
    } else {
      PacketsOfPrefix(plan, 1);
      assert Packets(plan[1..][..0]) == [];
    }
  }

  /** A failing run failed at its first failing attempt, with that attempt's error. */
  lemma {:induction false} RunFailsAtFirstFailure(net: Network, sent: seq<Packet>, plan: seq<Attempt>)
    requires Run(net, sent, plan).0.Failed?
    ensures Run(net, sent, plan).0.index < |plan|
    ensures forall k | 0 <= k < Run(net, sent, plan).0.index :: AttemptOutcome(net, sent, plan, k) == Pass
    ensures AttemptOutcome(net, sent, plan, Run(net, sent, plan).0.index) == Fail(Run(net, sent, plan).0.error)
    decreases |plan|
  {
    var now := sent + [plan[0].pkt];
    AttemptOutcomeFirst(net, sent, plan);
    RunSentFailed(net, sent, plan);
    if AttemptOutcome(net, sent, plan, 0) == Pass {
      RunFailsAtFirstFailure(net, now, plan[1..]);
      var i := Run(net, sent, plan).0.index;
      forall k | 0 < k <= i
        ensures AttemptOutcome(net, sent, plan, k) == AttemptOutcome(net, now, plan[1..], k - 1)
      {
        AttemptOutcomeShift(net, sent, plan, k);
      }
    }
  }

  /**
   * A test case after `__init__`: the endpoint fields its `setUp` fills in,
   * the generator and expected address prepared from them, and the packets
   * the case has put on the wire.
   */
  class TestCase {
    /** A load-balancer case (`BaseTestLb`) rather than a server case (`BaseTestServ`). */
    const lb: bool
    const net: Network
    var dip: Option<string>
    var dport: Option<int>
    var sip: Option<string>
    var pktGen: Option<PktGen>
    var expectReadAddr: Option<string>
    var sent: seq<Packet>

    /** `__init__`: every endpoint field is None. */
    constructor(lb: bool, net: Network)
      ensures this.lb == lb && this.net == net
      ensures dip == None && dport == None && sip == None
      ensures pktGen == None && expectReadAddr == None && sent == []
    {
      this.lb := lb;
      this.net := net;
      dip, dport, sip := None, None, None;
      pktGen, expectReadAddr := None, None;
      sent := [];
    }

    /** The endpoint the `setUp` needs is missing, so the case is skipped. */
    predicate MissingEndpoint()
      reads this
    {
      dip.None? || dport.None? || (lb && sip.None?)
    }

    /**
     * `setUp`: skips the case when an endpoint is missing; otherwise builds
     * the generator with a random source port and the default payload and,
     * for a load-balancer case, expects the case's own address and that port.
     */
    method SetUp(draw: real) returns (skipped: bool)
      requires 0.0 <= draw < 1.0
      modifies this`pktGen, this`expectReadAddr
      ensures skipped <==> MissingEndpoint()
      ensures skipped ==> pktGen == old(pktGen) && expectReadAddr == old(expectReadAddr)
      ensures !skipped ==> pktGen == Some(NewPktGen(dip.value, dport.value, None, None, draw))
      ensures !skipped ==> 10000 <= pktGen.value.sport < 60000 && pktGen.value.payload == DEFAULT_PAYLOAD
      ensures !skipped && lb ==>
        expectReadAddr == Some(sip.value + ":" + IntToString(pktGen.value.sport))
      ensures !skipped && !lb ==> expectReadAddr == old(expectReadAddr)
    {
      if MissingEndpoint() {
        return true;
      }
      var g := NewPktGen(dip.value, dport.value, None, None, draw);
      pktGen := Some(g);
      if lb {
        expectReadAddr := Some(sip.value + ":" + IntToString(g.sport));
      }
      return false;
    }

    /** `sr1_and_assert`: sends the packet and judges the one reply. */
    method Sr1AndAssert(pkt: Packet, expected: string) returns (o: Outcome)
      modifies this`sent
      ensures sent == old(sent) + [pkt]
      ensures o == Judge(net(sent, Sr1), expected)
    {
      sent := sent + [pkt];
      o := Judge(net(sent, Sr1), expected);
    }

    /**
     * `send_sniff_and_assert`: sends the packet and judges the first packet
     * sniffed with the given destination port.
     */
    method SendSniffAndAssert(pkt: Packet, expected: string, sniffDstPort: int) returns (o: Outcome)
      modifies this`sent
      ensures sent == old(sent) + [pkt]
      ensures o == Judge(net(sent, Sniff(sniffDstPort)), expected)
    {
      sent := sent + [pkt];
      o := Judge(net(sent, Sniff(sniffDstPort)), expected);
    }

    /** Runs the attempts in order; the first failure ends the case. */
    method RunAttempts(plan: seq<Attempt>) returns (v: Verdict)
      modifies this`sent
      ensures (v, sent) == Run(net, old(sent), plan)
    {
      var i := 0;
      while i < |plan|
        invariant 0 <= i <= |plan|
        invariant Run(net, old(sent), plan) == Later(Run(net, sent, plan[i..]), i)
      {
        var a := plan[i];
        ghost var before := sent;
        var o;
        match a.recv {
          case Sr1 => o := Sr1AndAssert(a.pkt, a.expected);
          case Sniff(port) => o := SendSniffAndAssert(a.pkt, a.expected, port);
        }
        assert plan[i..][0] == a && plan[i..][1..] == plan[i + 1..];
        RunStep(net, before, plan[i..], o);
        if o.Fail? {
          return Failed(i, o.error);
        }
        LaterLater(Run(net, sent, plan[i + 1..]), i);
        i := i + 1;
      }
      assert plan[i..] == [];
      return Passed;
    }
  }
}
