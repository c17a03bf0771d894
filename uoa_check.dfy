/**
 * The UOA test cases: which endpoint each suite reads from the command
 * line, the fixed, ordered list of attempts each test makes, and a test's
 * run from `setUp` to verdict.
 */
module UoaCheck {
  import opened Wrappers
  import opened PyStr
  import opened IpOptions
  import opened PktGen
  import Util
  import opened BaseTest
  import UdpServ

  const MOCK_REAL_IPV4: string := "10.2.3.3"
  const MOCK_REAL_IPV6: string := "fe80::2333"
  const MOCK_REAL_PORT: Port := 23333
  /** Rounds that prime a multiple-LB path before the decisive attempt. */
  const UOA_MAX_TRAIL: nat := 3

  /** The mock addresses in binary form, as `inet_pton` gives them. */
  const MOCK_REAL_IPV4_BYTES: seq<byte> := [10, 2, 3, 3]
  const MOCK_REAL_IPV6_BYTES: seq<byte> := [0xfe, 0x80, 0, 0, 0, 0, 0, 0, 0, 0, 0, 0, 0, 0, 0x23, 0x33]
  const MOCK_ADDR4: RealAddr := RealAddr(AfInet, MOCK_REAL_IPV4_BYTES, MOCK_REAL_PORT)
  const MOCK_ADDR6: RealAddr := RealAddr(AfInet6, MOCK_REAL_IPV6_BYTES, MOCK_REAL_PORT)

  /** `'%s:%s' % (ip, port)`. */
  function AddrText(ip: string, port: int): string
  {
    ip + ":" + IntToString(port)
  }

  /** The address the server cases expect back. */
  lemma MockExpectations()
    ensures AddrText(MOCK_REAL_IPV4, MOCK_REAL_PORT) == "10.2.3.3:23333"
    ensures AddrText(MOCK_REAL_IPV6, MOCK_REAL_PORT) == "fe80::2333:23333"
    ensures WellFormed(MOCK_ADDR4) && WellFormed(MOCK_ADDR6)
  {
    assert NatToString(2) == "2";
    assert NatToString(23) == "23";
    assert NatToString(233) == "233";
    assert NatToString(2333) == "2333";
    assert NatToString(23333) == "23333";
  }

  /** The command-line endpoints, each absent unless given. */
  datatype Args = Args(
    servIpv4: Option<string>, servIpv6: Option<string>,
    lbIpv4: Option<string>, lbIpv6: Option<string>,
    selfIpv4: Option<string>, selfIpv6: Option<string>,
    nat46LbIpv4: Option<string>, nat64LbIpv6: Option<string>)

  datatype Suite =
    | TestIpv4Serv | TestIpv6Serv
    | TestIpv4Lb | TestIpv6Lb
    | TestNat46Lb | TestNat64Lb
    | TestMultipleIpv4Lb | TestMultipleIpv6Lb

  datatype TestName =
    | SendUdp4UoaOptToServ | SendUdp4Uoa6OptToServ
    | SendUdp6ExtHdrWithUoa4OptToServ | SendUdp6ExtHdrWithUoa6OptToServ
    | SendUdp4ToLb | SendUdp4UnknownOptToLb | SendUdp4OptEndToLb | SendUdp4FullOptToLb
    | SendUdp6ToLb | SendUdp6ExtHdrWithUnknownOptToLb
    | SendUdp4ToMulLb | SendUdp4WithStandaloneUoaPktToMulLb
    | SendUdp6ToMulLb | SendUdp6WithStandaloneUoaPktToMulLb

  /** The test methods each suite defines. */
  function Tests(s: Suite): seq<TestName>
  {
    match s
    case TestIpv4Serv => [SendUdp4UoaOptToServ, SendUdp4Uoa6OptToServ]
    case TestIpv6Serv => [SendUdp6ExtHdrWithUoa4OptToServ, SendUdp6ExtHdrWithUoa6OptToServ]
    case TestIpv4Lb => [SendUdp4ToLb, SendUdp4UnknownOptToLb, SendUdp4OptEndToLb, SendUdp4FullOptToLb]
    case TestIpv6Lb => [SendUdp6ToLb, SendUdp6ExtHdrWithUnknownOptToLb]
    case TestNat46Lb => [SendUdp4ToLb]
    case TestNat64Lb => [SendUdp6ToLb]
    case TestMultipleIpv4Lb => [SendUdp4ToMulLb, SendUdp4WithStandaloneUoaPktToMulLb]
    case TestMultipleIpv6Lb => [SendUdp6ToMulLb, SendUdp6WithStandaloneUoaPktToMulLb]
  }

  /** Suites built on `BaseTestLb`, which also need the case's own address. */
  predicate IsLb(s: Suite)
  {
    s.TestIpv4Lb? || s.TestIpv6Lb? || s.TestNat46Lb? || s.TestNat64Lb?
  }

  /** The tests that compare against the case's own address and source port. */
  predicate IsLbTest(t: TestName)
  {
    t.SendUdp4ToLb? || t.SendUdp4UnknownOptToLb? || t.SendUdp4OptEndToLb? || t.SendUdp4FullOptToLb? ||
    t.SendUdp6ToLb? || t.SendUdp6ExtHdrWithUnknownOptToLb?
  }

  /** The tests that send directly to a server. */
  predicate IsServTest(t: TestName)
  {
    t.SendUdp4UoaOptToServ? || t.SendUdp4Uoa6OptToServ? ||
    t.SendUdp6ExtHdrWithUoa4OptToServ? || t.SendUdp6ExtHdrWithUoa6OptToServ?
  }

  /** The endpoint argument a suite's `setUp` parses. */
  function EndpointArg(s: Suite, args: Args): Option<string>
  {
    match s
    case TestIpv4Serv => args.servIpv4
    case TestIpv6Serv => args.servIpv6
    case TestIpv4Lb => args.lbIpv4
    case TestIpv6Lb => args.lbIpv6
    case TestNat46Lb => args.nat46LbIpv4
    case TestNat64Lb => args.nat64LbIpv6
    case TestMultipleIpv4Lb => args.lbIpv4
    case TestMultipleIpv6Lb => args.lbIpv6
  }

  /** The suites whose endpoint is written `[ip]:port`. */
  predicate UsesIpv6Arg(s: Suite)
  {
    s.TestIpv6Serv? || s.TestIpv6Lb? || s.TestNat64Lb? || s.TestMultipleIpv6Lb?
  }

  /** The case's own address, for a load-balancer suite. */
  function SelfArg(s: Suite, args: Args): Option<string>
  {
    if s.TestIpv4Lb? || s.TestNat46Lb? then args.selfIpv4
    else if s.TestIpv6Lb? || s.TestNat64Lb? then args.selfIpv6
    else None
  }

  function ParseEndpoint(s: Suite, args: Args): Result<Option<Util.Endpoint>, Util.ArgError>
  {
    if UsesIpv6Arg(s) then Util.ParseIpv6Arg(EndpointArg(s, args)) else Util.ParseIpv4Arg(EndpointArg(s, args))
  }

  datatype SetUpStatus = Ready | Skipped | Raised(error: Util.ArgError)

  /**
   * A suite's `setUp`: parses its endpoint (an invalid one raises), takes
   * the case's own address for a load-balancer suite, then runs the base
   * `setUp`.
   */
  method SuiteSetUp(tc: TestCase, s: Suite, args: Args, draw: real) returns (status: SetUpStatus)
    requires 0.0 <= draw < 1.0
    requires tc.lb == IsLb(s)
    modifies tc
    ensures tc.sent == old(tc.sent)
    ensures !IsLb(s) ==> tc.expectReadAddr == old(tc.expectReadAddr)
    ensures !IsLb(s) ==> tc.sip == old(tc.sip)
    ensures status.Raised? ==> tc.dip == old(tc.dip) && tc.dport == old(tc.dport) && tc.sip == old(tc.sip)
    ensures !status.Ready? ==> tc.expectReadAddr == old(tc.expectReadAddr)
    ensures status.Raised? <==> ParseEndpoint(s, args).Failure?
    ensures status.Skipped? <==>
      ParseEndpoint(s, args) == Success(None) ||
      (ParseEndpoint(s, args).Success? && IsLb(s) && SelfArg(s, args).None?)
    ensures !status.Ready? ==> tc.pktGen == old(tc.pktGen)
    ensures ParseEndpoint(s, args).Success? ==>
      var parsed := ParseEndpoint(s, args).value;
      && tc.dip == (if parsed.Some? then Some(parsed.value.ip) else None)
      && tc.dport == (if parsed.Some? then Some(parsed.value.port) else None)
      && (IsLb(s) ==> tc.sip == SelfArg(s, args))
    ensures status.Ready? ==>
      var e := ParseEndpoint(s, args).value.value;
      && tc.pktGen == Some(NewPktGen(e.ip, e.port, None, None, draw))
      && (IsLb(s) ==> tc.expectReadAddr == Some(AddrText(SelfArg(s, args).value, tc.pktGen.value.sport)))
  {
    var parsed := ParseEndpoint(s, args);
    if parsed.Failure? {
      return Raised(parsed.error);
    }
    match parsed.value {
      case None => tc.dip, tc.dport := None, None;
      case Some(e) => tc.dip, tc.dport := Some(e.ip), Some(e.port);
    }
    if IsLb(s) {
      tc.sip := SelfArg(s, args);
    }
    var skipped := tc.SetUp(draw);
    status := if skipped then Skipped else Ready;
  }

  /** One attempt of a script: the packet's builder, how the reply is collected, the expected address. */
  datatype Step = Step(kind: PacketKind, recv: Receive, expected: string)

  /** `for _ in range(n)` over a round of attempts. */
  function Rounds(n: nat, round: seq<Step>): seq<Step>
  {
    if n == 0 then [] else round + Rounds(n - 1, round)
  }

  /** `UOA_MAX_TRAIL` rounds are the round three times over. */
  lemma PrimingRounds(round: seq<Step>)
    ensures Rounds(UOA_MAX_TRAIL, round) == round + round + round
  {
    assert Rounds(0, round) == [];
    assert Rounds(1, round) == round;
    assert Rounds(2, round) == round + round;
  }

  /**
   * The attempts a test makes, in order, for generator `g`; `expectLb` is
   * the load-balancer case's expected address.
   */
  function Script(t: TestName, g: PktGen, expectLb: string): seq<Step>
  {
    var expect4 := AddrText(MOCK_REAL_IPV4, MOCK_REAL_PORT);
    var expect6 := AddrText(MOCK_REAL_IPV6, MOCK_REAL_PORT);
    match t
    case SendUdp4UoaOptToServ => [Step(UoaV4(MOCK_ADDR4), Sr1, expect4)]
    case SendUdp4Uoa6OptToServ => [Step(UoaV4(MOCK_ADDR6), Sr1, expect6)]
    case SendUdp6ExtHdrWithUoa4OptToServ => [Step(UoaV6(MOCK_ADDR4), Sniff(g.sport), expect4)]
    case SendUdp6ExtHdrWithUoa6OptToServ => [Step(UoaV6(MOCK_ADDR6), Sniff(g.sport), expect6)]
    case SendUdp4ToLb => [Step(PlainV4, Sr1, expectLb)]
    case SendUdp4UnknownOptToLb => [Step(UnknownV4, Sr1, expectLb)]
    case SendUdp4OptEndToLb => [Step(OptEndV4, Sr1, expectLb)]
    case SendUdp4FullOptToLb => [Step(FullOptV4, Sr1, expectLb)]
    case SendUdp6ToLb => [Step(PlainV6, Sr1, expectLb)]
    case SendUdp6ExtHdrWithUnknownOptToLb => [Step(UnknownV6, Sniff(g.sport), expectLb)]
    case SendUdp4ToMulLb =>
      Rounds(UOA_MAX_TRAIL, [Step(UoaV4(MOCK_ADDR4), Sr1, expect4)]) + [Step(PlainV4, Sr1, expect4)]
    case SendUdp4WithStandaloneUoaPktToMulLb =>
      var full := Step(FullOptV4, Sr1, expect4);
      Rounds(UOA_MAX_TRAIL, [Step(UoaV4(MOCK_ADDR4), Sr1, expect4), full]) + [full]
    case SendUdp6ToMulLb =>
      Rounds(UOA_MAX_TRAIL, [Step(UoaV6(MOCK_ADDR6), Sniff(g.sport), expect6)])
        + [Step(PlainV6, Sniff(g.sport), expect6)]
    case SendUdp6WithStandaloneUoaPktToMulLb =>
      var unknown := Step(UnknownV6, Sniff(g.sport), expect6);
      Rounds(UOA_MAX_TRAIL, [Step(UoaV6(MOCK_ADDR6), Sniff(g.sport), expect6), unknown]) + [unknown]
  }

  /**
   * The multiple-LB tests prime the path with three option-bearing attempts
   * and then send one bare packet, all expecting the mock address.
   */
  lemma MulLbScripts(g: PktGen, expectLb: string)
    ensures |Script(SendUdp4ToMulLb, g, expectLb)| == UOA_MAX_TRAIL + 1
    ensures var uoa := Step(UoaV4(MOCK_ADDR4), Sr1, "10.2.3.3:23333");
      Script(SendUdp4ToMulLb, g, expectLb) == [uoa, uoa, uoa, Step(PlainV4, Sr1, "10.2.3.3:23333")]
    ensures var uoa := Step(UoaV6(MOCK_ADDR6), Sniff(g.sport), "fe80::2333:23333");
      Script(SendUdp6ToMulLb, g, expectLb) == [uoa, uoa, uoa, Step(PlainV6, Sniff(g.sport), "fe80::2333:23333")]
  {
    MockExpectations();
    PrimingRounds([Step(UoaV4(MOCK_ADDR4), Sr1, "10.2.3.3:23333")]);
    PrimingRounds([Step(UoaV6(MOCK_ADDR6), Sniff(g.sport), "fe80::2333:23333")]);
  }

  /**
   * The standalone variants make three rounds of a UOA packet followed by a
   * foreign-option packet, then one more foreign-option packet: seven
   * attempts, all expecting the mock address.
   */
  lemma StandaloneScripts(g: PktGen, expectLb: string)
    ensures |Script(SendUdp4WithStandaloneUoaPktToMulLb, g, expectLb)| == 2 * UOA_MAX_TRAIL + 1
    ensures var uoa := Step(UoaV4(MOCK_ADDR4), Sr1, "10.2.3.3:23333");
      var full := Step(FullOptV4, Sr1, "10.2.3.3:23333");
      Script(SendUdp4WithStandaloneUoaPktToMulLb, g, expectLb) == [uoa, full, uoa, full, uoa, full, full]
    ensures var uoa := Step(UoaV6(MOCK_ADDR6), Sniff(g.sport), "fe80::2333:23333");
      var unknown := Step(UnknownV6, Sniff(g.sport), "fe80::2333:23333");
      Script(SendUdp6WithStandaloneUoaPktToMulLb, g, expectLb) == [uoa, unknown, uoa, unknown, uoa, unknown, unknown]
  {
    MockExpectations();
    var expect4 := "10.2.3.3:23333";
    var expect6 := "fe80::2333:23333";
    PrimingRounds([Step(UoaV4(MOCK_ADDR4), Sr1, expect4), Step(FullOptV4, Sr1, expect4)]);
    PrimingRounds([Step(UoaV6(MOCK_ADDR6), Sniff(g.sport), expect6), Step(UnknownV6, Sniff(g.sport), expect6)]);
  }

  /**
   * A server test makes one attempt whose packet carries a mock address and
   * port and expects exactly that address and port back; the IPv6 server
   * tests use the Destination Options builder and sniff on the generator's
   * own source port.
   */
  lemma ServerScripts(t: TestName, g: PktGen, expectLb: string)
    requires IsServTest(t)
    ensures |Script(t, g, expectLb)| == 1
    ensures var step := Script(t, g, expectLb)[0];
      && (step.kind.UoaV4? || step.kind.UoaV6?)
      && (step.kind.addr == MOCK_ADDR4 || step.kind.addr == MOCK_ADDR6)
      && step.expected == AddrText(if step.kind.addr == MOCK_ADDR4 then MOCK_REAL_IPV4 else MOCK_REAL_IPV6, step.kind.addr.port)
      && step.recv == (if step.kind.UoaV6? then Sniff(g.sport) else Sr1)
  {
  }

  /**
   * The single-LB and NAT tests make one attempt with no UOA option and
   * expect the case's own address and source port.
   */
  lemma LbScripts(t: TestName, g: PktGen, expectLb: string)
    requires IsLbTest(t)
    ensures |Script(t, g, expectLb)| == 1
    ensures Carried(Script(t, g, expectLb)[0].kind) == None
    ensures Script(t, g, expectLb)[0].expected == expectLb
  {
  }

  /**
   * Every packet of a test comes from the case's one generator: same
   * destination, same ports, and the real address (if any) its script names.
   */
  lemma PlanPackets(t: TestName, g: PktGen, expectLb: string, plan: seq<Attempt>, in6Chksum: ChecksumFn)
    requires PlanFor(plan, Script(t, g, expectLb), g, in6Chksum)
    ensures forall k | 0 <= k < |plan| ::
      && plan[k].pkt.ip.dst == g.dip
      && plan[k].pkt.udp.sport == g.sport
      && plan[k].pkt.udp.dport == g.dport
      && ReadRealAddr(plan[k].pkt) == Carried(Script(t, g, expectLb)[k].kind)
  {
    var steps := Script(t, g, expectLb);
    MockExpectations();
    MulLbScripts(g, expectLb);
    StandaloneScripts(g, expectLb);
    forall k | 0 <= k < |plan|
      ensures && plan[k].pkt.ip.dst == g.dip
              && plan[k].pkt.udp.sport == g.sport
              && plan[k].pkt.udp.dport == g.dport
              && ReadRealAddr(plan[k].pkt) == Carried(steps[k].kind)
    {
      BuildersShareEndpoints(plan[k].pkt, steps[k].kind, g, in6Chksum);
      ReadRealAddrOfBuilders(plan[k].pkt, steps[k].kind, g, in6Chksum);
    }
  }

  /**
   * The echo server's reply to an address whose text is what the attempt
   * expects passes the attempt.
   */
  lemma EchoedAddressPasses(msg: string, info: UdpServ.RealAddrInfo, expected: string)
    requires !Contains(info.ip, REAL_ADDR_MARKER)
    requires expected == AddrText(info.ip, info.port)
    ensures Judge(Some(UdpServ.ReplyMsg(msg, Some(info))), expected) == Pass
  {
    UdpServ.ReplyRoundTrip(msg, info);
  }

  /** The attempts were built by `g`'s builders as the script says. */
  ghost predicate PlanFor(plan: seq<Attempt>, steps: seq<Step>, g: PktGen, in6Chksum: ChecksumFn)
  {
    && |plan| == |steps|
    && forall k | 0 <= k < |plan| ::
      && Realises(plan[k].pkt, steps[k].kind, g, in6Chksum)
      && plan[k].recv == steps[k].recv
      && plan[k].expected == steps[k].expected
  }

  lemma PlanForSnoc(plan: seq<Attempt>, steps: seq<Step>, g: PktGen, in6Chksum: ChecksumFn, a: Attempt, s: Step)
    requires PlanFor(plan, steps, g, in6Chksum)
    requires Realises(a.pkt, s.kind, g, in6Chksum) && a.recv == s.recv && a.expected == s.expected
    ensures PlanFor(plan + [a], steps + [s], g, in6Chksum)
  {
  }

  /** Calls the generator's builder of the given kind. */
  method BuildPacket(g: PktGen, k: PacketKind, in6Chksum: ChecksumFn) returns (pkt: Packet)
    ensures Realises(pkt, k, g, in6Chksum)
  {
    match k {
      case PlainV4 => pkt := Udp4(g, None);
      case UoaV4(a) => pkt := Udp4UoaOpt(g, a);
      case UnknownV4 => pkt := Udp4UnknownOpt(g);
      case OptEndV4 => pkt := Udp4OptEnd(g);
      case FullOptV4 => pkt := Udp4FullOpt(g);
      case PlainV6 => pkt := Udp6(g, None);
      case UoaV6(a) => pkt := Udp6ExtHdrWithUoaOpt(g, a, in6Chksum);
      case UnknownV6 => pkt := Udp6ExtHdrWithUnknownOpt(g, in6Chksum);
    }
  }

  /** Builds the packet of every step with the generator's builders, in order. */
  method BuildPlan(g: PktGen, steps: seq<Step>, in6Chksum: ChecksumFn) returns (plan: seq<Attempt>)
    ensures PlanFor(plan, steps, g, in6Chksum)
  {
    plan := [];
    for i := 0 to |steps|
      invariant PlanFor(plan, steps[..i], g, in6Chksum)
    {
      var pkt := BuildPacket(g, steps[i].kind, in6Chksum);
      var a := Attempt(pkt, steps[i].recv, steps[i].expected);
      PlanForSnoc(plan, steps[..i], g, in6Chksum, a, steps[i]);
      assert steps[..i + 1] == steps[..i] + [steps[i]];
      plan := plan + [a];
    }
    assert steps[..|steps|] == steps;
  }

  /**
   * A test method after `setUp`: builds its packets with the case's
   * generator and makes its attempts in order, stopping at the first failure.
   */
  method RunTest(tc: TestCase, t: TestName, in6Chksum: ChecksumFn) returns (v: Verdict, ghost plan: seq<Attempt>)
    requires tc.pktGen.Some?
    requires IsLbTest(t) ==> tc.expectReadAddr.Some?
    modifies tc`sent
    ensures var expectLb := if tc.expectReadAddr.Some? then tc.expectReadAddr.value else "";
      PlanFor(plan, Script(t, tc.pktGen.value, expectLb), tc.pktGen.value, in6Chksum)
    ensures (v, tc.sent) == Run(tc.net, old(tc.sent), plan)
  {
    var g := tc.pktGen.value;
    var expectLb := if tc.expectReadAddr.Some? then tc.expectReadAddr.value else "";
    var steps := Script(t, g, expectLb);
    var attempts := BuildPlan(g, steps, in6Chksum);
    v := tc.RunAttempts(attempts);
    plan := attempts;
  }

  /**
   * How one test ends. `PortError` stands for a destination port outside
   * 0..65535, which no packet can be serialised with: no packet of the test
   * leaves and the test does not pass.
   */
  datatype CaseResult = SetUpError(error: Util.ArgError) | Skip | PortError(port: int) | Ran(verdict: Verdict)

  /** The case's `setUp` completes: the endpoint parses and nothing it needs is missing. */
  predicate SetsUp(s: Suite, args: Args)
  {
    && ParseEndpoint(s, args).Success?
    && ParseEndpoint(s, args).value.Some?
    && (IsLb(s) ==> SelfArg(s, args).Some?)
  }

  /**
   * One test of one suite, from a fresh case: an endpoint argument that
   * does not parse is an error, a missing endpoint skips the test, and
   * otherwise the test's attempts run against the network, unless the
   * endpoint's port cannot be serialised.
   */
  method RunCase(s: Suite, t: TestName, args: Args, draw: real, net: Network, in6Chksum: ChecksumFn)
    returns (r: CaseResult, ghost g: PktGen, ghost plan: seq<Attempt>)
    requires t in Tests(s)
    requires 0.0 <= draw < 1.0
    ensures r.SetUpError? <==> ParseEndpoint(s, args).Failure?
    ensures r.Skip? <==>
      ParseEndpoint(s, args) == Success(None) ||
      (ParseEndpoint(s, args).Success? && IsLb(s) && SelfArg(s, args).None?)
    ensures r.PortError? <==>
      SetsUp(s, args) && !(0 <= ParseEndpoint(s, args).value.value.port < 0x1_0000)
    ensures r.PortError? ==> r.port == ParseEndpoint(s, args).value.value.port
    ensures r.Ran? ==>
      var e := ParseEndpoint(s, args).value.value;
      && 0 <= e.port < 0x1_0000
      && g == NewPktGen(e.ip, e.port, None, None, draw)
      && PlanFor(plan, Script(t, g, if IsLb(s) then AddrText(SelfArg(s, args).value, g.sport) else ""), g, in6Chksum)
      && r.verdict == Run(net, [], plan).0
  {
    var tc := new TestCase(IsLb(s), net);
    var status := SuiteSetUp(tc, s, args, draw);
    g, plan := PktGen("", 0, 0, ""), [];
    match status {
      case Raised(err) => r := SetUpError(err);
      case Skipped => r := Skip;
      case Ready =>
        var gen := tc.pktGen.value;
        g := gen;
        if !(0 <= gen.dport < 0x1_0000) {
          r := PortError(gen.dport);
          return;
        }
        ghost var expectLb := if IsLb(s) then AddrText(SelfArg(s, args).value, g.sport) else "";
        ghost var expected := tc.expectReadAddr;
        assert expectLb == if expected.Some? then expected.value else "";
        var v;
        v, plan := RunTest(tc, t, in6Chksum);
        assert tc.pktGen == Some(g) && tc.expectReadAddr == expected;
        r := Ran(v);
    }
  }
}
