# UOA test tooling, modelled in Dafny

UOA ("UDP Option of Address") lets a load balancer or NAT gateway tell the
final receiver of a UDP datagram the client's real address and port. It
carries them in an IPv4 header option or in an option of an IPv6
Destination Options header. The repository's test tooling does three things:

- it builds datagrams with and without that option (`PktGen` in `script/util.py`);
- it sends them at a server or load balancer and checks that the echoed reply
  names the expected real address (`BaseTest` and the suites in
  `script/uoa_check.py`);
- an example echo server (`examples/python/udp_serv.py`) writes the address
  its resolver found into every reply.

This project models that tooling and proves what it promises:

- `PyStr`: the Python string operations the tooling relies on, with proved
  round trips: `str.split`, `str.join`, `str.strip`, `int()` and `str()` of an integer.
- `IpOptions`: option-list readers, used as independent reference
  definitions of the two containers. One follows section 3.1 of RFC 791,
  where the length octet counts type, length and data. The other follows
  sections 4.2 and 4.6 of RFC 8200, where Opt Data Len counts the data only.
- `Util`: `rand_port` and the `ip:port` / `[ip]:port` argument parsers.
- `PktGen`: the option octets, the generator and its packet builders.
  Each packet is a value. The two IPv6 builders are methods. Each one builds
  the packet with a zero checksum and then overwrites the checksum field,
  as the source does in place.
- `BaseTest`: `assert_payload`, the two send-and-check attempts, and the
  `setUp` logic of the server and load-balancer bases. It includes
  `TestCase`, a class holding the fields `setUp` assigns and a log of the
  packets sent. The network is an oracle: a function from the packets sent
  so far, and how the reply is collected, to the reply payload, if any.
- `UdpServ`: one pass of the echo server's receive loop.
- `UoaCheck`: the eight suites and their sixteen test methods. Only
  fourteen names are distinct: `TestNat46Lb` and `TestNat64Lb` repeat
  `test_send_udp4_to_lb` and `test_send_udp6_to_lb` (script/uoa_check.py:120,
  131). A test is a fixed, ordered list of attempts. It runs until the first
  failure, and every attempt uses packets from one generator.

Facts of the code that the model keeps:

- `udp4_opt_end` puts the End of Option List octet after the unknown option
  (script/util.py:127).
- When the resolver raises for a datagram, the echo server sends no reply
  for it (examples/python/udp_serv.py:34-39).
- The checker takes the text after the last `RealAddr=` in the payload
  (script/util.py:190-193).
- No size check guards the IPv4 option area. `PktGen.Ipv4OptionsFit` proves
  that every option the builders make fits the 40-octet option space.
- `inet_pton` (script/util.py:117, 146) raises for text that is not an
  address of the family, and otherwise returns exactly 4 or 16 octets, so
  the `4s`/`16s` fields neither truncate nor pad. The model takes the address
  as octets, which allows lengths `inet_pton` never returns. `PktGen.WellFormed`
  is `inet_pton`'s guarantee, and the read-back lemmas require it.
- A destination port outside 0..65535 is accepted by the argument parsers,
  but no packet with it can be serialised: the IPv6 builders raise at
  `raw(pkt[UDP])` (script/util.py:151, 161), and the other packets cannot be
  put on the wire either. No packet leaves and the case does not pass
  (`UoaCheck.RunCase` reports `PortError`).

## Model

| member | source | states |
|---|---|---|
| Util.RandPort | script/util.py:35-36 | the random source port lies in [10000, 60000) for every draw in [0, 1) |
| Util.ParseIpv4Arg | script/util.py:39-48 | no argument gives no endpoint, and only no argument does; every failure is the invalid-IPv4-argument error naming the argument |
| Util.ParseIpv4ArgRoundTrip | script/util.py:43-48 | `ip + ":" + str(port)` parses back to exactly `(ip, port)` for every colon-free ip and every integer port, negative ones included |
| Util.ParseIpv4ArgSound | script/util.py:43-48 | an accepted argument is the ip, then its only ':', then text that `int()` reads as the port |
| Util.ParseIpv6Arg | script/util.py:51-60 | no argument gives no endpoint, and only no argument does; every failure is the invalid-IPv6-argument error naming the argument |
| Util.ParseIpv6ArgRoundTrip | script/util.py:55-60 | `"[" + ip + "]:" + str(port)` parses back to exactly `(ip, port)` when ip does not start with '[' and holds no "]:" |
| Util.ParseIpv6ArgSound | script/util.py:55-60 | an accepted argument, once its brackets are stripped, is an ip free of "]:", then "]:", then text that `int()` reads as the port |
| PyStr.SplitJoin | script/util.py:190 | joining the parts of a split with the separator gives back the text |
| PyStr.ParseIntOfIntToString | script/util.py:45 | `int(str(n)) == n` for every integer |
| PyStr.SplitLastFollowsSeparator | script/util.py:190-193 | when a split yields two or more parts, the text ends with the separator and the last part, and the last part holds no separator |
| PyStr.SuffixAfterSeparatorUnique | script/util.py:193 | for the `RealAddr=` marker, which has no border, a text ends in marker + v for at most one marker-free v |
| PyStr.SplitLastAfterFinalSeparator | script/util.py:190-193 | for a separator without a border, text ending in separator + t, t separator-free, splits into two or more parts of which t is the last |
| PktGen.PackBytes | script/util.py:115-117 | a `struct` string field is exactly n octets long and keeps the given octets up to n |
| PktGen.PortBytes | script/util.py:117 | the port field is two octets, most significant first, whose value is the port |
| PktGen.PackPortAsWritten | script/util.py:117 | `struct.pack('h', htons(port))` on a little-endian host succeeds exactly when the port's low octet is below 0x80, and then yields network order |
| PktGen.PackPortAsWrittenRejects8082 | script/util.py:146 | the same packing raises for a real port of 8082 and works for the mock port 23333, the only port the suites pack |
| PktGen.Udp4UoaOption | script/util.py:115-117 | the IPv4 option has type 0x1f and is 8 (IPv4 address) or 20 (IPv6 address) octets long, and its length octet equals its whole length |
| PktGen.Udp4UoaOptionReadsBack | script/util.py:115-118 | a reader following section 3.1 of RFC 791 finds one option, of type 0x1f, whose data decodes to the address and port packed |
| PktGen.Udp6UoaOption | script/util.py:143-147 | the IPv6 option has type 0x1f and Opt Data Len 6 or 18, two less than its whole length |
| PktGen.Udp6UoaOptionReadsBack | script/util.py:143-147 | a reader following section 4.2 of RFC 8200 finds one option, of type 0x1f, whose data decodes to the address and port packed |
| PktGen.Ipv4LengthIsIpv6LengthPlusTwo | script/util.py:143-147 | for the same address, the IPv4 length octet is the IPv6 Opt Data Len plus two, and both options carry the same data |
| PktGen.ForeignIpv4OptionsReadBack | script/util.py:120-133 | the unknown option reads as type 0x2f with data "123456"; the option-end variant reads as that option followed by End of Option List; the full option reads as one type-0x2f option with 38 octets of 0xEE |
| PktGen.ForeignIpv6OptionReadsBack | script/util.py:154-157 | the IPv6 unknown option reads as one type-0x2f option with 18 data octets |
| PktGen.Ipv4OptionsFit | script/util.py:115-133 | every IPv4 option area built is at most 40 octets, and the full option is exactly 40 |
| PktGen.OptionTypesAreSkippable | script/util.py:88-89 | both type codes have high-order bits 00, so a node that does not recognise them skips the option |
| PktGen.NewPktGen | script/util.py:91-95 | a missing or zero source port becomes a random one in [10000, 60000), otherwise it is kept; a missing or empty payload becomes "Hello, UOA!", otherwise it is kept |
| PktGen.Udp4 | script/util.py:97-100 | a plain UDP datagram from the generator's endpoints, carrying the payload or, for a requested length, 'v' filler; its properties are stated by `PlainDatagramLengths` and `BuildersShareEndpoints` |
| PktGen.Udp6 | script/util.py:102-105 | likewise over IPv6, with a 40-octet header |
| PktGen.PlainDatagramLengths | script/util.py:97-105 | with a requested length, headers plus payload make exactly that length (20+8 for IPv4, 40+8 for IPv6); a length too small leaves the payload empty; the filler is all 'v' |
| PktGen.Udp4UoaOpt | script/util.py:107-118 | an IPv4 datagram whose option area is `Udp4UoaOption` of the address; `ReadRealAddrOfBuilders` proves the address reads back from it |
| PktGen.Udp4UnknownOpt | script/util.py:120-123 | an IPv4 datagram whose option area is the 8-octet unknown option; `ForeignIpv4OptionsReadBack` states how it reads |
| PktGen.Udp4OptEnd | script/util.py:125-128 | the same option followed by one End of Option List octet |
| PktGen.Udp4FullOpt | script/util.py:130-133 | an IPv4 datagram whose option area is one 40-octet unknown option |
| PktGen.Udp6ExtHdrWithUoaOpt | script/util.py:135-152 | the packet carries the UOA option in a Destination Options header and has the generator's endpoints and payload; its checksum is the checksum function applied to the packet with the checksum field zeroed |
| PktGen.Udp6ExtHdrWithUnknownOpt | script/util.py:154-162 | likewise, with the 18-octet unknown option |
| PktGen.BuildersShareEndpoints | script/util.py:97-162 | every builder's packet has the generator's destination, source port, destination port and payload |
| PktGen.ReadRealAddrOfBuilders | script/util.py:107-162 | reading a UOA option back from any built packet gives exactly the address the builder was given, and gives none for the plain and foreign-option packets |
| BaseTest.ExtractRealAddr | script/util.py:190-193 | the last part of the payload split on `RealAddr=`, or none when the split has fewer than two parts; `ExtractRealAddrSpec` and `ExtractAfterLastMarker` state what it yields |
| BaseTest.ExtractRealAddrSpec | script/util.py:190-193 | the extraction fails exactly when the marker is absent; otherwise it is a marker-free text that the payload ends with, marker included |
| BaseTest.ExtractAfterLastMarker | script/util.py:190-193 | any text, then the marker, then a marker-free t yields exactly t |
| BaseTest.AssertPayload | script/util.py:185-195 | "real addr not found" without an address, a mismatch naming both texts when the address differs, a pass otherwise; `AssertPayloadPassesIff` states when each happens |
| BaseTest.AssertPayloadPassesIff | script/util.py:185-195 | the check passes iff the payload ends with marker + expected and expected is marker-free; it fails with "real addr not found" iff the marker is absent |
| BaseTest.Judge | script/util.py:172-183 | an attempt fails with "no pkt recv" exactly when no reply arrived |
| BaseTest.JudgePassesIff | script/util.py:180-195 | an attempt passes iff a reply arrived whose payload ends with marker + expected, the expected text holding no marker |
| BaseTest.Run | script/util.py:172-183 | the run specification: attempts are sent and judged in order, and the first failing one ends the run with its index and error; `RunPassesIff`, `RunSentPassed`, `RunSentFailed` and `RunFailsAtFirstFailure` state its properties |
| BaseTest.RunPassesIff | script/util.py:172-195 | a run passes iff every attempt of the plan passes |
| BaseTest.RunSentPassed | script/uoa_check.py:147-149 | a passing run sends exactly the plan's packets, in order |
| BaseTest.RunSentFailed | script/uoa_check.py:157-160 | a run failing at attempt i has i within the plan and sends exactly the packets of attempts 0..i, none later |
| BaseTest.RunFailsAtFirstFailure | script/uoa_check.py:184-187 | a failing run reports the first failing attempt, its error, and that every earlier attempt passed |
| BaseTest.TestCase.constructor | script/util.py:199-215 | a fresh test case, server (`BaseTestServ.__init__`) or load-balancer (`BaseTestLb.__init__`), has no destination, port or self address set and has sent nothing |
| BaseTest.TestCase.SetUp | script/util.py:204-221 | it skips exactly when the destination, the port or (for load-balancer suites) the self address is missing; otherwise it installs a generator with a random source port, and a load-balancer suite expects "<self ip>:<that source port>" |
| BaseTest.TestCase.Sr1AndAssert | script/util.py:178-183 | one attempt: the packet is appended to the sent log and the outcome is the verdict on the oracle's reply |
| BaseTest.TestCase.SendSniffAndAssert | script/util.py:166-176 | likewise, with the reply collected by a sniffer on the given destination port |
| BaseTest.TestCase.RunAttempts | script/uoa_check.py:147-149 | running attempts one after another in a loop gives the verdict and sent log of the run specification |
| UdpServ.HandleDatagram | examples/python/udp_serv.py:34-48 | no reply iff the resolver raised; a reply goes to the datagram's sender and starts with "Msg=" + msg |
| UdpServ.ReplyMsg | examples/python/udp_serv.py:41-45 | the reply text: "Msg=" + msg, followed by ", RealAddr=<ip>:<port>" when the resolver found an address; `ReplyWithoutAddr`, `ReplyIgnoresFamily` and `ReplyRoundTrip` state its properties |
| UdpServ.ReplyWithoutAddr | examples/python/udp_serv.py:41-43 | a reply without a resolved address is "Msg=" + msg, and the checker finds no address in it unless msg itself holds the marker |
| UdpServ.ReplyIgnoresFamily | examples/python/udp_serv.py:43-45 | the address family the resolver returns does not affect the reply |
| UdpServ.ReplyRoundTrip | examples/python/udp_serv.py:41-45 | the checker extracts exactly "<ip>:<port>" from a reply with an address, whatever msg holds |
| UoaCheck.Tests | script/uoa_check.py:44-187 | the test methods of each suite, sixteen in all; the NAT46 and NAT64 suites each repeat the first test of the single-LB suite of their family |
| UoaCheck.EndpointArg | script/uoa_check.py:46-165 | the command-line argument each suite's setUp parses: the server, LB or NAT argument of its family; the multi-LB suites reuse the LB arguments |
| UoaCheck.SelfArg | script/uoa_check.py:79-128 | the case's own address for the four load-balancer suites, of their family, and none for the others |
| UoaCheck.MockExpectations | script/uoa_check.py:36-38 | the expected strings are "10.2.3.3:23333" and "fe80::2333:23333", and the mock addresses have the width of their family |
| UoaCheck.SuiteSetUp | script/uoa_check.py:44-47 | a suite's setUp raises iff its endpoint argument does not parse, skips iff the argument is absent (or, for load-balancer suites, the self address is), and otherwise leaves a generator aimed at the parsed endpoint; a parsed endpoint sets dip and dport (and sip for load-balancer suites), and no generator is installed unless setUp completes; a parse failure leaves dip, dport and sip as they were, a non-load-balancer suite never touches sip, and expect_read_addr changes only when setUp completes |
| UoaCheck.PrimingRounds | script/uoa_check.py:147-148 | `UOA_MAX_TRAIL` rounds are three copies of the round |
| UoaCheck.ServerScripts | script/uoa_check.py:44-73 | each server test is one UOA attempt carrying a mock address; IPv4 tests use `sr1`, IPv6 tests sniff on the generator's source port |
| UoaCheck.LbScripts | script/uoa_check.py:76-133 | each single-LB and NAT46/64 test is one attempt without a UOA option, expecting the suite's "<self ip>:<source port>" |
| UoaCheck.Script | script/uoa_check.py:49-187 | the attempts of each test in order, with the builder, reply collection and expected text each one uses; `ServerScripts`, `LbScripts`, `MulLbScripts` and `StandaloneScripts` state them |
| UoaCheck.MulLbScripts | script/uoa_check.py:141-176 | the multi-LB tests are three UOA attempts and then one plain packet, all expecting the same mock address |
| UoaCheck.StandaloneScripts | script/uoa_check.py:151-187 | the standalone tests are three rounds of (UOA packet, foreign-option packet) and then one more foreign-option packet, seven attempts in that order |
| UoaCheck.PlanPackets | script/uoa_check.py:141-187 | every packet of a test shares the generator's destination and ports, and its UOA option carries exactly the address the step names |
| UoaCheck.EchoedAddressPasses | script/uoa_check.py:49-52 | an echo server reply for the mock address passes the test's check |
| UoaCheck.BuildPacket | script/util.py:97-162 | the packet built for a step is the one the step's builder describes |
| UoaCheck.BuildPlan | script/uoa_check.py:144-145 | the attempts of a test are built, in order, one per script step, each by the builder the step names with the generator of the case, keeping the step's reply collection and expected text |
| UoaCheck.RunTest | script/uoa_check.py:82-187 | running a test follows its script: the plan is the script's packets, and the verdict and sent log are those of the run specification |
| UoaCheck.RunCase | script/uoa_check.py:44-80 | a case reports the setUp error, is skipped, errors with the port when setUp completes but the destination port lies outside 0..65535, or runs its test on a fresh case with an in-range port, with the verdict of the run specification on that test's plan |

## Left out

- scapy's layering and serialisation are not modelled: option padding to 4- or 8-octet boundaries, IHL, the length fields, the Pad1 and PadN padding of the IPv6 header. The packets are values that keep the option octets the code packs.
- `in6_chksum` is a parameter (`PktGen.ChecksumFn`). Its algorithm belongs to scapy.
- `inet_pton` is not modelled, nor the `OSError` it raises for text that is not an address. Addresses are taken as already-converted octet sequences, and the mock addresses are given as octets.
- `send`, `sr1`, `AsyncSniffer`, `time.sleep` and the timeouts are replaced by the network oracle. A sniffer that sees several packets and keeps only the first is part of what the oracle returns.
- Util.RandPort: computed in exact real arithmetic, not in floating point, so the rounding of `random.random() * 50000` is not modelled.
- argparse (`parse_args`) and `unittest.main` are not modelled. The parsed arguments are the `UoaCheck.Args` value.
- `int()` is modelled for ASCII digits, ASCII whitespace and underscores between digits. Unicode digits and whitespace are left out.
- UTF-8 decoding of payloads and messages is not modelled. Payloads are strings.
- A reply without a `Raw` layer, which would raise in the checker, is not modelled.
- The echo server's `while True` loop, its socket calls, its threads and the 1024-octet `recvfrom` limit are not modelled. `UdpServ.HandleDatagram` is one pass of the loop. The logging lines are left out too.
- `get_real_address` (examples/python/uoa_module/uoamodule.c) is the resolver parameter. uoamodule.c and setup.py are not part of this model.
- PktGen.PackBytes: accepts octet sequences of any length, which `inet_pton` never returns; for those it truncates or zero-pads as a `struct` string field does. Only the 4- and 16-octet sequences that `inet_pton` returns reach it in the source.
- UoaCheck.RunCase: an out-of-range destination port is one `PortError`, with no packet sent. How the packet layer ends such a test outside the IPv6 builders (an exception, or a send error that `sr1` logs so that the attempt fails with "no pkt recv") belongs to scapy and is not distinguished; the packet builders themselves accept any integer port.

## Findings

| source | as written | input that shows it | evidently intended | confidence | as-written member | corrected member |
|---|---|---|---|---|---|---|
| script/util.py:117 | the port is packed as `struct.pack('h', htons(port))`, a signed native short; on a little-endian host `htons` swaps the octets, so any port whose low octet is 0x80 or more becomes a value of 32768 or more, and `struct.error` is raised | a real port of 8082 (0x1F92, swapped 0x921F = 37407); the same holds for `udp6_ext_hdr_with_uoa_opt` at script/util.py:146. The shipped suites pack only the mock port 23333 (script/uoa_check.py:38), whose low octet is 0x25, so the defect is latent there and reached only by a caller passing a real port whose low octet is 0x80 or more | an unsigned 16-bit port in network byte order (`'!H'` on the port itself), for every port in 0..65535 | not executed | PktGen.PackPortAsWrittenRejects8082 | PktGen.Udp4UoaOptionReadsBack |
