# Peer-to-peer NAT traversal: models and proofs

The repository holds small C clients that find their public address with STUN, punch a hole through
their NATs towards each other, and then chat or measure throughput over UDP. This project models the
four parts that carry logic and proves what they keep, what they achieve, and where they fall short.

| file | part |
|---|---|
| `Handshake.dfy` | the 60 second PUNCH_REQ / PUNCH_ACK loop of one peer (test3, test2) |
| `PunchPair.dfy` | two such peers over four kinds of network, as a transition system |
| `Stranding.dfy` | what happens to the second peer after the first has returned |
| `Progress.dfy` | how many passes until both succeed, for any bound on delays |
| `Tightness.dfy` | a run that needs every one of those passes |
| `Deadline.dfy` | the pair against the 60 second clocks of the two calls |
| `Timeline.dfy` | both calls on one time line, where drift and delay follow from the times |
| `HolePunch.dfy` | the five-attempt handshake of the stun clients, alone and in pairs |
| `PortSweep.dfy`, `SweepPunching.dfy`, `PortLearning.dfy`, `SweepRecord.dfy` | the variant of test: wrapping port sweep, port learning, attempt bounds, what its record says |
| `Words.dfy`, `StunMessage.dfy`, `StunWalk.dfy`, `StunClient.dfy`, `StunRoundTrip.dfy`, `StunExample.dfy` | RFC 5389 messages, both response parsers, round trip and agreement, one response byte by byte |
| `Throughput.dfy`, `ThroughputFacts.dfy` | the throughput test's statistics and its reports |
| `Keepalive.dfy` | the keepalive timer of the chat loop |
| `Common.dfy` | options and two facts about sequences |

`dafny verify dfyconfig.toml` checks everything.

## How the parts are modelled

**One peer.** A loop pass is two network actions, sending PUNCH_REQ and polling the socket (with the
PUNCH_ACK a received PUNCH_REQ is answered with). The method that has the source's loop and counters is
proved to follow the same two functions the pair of peers is built from, against an arbitrary
environment: any datagram or none at every poll, and any delay beyond the requested sleep.

**Two peers.** The state is two peers with their socket buffers and a log of what was sent and
received; a step is one network action of one host, in any order. The networks differ in what may
arrive: `Adversarial` loses, duplicates and reorders; `Fifo` delivers each datagram once and in order
after any delay; `Prompt` is `Fifo` with everything sent having arrived before the receiver polls;
`Filtered` is `Fifo` through NATs that filter as section 5 of RFC 4787 describes, refusing datagrams
from an address nothing has been sent to yet. All are closed: only the two peers send.

**Mutual success is not unconditional.** A peer stops answering when it returns, and its chat loop
only prints a later PUNCH_REQ. `Stranding` says exactly when the other one can still succeed, that
without loss and filtering it always can, and gives a run through filtering NATs that leaves it behind.
How soon depends on the network: `Progress` counts polls from the moment a PUNCH_ACK is in the buffer
for every network, and passes from the start when whatever was sent before a poll has arrived some
fixed number of passes later. The two peers may drift
d > 0 passes apart (with d = 0 neither could complete its first pass). Without a bound on delays there
is none on passes, which is proved too. `Deadline` adds the two clocks and follows each peer back to
the call it models: when the passes that may be needed fit into the timeout, both calls return 0.
`Timeline` puts the two calls on one clock and derives drift and delay from when they start, how long
passes last and how long datagrams are under way.

**The stun clients never complete.** Each waits for an `ack` before it sends its own. This is what
the code does, although its messages announce a handshake.

**STUN.** Messages are built by an encoder written from sections 6, 15 and 15.2 of RFC 5389. The
parsers are methods over the receive buffer; the only demand on their callers is that the walk stays
in that buffer, which is proved of every well-formed message (of the unpadded walk, with twelve bytes of
buffer behind the message). STUNExternalIP.c does not skip padding and prints the address from a
host-order integer; both deviations are characterised.

**The sweep** keeps the `uint16_t` wrap-around of its bounds and its counter. For the two bases
64534 and 64535 it never ends, which is proved of the loop and of the whole call.

**Times** are whole microseconds, or whole seconds where the source calls `time`; rates are exact
reals. Where a loop can run forever or needs more input than there is, the model stops at the end of
the given input and says so in the result.

## Model

| member | source | states |
|---|---|---|
| Handshake.PerformNatPunching | test3/p2p_client.c:172-222 | Against every environment: the call returns 0 at the first pass that polls a PUNCH_ACK and -1 when the clock has run out before one, after at most 120 attempts and 240 messages, having continued exactly as long as neither had happened |
| Handshake.SuccessIsFirstAck | test3/p2p_client.c:200-214 | After n passes the peer has succeeded exactly when one of those n polls gave PUNCH_ACK, and is otherwise still at it |
| Handshake.AtMost120 | test3/p2p_client.c:191-216 | With sleeps no shorter than asked for, a pass begun within the 60 seconds is one of the first 120 |
| Handshake.SendReqDisciplined | test3/p2p_client.c:192-194 | Sending keeps the peer's discipline: a PUNCH_REQ per attempt, PUNCH_REQ first, one PUNCH_ACK per PUNCH_REQ received, success exactly by PUNCH_ACK |
| Handshake.ReceiveDisciplined | test3/p2p_client.c:196-214 | So does every poll, whatever it yields |
| Handshake.PassesDisciplined | test2/p2p_client.c:170-199 | So every number of passes against every environment does |
| Handshake.MessageBound | test3/p2p_client.c:191-217 | At most two messages per attempt, and no more attempts than passes |
| Handshake.AcksAnswerRequests | test3/p2p_client.c:206-209 | PUNCH_ACKs sent equal PUNCH_REQs received, which are at most the polls made |
| Handshake.SilentAttempts | test3/p2p_client.c:191-221 | A call that gets no PUNCH_ACK, with sleeps as long as asked, makes exactly 120 attempts if it starts in the first half of a second and 119 otherwise |
| PunchPair.StepKeepsSound | test3/p2p_client.c:191-217 | Every action of either host, on every network, keeps both peers disciplined, every datagram in a buffer a sent one, and the log causal: each receipt after its sending, each PUNCH_ACK right after the PUNCH_REQ it answers, none of either after success |
| PunchPair.RunKeepsSound | test3/p2p_client.c:191-217 | So does every run |
| PunchPair.SuccessMeansRoundTrip | test2/p2p_client.c:170-199 | Under any loss, duplication and reordering: a PUNCH_ACK received by x was preceded by a PUNCH_REQ of x, its receipt by the other peer, and that peer's PUNCH_ACK, in that order |
| PunchPair.MutualAcknowledgement | test2/p2p_client.c:187-195 | If both succeed, each sent its own PUNCH_ACK before it received the one that made it leave |
| Stranding.StrandedForGood | test3/p2p_client.c:206-213 | If one peer returned success without ever having sent a PUNCH_ACK, no continuation of any length lets the other succeed |
| Stranding.StepKeepsStranded | test3/p2p_client.c:438-441 | No single action changes that; the chat loop of the one that left sends no protocol word |
| Stranding.StrandingExact | test3/p2p_client.c:206-213 | On every network, after one peer has returned, some continuation lets the other succeed if and only if the first sent a PUNCH_ACK before returning, if and only if it had received a PUNCH_REQ |
| Stranding.DrainSucceeds | test3/p2p_client.c:196-213 | A PUNCH_ACK anywhere in the socket buffer suffices for some continuation to succeed |
| Stranding.FirstReceivedIsReq | test3/p2p_client.c:191-199 | On loss-free FIFO channels the first message a peer receives is a PUNCH_REQ, because requests are sent before every poll |
| Stranding.LeaverAcknowledged | test3/p2p_client.c:206-213 | On loss-free FIFO channels without filtering a peer that returned success has sent a PUNCH_ACK |
| Stranding.SentIsSplit | test3/p2p_client.c:191-217 | There, what it sent is exactly what the other took, holds and has coming |
| Stranding.NoHalfOpen | test3/p2p_client.c:191-217 | Both together, with the PUNCH_ACK among what the other holds or has coming if it is still punching, which therefore can succeed |
| Stranding.RunKeepsOrder | test3/p2p_client.c:196-199 | On every in-order network a host has taken and holds exactly what arrived and was not refused, in order, and no PUNCH_ACK is ever refused |
| Stranding.AckNeedsRequest | test3/p2p_client.c:206-209 | A PUNCH_ACK has only ever been sent towards a peer that sent something itself |
| Stranding.FilteringStrands | test3/p2p_client.c:191-217 | With filtering NATs an explicit run ends with one peer returned and the other unable to succeed on any continuation |
| Progress.OthersKeepThePlace | test3/p2p_client.c:191-199 | Nothing but its own poll changes the place of the first PUNCH_ACK in a peer's buffer |
| Progress.PollLowersThePlace | test3/p2p_client.c:196-213 | A poll moves it exactly one place forward, or succeeds when it is at the front |
| Progress.PollsUntilSuccess | test3/p2p_client.c:191-217 | On every network and schedule without timeout, with the first PUNCH_ACK at place k the peer succeeds at its poll number k+1 and not before |
| Progress.BothSucceedSoon | test3/p2p_client.c:191-217 | On loss-free FIFO channels where whatever was sent `delay` of the receiver's passes before a poll has arrived by then, and neither peer runs more than d passes ahead while both punch, no peer makes more than 2(d+delay)+2 passes and one that made them all has succeeded |
| Progress.PromptIsTimely | test3/p2p_client.c:196-198 | Delay zero is the network where everything sent has arrived before each poll |
| Progress.SteadyRunIsRun | test3/p2p_client.c:191-217 | Such runs are runs of the loss-free FIFO network |
| Progress.DelaysCostPasses | test3/p2p_client.c:191-217 | No bound holds for all delays: for every n a run with the peers at most one pass apart on which both have made n passes and are still punching |
| Tightness.BoundAttained | test3/p2p_client.c:191-217 | The bound cannot be lowered: for every d > 0 and every delay some such run makes both succeed only with one peer's pass number 2(d+delay)+2 |
| Progress.SteadyRunsFinish | test3/p2p_client.c:191-217 | Every such run, however far it has gone, extends within the same bounds on drift and delay to one where both have succeeded |
| Deadline.RunFollows | test3/p2p_client.c:172-222 | Each peer of the pair is where a call of perform_nat_punching is whose environment yields what that peer polled |
| Deadline.ClockedIsSteady | test3/p2p_client.c:191 | With passes quick enough the loop test on the clock changes nothing: the runs are exactly those in which nobody gives up |
| Deadline.NeitherTimesOut | test3/p2p_client.c:172-222 | If 2(d+delay)+1 passes of at most `each` microseconds end within 59 seconds of a call's start (whole-second readings may cost the sixtieth), no peer ever gives up, one that has made 2(d+delay)+2 passes has succeeded, and the call of one that succeeded returns 0 |
| Deadline.BothStillCan | test3/p2p_client.c:172-222 | And every such run extends, clocks obeyed, to one where both have succeeded |
| Timeline.TimeRunIsClocked | test3/p2p_client.c:191-217 | On one time line, calls that start within `spread`, make passes of half a second to `each` and get their datagrams within `lag` microseconds keep within a drift and a delay in passes that need no assuming |
| Timeline.SkewSuffices | test3/p2p_client.c:216 | The drift and delay to which those times amount when passes stay below three quarters of a second |
| Timeline.ReturnsInTime | test3/p2p_client.c:172-222 | A call on schedule has returned 0 by the time its 2(d+delay)+2 longest passes take |
| Timeline.BothCallsReturnZero | test3/p2p_client.c:172-222 | With all three times given and the passes they ask for fitting before the timeout, both calls have returned 0 by the end of those passes, on every in-order loss-free schedule |
| Timeline.BothCallsGoOn | test3/p2p_client.c:172-222 | And every run so far goes on, within all time limits, to one where both have succeeded |
| Timeline.TenSecondsApart | test3/p2p_client.c:172-222 | For starts ten seconds apart, passes of up to 510 ms and a second under way that is 48 passes, under 25 seconds |
| HolePunch.HolePunchInfo.CreateHolePunch | stun/client_common.h:18-62 | The loop's return code, attempt count, final remote address and datagrams sent are those of at most five turns of the environment, after which the outcome is settled |
| HolePunch.GoingOn | stun/client_common.h:30-57 | As long as no send fails and no `ack` comes, turn i sends its `hole_punch` to the source of the latest datagram received before it, at first to the given address; the remote address is that source, and the fifth turn ends the call with -1 |
| HolePunch.Acknowledging | stun/client_common.h:46-52 | The turn that gets an `ack` sends one back to where it came from, keeps that address and returns 0 |
| HolePunch.FailingToSend | stun/client_common.h:34-38 | A failed send ends the call with -1 and nothing more is sent |
| HolePunch.ReturnsZeroExactly | stun/client_common.h:30-61 | The call returns 0 if and only if one of the turns gets an `ack` before any send has failed; -1 comes only after all five turns or a failed send |
| HolePunch.RunKeepsHopeless | stun/client_common.h:44-54 | In every run of two such clients no `ack` is ever sent and sends equal attempts |
| HolePunch.PairNeverCompletes | stun/client_common.h:30-61 | Under any schedule, loss, duplication and reordering neither call of the pair returns 0; one whose sends all worked and that returned did so with -1 after exactly five attempts |
| PortSweep.SweptClosedForm | test/p2p_client.c:244 | The loop variable after k increments, despite its wrap-arounds, is the start plus 10k modulo 65536 |
| PortSweep.SweptParity | test/p2p_client.c:244 | It keeps its parity across wraps |
| PortSweep.WrappingSweepEnds | test/p2p_client.c:220-244 | The sweeps of bases 64526 to 64533 wrap past their bound and end after exactly 6754 or 19861 increments |
| PortSweep.SweepLengthExact | test/p2p_client.c:219-244 | The number of increments at which the loop test first fails, for every base whose sweep ends |
| PortSweep.SweepEndsExactly | test/p2p_client.c:219-244 | For every 16-bit base: the sweep ends if and only if the base is neither 64534 nor 64535 |
| PortSweep.EmptySweepExactly | test/p2p_client.c:220-244 | The sweep is empty if and only if the base is below 24 or above 64535 |
| PortSweep.StraightLength | test/p2p_client.c:219-244 | For 1000 < base <= 64525 the sweep ends after 201 ports |
| PortSweep.StraightCoverage | test/p2p_client.c:219-248 | Those are exactly the ports within 1000 of the base and congruent to it modulo 10, each once, the base among them |
| PortSweep.TargetsDistinct | test/p2p_client.c:244-248 | No sweep that ends, wrapping or not, targets a port twice |
| PortSweep.LowCoverage | test/p2p_client.c:220-248 | For bases from 24 to 1000 the targets are exactly 1024, 1034, ... up to 1000 above the base, which is never among them |
| SweepPunching.SweepingPeer.Send | test/p2p_client.c:186-189 | Sending records the datagram and leaves what was learned alone |
| SweepPunching.SweepingPeer.PollOnce | test/p2p_client.c:253-277 | A poll that returns a datagram records it and remembers its source as last working; a PUNCH_REQ is also answered to its source, which becomes the peer's port; success exactly on PUNCH_ACK; an empty poll changes nothing but the time |
| SweepPunching.SweepingPeer.PollAll | test/p2p_client.c:252-278 | The polls end with success exactly when one of them is a PUNCH_ACK and otherwise take exactly their sleeps |
| SweepPunching.SweepingPeer.TryPort | test/p2p_client.c:245-278 | A swept port gets one PUNCH_REQ and its five polls, with their time unless acknowledged |
| SweepPunching.SweepingPeer.Sweep | test/p2p_client.c:244-279 | The sweep completes exactly when its variable first exceeds its bound without a PUNCH_ACK, is cut short exactly by the first PUNCH_ACK, and else is still within bounds when the input ends |
| SweepPunching.SweepingPeer.Open | test/p2p_client.c:232-241 | An attempt opens with a PUNCH_REQ to the learned port and one to the port last heard from if there is one |
| SweepPunching.SweepingPeer.Attempt | test/p2p_client.c:231-279 | One attempt extends the record by its opening requests and its sweep |
| SweepPunching.SweepingPeer.PerformNatPunching | test/p2p_client.c:192-291 | The call's attempts split its input; every attempt begins while the clock, advanced by all sleeps of the attempts before it, has not run out; all but the last are whole sweeps without PUNCH_ACK; 0 is returned on the PUNCH_ACK that cuts the last one short, -1 only when the clock has run out behind whole sweeps |
| SweepRecord.HeardExactly | test/p2p_client.c:252-277 | The datagrams a run's record says were received are exactly those its polls returned, in order, each port's polls up to their first PUNCH_ACK |
| SweepRecord.RequestsAnswered | test/p2p_client.c:264-269 | In every run each PUNCH_REQ received is answered next, to the port it came from |
| SweepRecord.LatestRequesterExactly | test/p2p_client.c:268 | The learned port is the source of the last PUNCH_REQ received, or the port given if there was none |
| SweepRecord.LatestHeardExactly | test/p2p_client.c:258 | The last working port is the source of the last datagram received, or 0 |
| SweepRecord.SilentSweeps | test/p2p_client.c:231-290 | From 1000 < base <= 64525 a call that gets no PUNCH_ACK, with sleeps as long as asked, makes exactly six attempts |
| SweepRecord.NoAttemptAfterOverrun | test/p2p_client.c:231-286 | After an attempt with any one sleep a minute too long no other attempt begins |
| PortLearning.PortsAreLearned | test/p2p_client.c:231-279 | In every run each PUNCH_REQ targets the initial port, the source of the latest PUNCH_REQ, the port last heard from or a swept port; each answer goes at once to where its request came from; on success the remembered port is the source of the PUNCH_ACK just received |
| PortLearning.AttemptTargets | test/p2p_client.c:232-248 | The targets of an attempt's requests, in order |
| PortLearning.HangsOnTopPorts | test/p2p_client.c:219-244 | From base 64534 or 64535 the call stays in its first sweep forever unless a PUNCH_ACK arrives; the timeout is never looked at again |
| PortLearning.LeastTime | test/p2p_client.c:277-285 | With no sleep shorter than asked for, attempts take at least 50 ms a swept port and half a second each |
| PortLearning.AttemptBound | test/p2p_client.c:231-286 | So at most 120 attempts from any base, at most 6 for 1000 < base <= 64525, at most 1 from 64526 to 64535 |
| PortLearning.ReturnsElsewhere | test/p2p_client.c:231-290 | From every other base the call returns within 120 sweeps' worth of input |
| Words.XorBits | test3/p2p_client.c:111-112 | The mask sets exactly the bits in which its operands differ |
| Words.XorZero | test3/p2p_client.c:111-112 | Masking with zero changes nothing |
| Words.XorSelf | test3/p2p_client.c:111-112 | Masking a word with itself gives zero |
| Words.XorCommutes | test3/p2p_client.c:111-112 | The order of the operands does not matter |
| Words.LoadWeighs | stun/STUNExternalIP.c:148 | The value of a 32-bit field as a host of either byte order reads it |
| Words.XorTwice | test3/p2p_client.c:111-112 | Masking twice with the same word gives back the original |
| Words.XorByByte | test3/p2p_client.c:111 | Exclusive or of a 32-bit word is that of its four bytes |
| StunMessage.HeaderLayout | test3/p2p_client.c:37-42 | The section 6 header holds type, length, cookie and identifier at bytes 0, 2, 4 and 8, most significant byte first |
| StunWalk.WalkFollowsList | test3/p2p_client.c:104-125 | Over every encoded attribute list, whatever lies behind it in the buffer, the padded walk reads its headers exactly at the attributes' starts and stops at the first XOR-MAPPED-ADDRESS or exactly at the end; the unpadded one does too if all attributes before that are multiples of four long |
| StunWalk.HeadersOnGrid | test3/p2p_client.c:121-124 | The headers read are multiples of 4 from the first one, one whole attribute apart, and each attribute lies inside the message |
| StunClient.GenerateTransactionId | test3/p2p_client.c:78-82 | Exactly the twelve identifier bytes of the buffer change, to the given ones |
| StunClient.CreateStunBindingRequest | test3/p2p_client.c:84-93 | The buffer starts with 00 01 00 00 21 12 A4 42 and the identifier, an attribute-less Binding Request; nothing behind it changes |
| StunClient.FindMappedPadded | test3/p2p_client.c:104-125 | The in-place loop stops where the specified walk does and terminates for every length field |
| StunClient.StoreMapped | test3/p2p_client.c:110-117 | The endpoint gets the byte-wise unmasked address and port of the attribute, on hosts of either byte order |
| StunClient.ParseStunResponse | test3/p2p_client.c:95-128 | 0 exactly for a Binding Response in which the walk finds the attribute, with the byte-wise unmasked address and port on hosts of either byte order; otherwise -1 and the endpoint untouched |
| StunClient.SameIdentifier | stun/STUNExternalIP.c:124-135 | The word-wise comparison accepts exactly equal transaction identifiers |
| StunClient.FindMappedUnpadded | stun/STUNExternalIP.c:139-166 | The unpadded loop stops where the unpadded walk does |
| StunClient.StorePrinted | stun/STUNExternalIP.c:147-153 | The output gets the unmasked port and the octets as printed from the masked host-order value |
| StunClient.CheckResponse | stun/STUNExternalIP.c:120-176 | -5 if the first two bytes are not 01 01, else -1 if the identifier differs, else 0 with port and printed octets if the walk finds the attribute and -5 if not; the output is untouched on failure |
| StunClient.InetNtopIsPortable | test3/p2p_client.c:111-116 | ntohl, mask, htonl, print gives the byte-wise unmasked address on hosts of either byte order |
| StunClient.HighByteFirstDependsOnHost | stun/STUNExternalIP.c:148-153 | Masking without conversion gives the address on a big-endian host and its octets reversed on a little-endian one |
| StunRoundTrip.UnmaskMasked | test3/p2p_client.c:110-117 | Unmasking undoes the masking of section 15.2 of RFC 5389 for every address and port |
| StunRoundTrip.ParseOfEncode | test3/p2p_client.c:95-128 | For every valid encoded Binding Response the padded parser stays within the message and yields exactly the IPv4 address and port of its first XOR-MAPPED-ADDRESS, whatever attributes, lengths and padding precede or follow it and whatever the buffer holds behind it |
| StunRoundTrip.ParseReceived | test3/p2p_client.c:95-128 | Run over the buffer such a response was received into, parse_stun_response returns 0 with that address and port |
| StunRoundTrip.EveryAddressCarried | test3/p2p_client.c:109-118 | For every address, port and identifier the response with just that attribute is such a message |
| StunRoundTrip.ParseWithoutAddress | test3/p2p_client.c:104-127 | Without such an attribute it fails, having stopped exactly at the end of the message |
| StunRoundTrip.ParsersAgree | stun/STUNExternalIP.c:139-165 | If every attribute before the first XOR-MAPPED-ADDRESS has a length divisible by 4, both parsers stop at the same offset and give the same port; the addresses agree on a big-endian host and are octet-reversed on a little-endian one |
| StunRoundTrip.CheckReceived | stun/STUNExternalIP.c:120-167 | Under the same condition and with the request's identifier, the check returns 0 with that port and the address, octets reversed on a little-endian host |
| StunRoundTrip.RoomToRead | stun/STUNExternalIP.c:140-165 | Twelve bytes of buffer behind a message keep every walk over it inside the buffer, wherever it stands |
| StunRoundTrip.UnalignedMisses | stun/STUNExternalIP.c:165 | Behind an unaligned attribute the unpadded walk never stops at the next one, whatever the padding holds and whatever follows |
| StunRoundTrip.AgreementExact | stun/STUNExternalIP.c:165 | If no attribute but the one just before the first XOR-MAPPED-ADDRESS is unaligned, both walks stop at the same offset if and only if that one is aligned too, in messages of any size in any buffer the unpadded walk stays in |
| StunRoundTrip.OddAttributeHides | stun/STUNExternalIP.c:165 | Concretely: behind a single attribute of three bytes the padded walk finds every address at offset 28 and the unpadded one does not |
| StunRoundTrip.EarlyOddUndecided | stun/STUNExternalIP.c:165 | With an unaligned attribute further back lengths decide nothing: of responses that differ in one byte of an empty attribute's type the unpadded walk finds the address in exactly one |
| StunExample.ParseExample | test3/p2p_client.c:95-128 | A response written out in bytes, with the address attribute of section 2.2 of RFC 5769, parses to 192.0.2.1 and port 32853 on every host |
| StunExample.CheckExample | stun/STUNExternalIP.c:120-167 | The other parser gives port 32853 and prints 192.0.2.1 on a big-endian host, 1.2.0.192 on a little-endian one |
| StunExample.Masked | test3/p2p_client.c:110-117 | The encoder's attribute value for that address is the one of the sample |
| Throughput.TestStats.constructor | test3/p2p_client.c:224-229 | The counters start empty at the current time |
| Throughput.TestStats.PrintStats | test3/p2p_client.c:231-246 | A report takes all pending bytes and the interval since the last one, and starts the next |
| Throughput.TestStats.Record | test3/p2p_client.c:262-270 | One pass of a loop is exactly one step of the specification |
| Throughput.RunIperfServer | test3/p2p_client.c:248-272 | After any number of datagrams the statistics are those of the specification |
| Throughput.RunIperfClient | test3/p2p_client.c:274-315 | The client sends while the reading's second is less than ten past that of the start and stops at the first that is not, with its statistics those of the specification plus the final report, and its packet headers in order |
| ThroughputFacts.BytesConserved | test3/p2p_client.c:231-271 | Reported plus pending bytes are all bytes that went through, despite the reset at each report |
| ThroughputFacts.ClientReportsEverything | test3/p2p_client.c:286-313 | A finished client has reported every byte it sent |
| ThroughputFacts.PacketsCounted | test3/p2p_client.c:300-302 | total_packets is the number of successful sends or receives modulo 2^32 |
| ThroughputFacts.PendingBytesFit | test3/p2p_client.c:262-271 | total_bytes is at most 8192 per packet, so its 64 bits last for 2^51 packets |
| ThroughputFacts.ReportsTile | test3/p2p_client.c:231-246 | Report intervals tile the span from the start to the last report, each one made in a loop at least a microsecond long, whatever the clock does |
| ThroughputFacts.RatesWeighBytes | test3/p2p_client.c:237 | Rates times intervals add up to eight times the reported bytes |
| ThroughputFacts.WeightedAverage | test3/p2p_client.c:286-313 | For a finished client with a final interval longer than zero that is eight times the bytes sent |
| ThroughputFacts.ReportsPerSecond | test3/p2p_client.c:289-306 | In-loop reports are at most one per new second, at most nine in all |
| ThroughputFacts.ReportedExactly | test3/p2p_client.c:262-270 | Whatever the clock does, a loop reports exactly as often as something gets through in a second later than the start and all before, and the last report lies in the latest such second |
| ThroughputFacts.NoSecondUnreported | test3/p2p_client.c:304-306 | With a clock that does not run backwards, after every pass that got something through the last report is from that pass's second |
| ThroughputFacts.PacketsStamped | test3/p2p_client.c:293-295 | Every packet carries its number modulo 2^32 and its reading split into seconds and microseconds |
| ThroughputFacts.AtMostTenReports | test3/p2p_client.c:286-313 | A client prints at most ten reports |
| ThroughputFacts.AtMost10000Packets | test3/p2p_client.c:286-310 | If each pass takes at least a millisecond there are at most 10000 sends, numbered 0, 1, 2, ... without wrapping |
| ThroughputFacts.RatesBounded | test3/p2p_client.c:297-309 | Then every report after the first has at most 8192 bytes a millisecond, the first at most one packet more |
| ThroughputFacts.ClientRateBound | test3/p2p_client.c:237-313 | So no report after the first exceeds 65.536 Mbit/s |
| ThroughputFacts.BoundedExactly | test3/p2p_client.c:231-246 | The reports of a finished client all show at most 65.536 Mbit/s exactly when each has at most 8192 bytes a millisecond |
| ThroughputFacts.RateBoundExact | test3/p2p_client.c:286-313 | Every report of every finished client, the first included, stays within 65.536 Mbit/s if and only if the first reading for a packet comes at least a millisecond after the start |
| ThroughputFacts.FirstReportExceeds | test3/p2p_client.c:286-306 | A concrete run whose first report shows twice that rate |
| ThroughputFacts.RunKeepsBalance | test3/p2p_client.c:262-302 | Over a channel that loses and reorders but does not duplicate, bytes counted by the client plus stray bytes equal bytes counted by the server plus lost and in-flight ones, in every run |
| ThroughputFacts.EndToEnd | test3/p2p_client.c:248-315 | The same from the start of both ends, in terms of their reports |
| Keepalive.ChatLoop.Once | test3/p2p_client.c:400-447 | One pass, with the failed read that skips the check, is one step of the timer |
| Keepalive.ChatLoop.Run | test3/p2p_client.c:383-448 | The loop over any passes is the timer over those before the one that leaves |
| Keepalive.IdleBelowFive | test2/p2p_client.c:285-320 | After every pass that reaches the check the last activity is less than 5 seconds old |
| Keepalive.KeepalivesSpaced | test2/p2p_client.c:316-320 | Keepalives are at least 5 seconds apart, the first at least 5 after the start |
| Keepalive.SentExactly | test3/p2p_client.c:402-447 | A pass sends a keepalive if and only if its read did not fail, it neither sends a line nor receives other text, and the start, every earlier pass that did and every earlier keepalive lie at least 5 seconds back |
| Keepalive.LastIsLatest | test2/p2p_client.c:295-319 | last_activity is the latest of the start, the passes with a line or other text, and the keepalives |
| Keepalive.KeepalivesIgnored | test2/p2p_client.c:310-313 | Received KEEPALIVEs change nothing about when keepalives are sent |
| Keepalive.KeepalivesRegular | test2/p2p_client.c:268-320 | Without other activity and failed reads, with pass gaps of at most g seconds, keepalives are at most 4+g apart |
| Keepalive.TextPostpones | test2/p2p_client.c:295-313 | While every pass sends a line or receives other text no keepalive is sent, for however long |

## Left out

- Sockets, DNS, `select`, `fcntl`, `setsockopt`, and their error paths; what a send or receive yields is an input.
- The TCP and UDP echo demos, udp_test_02 and week1 to week3: no state of their own, or copies of what is modelled.
- The maintenance thread and mutex of test/p2p_client.c: it uses a context on the stack of the call that started it.
- The `received_response` flag of test/p2p_client.c: it only guards a line of output.
- IP addresses in the punching loops: the source never changes them, only ports are learned.
- The address a chat line or keepalive goes to, which each received datagram overwrites.
- `malloc` and `free`, console text, the labels of printed intervals, and parsing of what the user types.
- Randomness of transaction identifiers; the twelve bytes are arbitrary.
- Malformed STUN messages whose walk would leave the receive buffer; the header's own length and cookie and the address family are ignored, as in the source.
- Chat text that is exactly one of the protocol words.
- Datagrams longer than what is compared: a text is one of the protocol words or not.
- StunRoundTrip.AgreementExact: says nothing about lists with an unaligned attribute further back; there neither lengths nor alignment decide, as `EarlyOddUndecided` shows.
- ThroughputFacts.WeightedAverage: does not cover an empty final interval, whose rate is a division by zero, or floating-point rounding.
- `/iperf server` typed into the chat never returns, so a chat run ends there; `/iperf client` is a line that keeps the clock reading made before it.
- The punching variant of test and the throughput loops run over finite input; a run still going at its end is reported as such.
- Receiving a PUNCH_REQ and answering it is one step of the pair, sending a PUNCH_REQ another.
