# A verified model of grtcserver's connectivity core

grtcserver is a small WebRTC server in C++. This project models the parts of it that carry state and
protocol logic, and proves what they promise over every input, every run and every interleaving:

- **STUN messages** (RFC 5389): building, writing, reading, the MESSAGE-INTEGRITY and FINGERPRINT checks,
  and whole ping and answer exchanges between two ends.
- **ICE connectivity**: the candidate pair with its write and receive state, the controller that schedules
  pings and ranks pairs, and the transport channel that selects one and summarises all of them.
- **Transactions**: the request manager and the fate of every request.
- **A whole end**: channel, request managers and ports together, stepped by packets and timers.
- **Queues and streams**: the single-producer single-consumer queue, the TCP framing and reply writer of the
  signalling worker, and the UDP send queue.

## How it is laid out

Values and laws come first, objects second. A component's state is a datatype, its operations are functions
on it, and theorems are lemmas about these functions and about runs of them. Where the program updates an
object in place, a class has the same fields and methods, its loops are loops with invariants, and each
method is proved to change the object's abstract value as the function says; so the theorems hold of the
objects. A whole end is many objects that call each other through signals; it is one value that steps.

| files | content |
|---|---|
| `Base` | fixed-width integers, byte order, exclusive or |
| `StunAttributes`, `StunCodec`, `StunTheorems`, `StunMessage` | the codec, its laws, the message object |
| `StunIntake` | every packet judged by its bytes: fingerprint, reading, signature, requests, responses |
| `StunWitnesses` | packets on which the integrity check does not look at the stored signature |
| `StunBinding`, `StunRequests`, `StunTransactions`, `PingExchange` | requests, the request manager, answers, and a whole exchange |
| `ConnectionState`, `ConnectionRank` | one candidate pair; comparing and sorting pairs |
| `ChannelState`, `ChannelTheorems`, `ChannelRuns`, `ChannelHistory` | the channel with its controller; what steps and runs keep |
| `ConnectionStories` | what each connection of a channel lives through: its own run, its round trip, its credentials |
| `ChannelScheduling`, `ChannelTurns` | ping spacing and fairness; whom a tick pings, selection or not, and why nobody starves |
| `ChannelSelection`, `ChannelSilence` | what the selection settles on; what silence does to it |
| `ChannelWitnesses` | runs of a new channel that end where a condition fails |
| `IceAgents`, `AgentExchanges`, `AgentIntake` | a whole end and its runs; messages between two of them; what a packet needs to bring anything about |
| `AgentWitnesses` | a run of a new end that ends in a double deletion or at a null pointer |
| `IceConnections`, `IceControllers`, `IceTransportChannels` | the three objects |
| `QueueSteps`, `QueueTheorems`, `LockFreeQueue` | the queue as atomic steps; FIFO and reclamation; the object |
| `Framing`, `Replies`, `TcpConnections` | framing, reply writer, the connection object |
| `UdpQueue`, `UdpOffers` | the UDP send queue and its object; the queue against what the kernel took |

HMAC, CRC-32, the moving average, the request handler and the kernel's results are function-valued or
sequence-valued parameters: the theorems hold for all of them.

## Where a promise needs a condition

Each of these is proved as an equivalence, or shown by a concrete input or run.

- A written message is read back exactly if its id has 12 bytes, bit 0x0800 of its type is clear and its
  attributes take less than 65536 bytes (`StunTheorems.ReadAfterWrite`).
- The integrity check scans the packet itself and can miss the MESSAGE-INTEGRITY that `read` stored, or take
  other bytes for it. The two walks part behind an unknown attribute with a length field above 65532, and
  behind a PRIORITY whose padded length field is not 4, because `read` never looks at that field. They agree if neither
  stands before the first stored signature; behind a wrapped length only if none is stored; behind such a
  PRIORITY exactly if from there neither walk meets a signature alone (`StunTheorems.IntegrityScanAgrees`).
  `StunWitnesses.SignatureCanHide` is a packet of the first kind; `StunWitnesses.PriorityScanned` says for every length
  field and every value of a PRIORITY what the check looks at.
- `read` knows no ERROR-CODE, so a connection always sees error 600 (`StunBinding.ErrorCodeNeverRead`), and
  never keeps itself after 420 or 500 as it means to. It is destroyed from inside the callback: that follows a null pointer if
  it was selected and INFO messages are formatted, and otherwise has its request deleted twice. So a whole end keeps
  its invariant exactly as long as no signed error response answers one of its pings (`IceAgents.RunKeepsInvIff`,
  `AgentExchanges.SignedErrorHarms`; `AgentWitnesses.ErrorEndsMeeting` is such a run from the start, for either harm).
- Errors 400 and 401 are sent unsigned, so they never reach the request they answer
  (`StunTransactions.RefusalNeverArrives`).
- A peer that already has a connection to the sender's address takes a ping only from that connection's user: a
  sender that starts again with a new fragment is refused with 401 (`PingExchange.ExchangeDecided`,
  `AgentExchanges.PingMakesWritable`).
- The 64-bit pair priority is the one of section 5.7.2 of RFC 5245 exactly if both candidate priorities are
  below 2^31 (`ConnectionRank.PriorityMatchesStandard`).
- The response allowance of a writable connection is 100 ms or 60 s and nothing between. It passes through
  an `int`, so it is void once the expected time no longer fits 31 bits (`ConnectionState.AllowanceEnds`).
- Destroying the selected connection follows a null pointer while messages of level INFO are formatted, which
  is the default (`ChannelHistory.LoggedRunKeepsInvIff`). With INFO off it leaves the controller with a dangling
  selection, unless another connection takes over at once (`ChannelRuns.DestroySelected`,
  `ChannelHistory.RunKeepsInvIff`). `ChannelWitnesses.DestructionDangles` is a run of five events for either case.
- Behind a selection that stays, every connection with known credentials is pinged within a stated number of turns,
  if the channel's timer comes no more than 185 ms late (`ChannelTurns.NobodyStarves`): then the selection is not
  due again before the next ping.
- The switch compares round trips only, so a channel can stay on a connection that timed out while another
  one is writable (`ChannelSelection.WritableUnlessKept`; `ChannelWitnesses.TimedOutSelectionIsKept` is a run of
  a new channel that ends so).
- The queue's size can be -1, and `empty` is wrong exactly while a counter update is due on one side of a
  short queue (`QueueTheorems.EmptyExact`, `QueueTheorems.SizeCanBeNegative`).
- A client that sends 65535 bytes more than its body makes the framing loop endless, because 65535 stands for
  "handled" (`Framing.LoopsForEver`, `Framing.HandlerRunsOnce`); every accepted request with a body can be followed
  by such bytes (`Framing.AcceptedRequestFloods`).
- A new datagram is given up without being offered to the kernel exactly if the first answer to the queue before
  it that is not positive is negative (`UdpQueue.GivenUpUnoffered`; `UdpQueue.OneErrorDropsTwo` is such a run).

## Model

| member | source | states |
|---|---|---|
| StunAttributes.EncodeAppend | src/ice/stun.cpp:523-541 | writing is attribute by attribute: the bytes of a concatenation are the concatenated bytes, and so are the sizes |
| StunAttributes.SizeAligned | src/ice/stun.cpp:353-360 | the written attributes always fill whole 32-bit words |
| StunAttributes.AttrAt | src/ice/stun.cpp:489-495 | the parser sees, at the offset where an attribute was written, its type, its length, its value and its end |
| StunAttributes.ParseStep | src/ice/stun.cpp:487-518 | one round of the parser on a written attribute ends at its padded end and keeps it exactly if its type is in the table |
| StunTheorems.LengthTracksAttributes | src/ice/stun.cpp:392-440 | after any way of adding attributes the length field is the sum over all of 4 plus the padded length, in 16 bits |
| StunTheorems.AddAllAppends | src/ice/stun.cpp:433-440 | adding attributes one by one appends them in order and keeps the length field right |
| StunTheorems.FingerprintAccepted | src/ice/stun.cpp:33-60 | a message fingerprinted last validates for every checksum function, exactly if its id is a multiple of 4 bytes long and it has 28 bytes; fingerprinting fails exactly if an attribute cannot be written (section 15.5 of RFC 5389) |
| StunTheorems.ReadAfterWrite | src/ice/stun.cpp:442-541 | reading what was written succeeds exactly under three named conditions and then yields the same type, id, length and the attributes of known types in order (section 6 of RFC 5389) |
| StunTheorems.FirstStoredIsFirst | src/ice/stun.cpp:487-518 | looking an attribute up after reading gives the one stored at the first offset of its type |
| StunTheorems.ScanMeetsParser | src/ice/stun.cpp:580-603 | from any word-aligned offset the byte scanner finds the attribute the parser stores first, unless a wrapped length or a PRIORITY of another length comes before it; from there each goes on for itself |
| StunTheorems.WalksCompared | src/ice/stun.cpp:487-518 | from any two offsets scanner and parser find the same attribute exactly if, the one behind moving on, neither meets one alone |
| StunTheorems.IntegrityScanAgrees | src/ice/stun.cpp:566-603 | on whole-word packets that read accepts, exactly when scanner and parser agree: always if they do not part before the first stored signature, else by the kind of attribute at which they part |
| StunWitnesses.SignatureCanHide | src/ice/stun.cpp:499-505 | a packet of 48 bytes that read accepts with a stored signature, and that is bad for every password and hash function because the scan never finds it |
| StunWitnesses.PriorityScanned | src/ice/stun.cpp:234-245 | a PRIORITY of any length field and value in front of a signature: read accepts and stores the signature; the scan finds it, the PRIORITY's own value or nothing, as length and value say |
| StunWitnesses.PriorityJudged | src/ice/stun.cpp:604-619 | in the failing cases the message is bad whatever the password, or judged by bytes that are not the stored signature's |
| StunTheorems.SigningSignsPrefix | src/ice/stun.cpp:397-416 | signing hashes exactly the bytes before the attribute, with a length field that already covers it, and succeeds exactly if the hash has 20 bytes |
| StunTheorems.SignatureVisible | src/ice/stun.cpp:566-620 | whatever is added behind the signature, the scanner finds it and restores exactly the prefix that was signed, by patching the length field (section 15.4 of RFC 5389) |
| StunTheorems.IntegrityAccepted | src/ice/stun.cpp:543-620 | write, read and validate: ok exactly if the receiver's password hashes the signed prefix to the value in the message, for every HMAC function and whatever was added behind it |
| StunTheorems.XorAddressRecovered | src/ice/stun.cpp:175-228 | applying the cookie to a written XOR-MAPPED-ADDRESS gives back port and IPv4 address |
| StunTheorems.IntegersAreWritten | src/ice/stun.cpp:247-273 | integer values are written in network byte order, the upper half of eight bytes first |
| StunTheorems.StringAtTheEnd | src/ice/stun.cpp:343-377 | a byte string that ends the packet is read with its padding or without any, and stored even where reading fails on a part of it |
| StunIntake.FingerprintDecided | src/ice/stun.cpp:33-60 | any packet validates exactly if it has whole words, 28 bytes, the cookie, and ends with the FINGERPRINT of the bytes before, for every checksum function |
| StunIntake.ReadDecided | src/ice/stun.cpp:442-521 | any packet is read exactly if type bit, length field and attributes are right, and then to its type, length, id and attributes |
| StunIntake.ReadLeaves | src/ice/stun.cpp:442-521 | the fields read leaves wherever it stops, and the id of 12 or 16 bytes |
| StunIntake.SignatureDecided | src/ice/stun.cpp:566-620 | the check passes exactly if the 20 bytes at the scanned header are the hash of the bytes before with the length field set to end behind them |
| StunIntake.ValidationDecided | src/ice/stun.cpp:543-564 | the status none, ok or bad of any message, and the password it keeps |
| StunIntake.IntakeDecided | src/ice/udp_port.cpp:33-78 | every packet, by its bytes: a request is taken exactly if user name and signature are right, refused with 400 exactly if one is missing, with 401 in all other cases |
| StunIntake.ResponseDecided | src/ice/ice_connection.cpp:242-282 | every packet, by its bytes: it reaches the request manager exactly if it is a response signed with the peer's password, for the transaction it names |
| StunMessage.StunMessage.AddAttribute | src/ice/stun.cpp:433-440 | the object's fields change as the value does: attribute appended, length advanced in 16 bits |
| StunMessage.StunMessage.Write | src/ice/stun.cpp:523-541 | the writing loop produces the encoded bytes, and fails exactly if some attribute is not writable |
| StunMessage.StunMessage.AddMessageIntegrity | src/ice/stun.cpp:392-416 | the object signs itself as the value does, result included |
| StunMessage.StunMessage.AddFingerprint | src/ice/stun.cpp:418-431 | the object fingerprints itself as the value does, result included |
| StunMessage.StunMessage.Read | src/ice/stun.cpp:442-521 | the object is left as the value says, also where reading fails half way |
| StunMessage.StunMessage.ReadAttributes | src/ice/stun.cpp:487-518 | the attribute loop stores what the recursive parser stores and fails where it fails |
| StunMessage.ReadAttribute | src/ice/stun.cpp:489-517 | one round of the loop: the next offset, and the attribute kept if any; a uint32 attribute takes four bytes whatever its length field says |
| StunMessage.StunMessage.ValidateMessageIntegrity | src/ice/stun.cpp:543-564 | the object's status becomes none, ok or bad as the value's does |
| StunMessage.CheckIntegrity | src/ice/stun.cpp:566-620 | the scanning loop and the comparison decide as the recursive scan does |
| StunBinding.SplitUserName | src/ice/udp_port.cpp:80-101 | the user name "remote:local" splits into two fields, its fragments, exactly if neither holds a colon |
| StunBinding.UnsignedPingIsFit | src/ice/ice_connection.cpp:13-30 | a prepared ping carries its four attributes in order, with a right length field |
| StunBinding.PingOnTheWire | src/ice/ice_connection.cpp:13-30 | the bytes of a ping for all names, ids and priorities |
| StunBinding.PingPriorityIsPrflx | src/ice/ice_connection.cpp:24-27 | its priority is that of a peer-reflexive candidate with the same local preference and component |
| StunBinding.ResponseTypes | src/ice/stun.cpp:650-660 | which types have responses, and that these differ from the request in the two class bits alone |
| StunBinding.ErrorCodeNeverRead | src/ice/stun.cpp:379-390 | an error response that was read never shows its code: 600 every time |
| StunBinding.PingDecided | src/ice/udp_port.cpp:33-78 | a peer accepts a ping, and reads the sender's fragment from it, exactly if no fragment holds a colon, its own comes first and its password hashes the request to the signature; otherwise it refuses it with 401 |
| StunTransactions.SignedResponseDecided | src/ice/ice_connection.cpp:242-282 | a signed response is taken by the request manager exactly if the known password of the peer hashes it to its signature; otherwise the manager is unchanged |
| StunTransactions.AnswerBytes | src/ice/ice_connection.cpp:179-195 | the bytes of an answer for all ids, ports and addresses; the cookie gives the address back |
| StunTransactions.ErrorBytes | src/ice/udp_port.cpp:206-226 | the bytes of an error: its hundreds and number make up the code, and the reason follows |
| StunTransactions.AnswerArrives | src/ice/ice_connection.cpp:179-195 | the answer to a ping calls its request's success callback once and takes the request from the map, exactly under that condition; otherwise nothing changes |
| StunTransactions.SignedErrorArrives | src/ice/udp_port.cpp:206-239 | a signed error calls the error callback and takes the request from the map under the same condition, and its code then reads 600 |
| StunTransactions.RefusalNeverArrives | src/ice/udp_port.cpp:220-224 | errors 400 and 401 leave map and callbacks as they were, whatever the passwords: the request stays outstanding |
| PingExchange.ExchangeDecided | src/ice/ice_connection.cpp:242-282 | ping, peer, answer and manager together: the connection becomes WRITABLE, its request called back once and gone, exactly if the fragments match, both passwords hash ping and answer alike, and a connection the peer already has to that address is to the sender's user; otherwise nothing changes and the request stays outstanding |
| PingExchange.ReplyDecided | src/ice/udp_port.cpp:120-142 | what is answered to every packet, by its bytes and the connection there is: nothing, 400, 401 or the answer |
| PingExchange.SignedErrorFails | src/ice/ice_connection.cpp:65-90 | a signed error fails the connection of its ping and changes nothing else in it |
| IceAgents.NewAgentInv | src/ice/ice_transport_channel.cpp:22-32 | a new end satisfies the invariant: the channel's, and every connection has a manager of pings, and every port pointer leads to a connection |
| IceAgents.StepKeepsInvIff | src/ice/ice_connection.cpp:76-90 | a timer, packet or new credentials keep that invariant exactly if no signed error response to a waiting ping arrives; if one does, which harm follows is told by log level and selection |
| IceAgents.RunKeepsInvIff | src/ice/stun_request.cpp:19-38 | the same over every run, whatever the packets contain; the first such response ends the defined behaviour |
| IceAgents.ChannelOfRun | src/ice/udp_port.cpp:120-142 | the channel of a run is a run of the channel on the events the packets mean, so the theorems on channels hold of it |
| AgentExchanges.PingMakesWritable | src/ice/ice_connection.cpp:242-282 | a ping from one end to another and back: the channel after the answer, exactly under the conditions of ExchangeDecided; otherwise the sender is unchanged |
| AgentExchanges.PingConnects | src/ice/udp_port.cpp:120-142 | the first ping from an address makes a connection to its sender's user exactly if the port takes it; otherwise nothing changes |
| AgentExchanges.AnswerMakesWritable | src/ice/ice_connection.cpp:129-157 | the bytes of an answer to a waiting ping step channel and manager exactly if both passwords hash it alike; otherwise nothing changes |
| AgentExchanges.SignedErrorHarms | src/ice/ice_connection.cpp:65-90 | the bytes of a signed error of any code, 420 and 500 included, harm under the same condition and change nothing otherwise |
| AgentExchanges.RefusalChangesNothing | src/ice/udp_port.cpp:220-224 | the bytes of an error 400 or 401 leave the whole end unchanged |
| AgentExchanges.TickAsks | src/ice/ice_transport_channel.cpp:195-215 | a timer's ping waits on the connection it goes to, and no other connection's requests change |
| AgentIntake.ContactDecided | src/ice/ice_transport_channel.cpp:101-132 | every packet from a new address: it makes a connection exactly if it is an authentic request with a PRIORITY, and then to the user it names |
| AgentIntake.EveryConnectionWasAsked | src/ice/udp_port.cpp:120-142 | over every run, whatever the packets contain: no connection comes into being but by an authentic request from its address |
| AgentIntake.WritableNeedsHash | src/ice/ice_connection.cpp:242-282 | no step makes a connection writable but a response to one of its waiting pings with the hash of the peer's password |
| AgentWitnesses.ErrorEndsMeeting | src/ice/stun_request.cpp:75-82 | for all credentials, ids and codes: a new end meets a peer, pings it twice, and a signed error deletes a request twice, or follows a null pointer if the first ping was answered and INFO messages are formatted |
| StunRequests.EveryRequestMeetsItsFate | src/ice/stun_request.cpp:11-82 | over every run: a request is outstanding, called back once for success, once for an error, or not at all, as the first later event with its id says |
| StunRequests.TrackedToItsFate | src/ice/stun_request.cpp:19-38 | the same from any state in which the request is in the map |
| StunRequests.GoneStaysGone | src/ice/stun_request.cpp:44-50 | a request that left the map never comes back and is never called back again |
| StunRequests.RunKeepsKeys | src/ice/stun_request.cpp:11-16 | each key of the map is its request's id, over every run |
| StunRequests.SecondResponseUnknown | src/ice/stun_request.cpp:19-23 | a second response with the same id is rejected unless a request took the id in between |
| StunRequests.OthersUntouched | src/ice/stun_request.cpp:19-38 | no event touches outstanding requests with other ids |
| StunRequests.DistinctIdsAreSafe | src/ice/stun_request.cpp:14 | with ids never reused no request is overwritten |
| StunRequests.StunRequestManager.Transmit | src/ice/stun_request.cpp:11-16 | the object's map gains the request under its id, replacing what was there |
| StunRequests.StunRequestManager.CheckResponse | src/ice/stun_request.cpp:19-38 | the object's verdict, callback and map after a response, all four cases |
| StunRequests.StunRequestManager.Destroy | src/ice/stun_request.cpp:75-82 | the draining loop ends with an empty map and frees every outstanding request once, calling none back |
| ConnectionState.AllowanceEnds | src/ice/ice_connection.cpp:325-333 | the failed-ping check waits for the allowance exactly as long as the expected time fits 31 bits |
| ConnectionState.RunKeepsInv | src/ice/ice_connection.cpp:305-368 | over every run under a clock that does not run backwards: unanswered pings are in order and sent since the last response; unreliable means 5 s and timed out means 15 s since the first of them, and five of them once there was a response |
| ConnectionState.UpdateOutcome | src/ice/ice_connection.cpp:343-368 | the write state an update leaves behind, in terms of the unanswered pings alone; with a round trip of 50 ms or more a writable connection goes straight to timed out |
| ConnectionState.LeavingWritable | src/ice/ice_connection.cpp:351-359 | only an update ends WRITABLE, after at least 5 unanswered pings, all sent since the last response, the first more than 5 s ago |
| ConnectionState.EnteringTimeout | src/ice/ice_connection.cpp:360-366 | only an update leads to WRITE_TIMEOUT, more than 15 s after the last response |
| ConnectionState.BecomingWritable | src/ice/ice_connection.cpp:129-146 | only a response leads to WRITABLE, and every response does |
| ConnectionState.SilenceIsMonotone | src/ice/ice_connection.cpp:343-368 | over any run without a response nothing becomes writable, the write state only gets worse and the unanswered pings only grow |
| ConnectionState.SilenceTimesOut | src/ice/ice_connection.cpp:343-368 | one update more than 60 s after the fifth unanswered ping finds or leaves the connection timed out |
| ConnectionState.ReceivingMeans | src/ice/ice_connection.cpp:92-117 | after an update receiving means: answered since the last ping, or a response less than 2500 ms old |
| ConnectionStories.NewConnectionSmooths | src/ice/ice_connection.cpp:129-138 | over every run the round trip is the moving average with ratio 3 over the answers, the first taken as it is, and 3000 ms before any |
| ConnectionStories.RunRemembers | src/ice/ice_connection.cpp:305-320 | over every run the unanswered pings, the counter, the last times and the state are those of the events |
| ConnectionStories.EachHasItsStory | src/ice/ice_transport_channel.cpp:186-215 | over every run of a channel without a fault each connection is what its own events make of it, so the theorems on single connections hold of it |
| ConnectionStories.RoundTripsOfChannel | src/ice/ice_connection.cpp:129-138 | in every such run of a new channel a connection's round trip is the average over its answers since it was made |
| ConnectionStories.CredentialsGiven | src/ice/ice_connection.cpp:284-289 | new credentials give their password to exactly the connections of that user that have none |
| ConnectionRank.PriorityMatchesStandard | src/ice/ice_connection.cpp:224-234 | the 64-bit pair priority is the standard's exactly if both candidate priorities are below 2^31 |
| ConnectionRank.PriorityIsLexicographic | src/ice/ice_connection.cpp:224-234 | below 2^31 it orders pairs by smaller priority, larger priority, then side, and is injective |
| ConnectionRank.PriorityWraps | src/ice/ice_connection.cpp:228-234 | from 2^31 on pairs collide and a higher candidate priority can rank lower |
| ConnectionRank.HostAndPrflxStayInRange | src/ice/candidate.cpp:29-34 | host and peer-reflexive candidates stay below 2^31 for every local preference |
| ConnectionRank.BetterIsLexicographic | src/ice/ice_controller.cpp:125-151 | the comparison is by write state, receiving, priority and round trip, in this order |
| ConnectionRank.BetterIsStrictWeakOrder | src/ice/ice_controller.cpp:161-168 | irreflexive, transitive, with transitive incomparability: what a stable sort needs |
| ConnectionRank.StableSortIsStable | src/ice/ice_controller.cpp:161-168 | sorting yields a permutation in order that keeps the order of incomparable connections |
| ConnectionRank.StableSortUnique | src/ice/ice_controller.cpp:161-168 | a result is a stable sort exactly if it is the computed one, so any library's sort is meant |
| ConnectionRank.SortIsIdempotent | src/ice/ice_controller.cpp:161-168 | sorting again changes nothing |
| ChannelState.PickUnique | src/ice/ice_controller.cpp:77-86 | the outcome of the walk over the unpinged set is determined: the least recently pinged, lowest address first |
| ChannelTheorems.ResortKeepsCore | src/ice/ice_transport_channel.cpp:165-169 | a re-sort keeps the containers, the partition of the ping sets and the agreement of both selections, and makes the flags true of the connections |
| ChannelTheorems.UpdateConnectionsKeeps | src/ice/ice_transport_channel.cpp:186-192 | the periodic pass keeps all that, though its signals re-sort the vector while a copy is walked |
| ChannelTheorems.TickKeeps | src/ice/ice_transport_channel.cpp:195-210 | a timer tick keeps all that |
| ChannelTheorems.ResponseKeeps | src/ice/ice_connection.cpp:129-146 | the answer to a ping keeps all that |
| ChannelTheorems.AddKeeps | src/ice/ice_transport_channel.cpp:101-133 | a new connection keeps the invariant and restores the flags |
| ChannelTheorems.RemoteParamsKeeps | src/ice/ice_transport_channel.cpp:83-92 | new remote credentials keep the invariant and restore the flags |
| ChannelRuns.DestroyOther | src/ice/ice_transport_channel.cpp:221-237 | destroying a connection that is not selected keeps the invariant |
| ChannelRuns.WithoutKeepsPlaces | src/ice/ice_controller.cpp:203-208 | the connections behind the one that goes keep their places |
| ChannelRuns.DestroySelected | src/ice/ice_transport_channel.cpp:143-163 | destroying the selected one faults while INFO messages are formatted; with INFO off it keeps the invariant exactly if a ready connection that is 10 ms faster takes over, and otherwise the controller's selection dangles |
| ChannelHistory.UpdatesBare | src/ice/ice_transport_channel.cpp:186-192 | the periodic pass updates each connection exactly once, whatever it re-sorts in between |
| ChannelHistory.TickBare | src/ice/ice_transport_channel.cpp:195-210 | a tick updates every connection and then pings the one it picks, nothing else |
| ChannelHistory.StepKeepsInvIff | src/ice/ice_transport_channel.cpp:221-237 | an event keeps the whole invariant exactly if it spares the selected connection, or INFO is off and that connection hands over |
| ChannelHistory.NewChannelInv | src/ice/ice_transport_channel.cpp:21-31 | a new channel meets the invariant, so it holds from the start of every run |
| ChannelHistory.RunKeepsInvIff | src/ice/ice_transport_channel.cpp:270-283 | over every run: writable means the selected connection is, receiving means some connection is, both selections agree and alone carry the flag, the ping sets partition the connections, every connection's history fits its state - exactly if every event is safe in this sense |
| ChannelHistory.LoggedRunKeepsInvIff | src/ice/ice_transport_channel.cpp:143-163 | with INFO messages formatted the invariant survives a run exactly if no selected connection is destroyed; otherwise the run ends in a fault |
| ChannelWitnesses.DestructionDangles | src/ice/ice_transport_channel.cpp:221-237 | a run of a new channel - credentials, a connection, a ping, its answer, its destruction - that faults with INFO on and leaves a dangling selection with INFO off |
| ChannelScheduling.PingsAreSpaced | src/ice/ice_transport_channel.cpp:195-215 | over every run under a clock that does not run backwards each ping comes at least its interval less 5 ms after the one before: 43 ms, or 475 ms in the strong interval |
| ChannelScheduling.PingRate | src/ice/ice_transport_channel.cpp:195-215 | pings i and j are at least 43 (j - i) ms apart, so a window of T ms holds at most 1 + T / 43 |
| ChannelScheduling.TickPicksOldest | src/ice/ice_controller.cpp:61-87 | with nothing selected a tick pings as soon as 43 ms have passed, and pings the connection whose turn it is |
| ChannelScheduling.PingTurnsQueue | src/ice/ice_controller.cpp:89-105 | such a ping sends the first connection in turn to the back and leaves the others' order |
| ChannelScheduling.RoundRobin | src/ice/ice_controller.cpp:61-105 | with nothing selected ping number k of a run goes to connection k modulo n of a fixed order |
| ChannelScheduling.EveryRoundIsFair | src/ice/ice_controller.cpp:61-105 | so any n consecutive pings go to the n connections, once each |
| ChannelScheduling.StrongChannelPingsRarely | src/ice/ice_controller.cpp:107-123 | while the selection is writable and receiving no connection with three pings is pinged again within 900 ms, no stable one within 2500 ms |
| ChannelScheduling.SelectionIsKeptAlive | src/ice/ice_controller.cpp:41-65 | a writable selection is pinged at the next tick once 2500 ms passed since its last ping and 475 ms since the channel's |
| ChannelTurns.TickChoice | src/ice/ice_controller.cpp:41-122 | every tick, selection or not: the interval, and whom it pings - nobody before the interval is over, then the selection if due, else the one that wants a ping and had none for longest |
| ChannelTurns.TickSets | src/ice/ice_controller.cpp:66-76 | what a tick leaves of the two ping sets |
| ChannelTurns.TimerStarts | src/ice/ice_transport_channel.cpp:171-184 | the timer starts with the first re-sort after which some connection may be pinged |
| ChannelTurns.NobodyStarves | src/ice/ice_controller.cpp:60-87 | over every run behind a selection that stays, under the channel's own timer: each connection is pinged within 2n + 4 turns of 528 ms and twice the lateness once 2500 ms have passed |
| ChannelSelection.SelectionSettles | src/ice/ice_controller.cpp:159-190 | once the requested switch is made, sorting again moves nothing and requests nothing |
| ChannelSelection.ResortIsIdempotent | src/ice/ice_transport_channel.cpp:165-169 | re-sorting twice is re-sorting once, flags, selection and timer included |
| ChannelSelection.TopIsBest | src/ice/ice_controller.cpp:161-168 | no connection is better than the first of the sorted vector |
| ChannelSelection.SwitchDecided | src/ice/ice_controller.cpp:174-190 | when a switch is asked for, and to which connection |
| ChannelSelection.NewcomerIsBehind | src/ice/ice_controller.cpp:36-39 | a new connection comes behind every other that it does not beat |
| ChannelSelection.AddSets | src/ice/ice_controller.cpp:36-39 | a new connection is among the unpinged ones, whatever the re-sort does |
| ChannelSelection.SelectionOutcome | src/ice/ice_controller.cpp:173-189 | the selection after a re-sort, from the state before it |
| ChannelSelection.WritableUnlessKept | src/ice/ice_controller.cpp:184-189 | with a writable connection at hand the channel is not writable exactly if a selection that is not writable is within 10 ms of the best round trip |
| ChannelSelection.UnselectedMeansNoneReady | src/ice/ice_controller.cpp:173-182 | nothing is selected after a re-sort exactly if nothing was and nothing can send |
| ChannelSilence.RunSettles | src/ice/ice_controller.cpp:173-182 | over every run that keeps the invariant, nothing is selected only while no connection can send |
| ChannelSilence.StepKeepsSelection | src/ice/ice_controller.cpp:184-189 | as long as nobody answers and it is not destroyed, a selection that no ready connection undercuts by 10 ms stays, dead or alive |
| ChannelSilence.AnswerKeepsSelection | src/ice/ice_controller.cpp:184-189 | an answer from another connection leaves such a selection too, if it does not undercut |
| ChannelSilence.SilentSelectionGoesDown | src/ice/ice_transport_channel.cpp:186-215 | with ticks at most T ms apart, a channel whose selection stays but no longer answers is not writable after 5 (2975 + T) ms, the patience of 5 s or 60 s, and one more T |
| ChannelSilence.UnrivalledStays | src/ice/ice_controller.cpp:184-189 | over every run without answers an unrivalled selection stays selected |
| ChannelSilence.UnansweredChannelGoesDown | src/ice/ice_transport_channel.cpp:186-215 | so the bound holds for every run without answers from such a state |
| ChannelWitnesses.TimedOutSelectionIsKept | src/ice/ice_controller.cpp:184-189 | a run of twelve events from a new channel that ends, with the whole invariant intact, in a timed-out selection beside a writable connection, and a channel that is not writable |
| IceConnections.IceConnection.Ping | src/ice/ice_connection.cpp:305-314 | the object after a ping: time, counter, state and the new unanswered ping |
| IceConnections.IceConnection.UpdateReceiving | src/ice/ice_connection.cpp:101-117 | the object's receive state, and a signal exactly if it changed |
| IceConnections.IceConnection.SetWriteState | src/ice/ice_connection.cpp:119-127 | the object's write state, and a signal exactly if it changed |
| IceConnections.IceConnection.NoteResponse | src/ice/ice_connection.cpp:129-142 | round trip, samples, time of response and the cleared ping history |
| IceConnections.IceConnection.Degrade | src/ice/ice_connection.cpp:343-359 | a writable object becomes unreliable as the value does, with a signal exactly then |
| IceConnections.IceConnection.Expire | src/ice/ice_connection.cpp:360-366 | an unreliable or new object times out as the value does, with a signal exactly then |
| IceConnections.IceConnection.MaybeSetRemoteParams | src/ice/ice_connection.cpp:284-289 | the password is taken over exactly if the user matches and none is set |
| IceControllers.IceController.HasPingableConnection | src/ice/ice_controller.cpp:13-21 | the loop finds a pingable connection exactly if there is one |
| IceControllers.IceController.SelectedConnectionToPing | src/ice/ice_controller.cpp:41-58 | the loop and the interval test give the interval and the pick of the scheduler, and leave its sets so |
| IceControllers.IceController.FindNextPingable | src/ice/ice_controller.cpp:61-87 | the selected connection if it is due, else both sets merged and the pick of the walk |
| IceControllers.IceController.LeastRecentlyPinged | src/ice/ice_controller.cpp:77-86 | the walk in address order returns the least recently pinged pingable connection |
| IceControllers.IceController.SortAndSwitch | src/ice/ice_controller.cpp:159-190 | the vector is stably sorted and the switch target judged on it |
| IceControllers.IceController.MarkConnectionPinged | src/ice/ice_controller.cpp:192-196 | the connection moves from the unpinged to the pinged set, once |
| IceControllers.IceController.OnConnectionDestroyed | src/ice/ice_controller.cpp:199-209 | the connection leaves both sets and the vector |
| IceTransportChannels.IceTransportChannel.SwitchSelectedConnection | src/ice/ice_transport_channel.cpp:143-163 | flags and both selections after a switch; without a connection only the channel's selection goes, and a null pointer is followed if there was one and INFO messages are formatted |
| IceTransportChannels.IceTransportChannel.UpdateState | src/ice/ice_transport_channel.cpp:270-283 | the two flags say what the selected connection and the loop over all connections say |
| IceTransportChannels.IceTransportChannel.SortConnectionsAndUpdateState | src/ice/ice_transport_channel.cpp:165-184 | the object re-sorts, switches, summarises and starts the timer as the value does |
| IceTransportChannels.IceTransportChannel.UpdateConnectionState | src/ice/ice_transport_channel.cpp:186-192 | the loop over a copy of the vector updates all connections as the recursive pass does |
| IceTransportChannels.IceTransportChannel.ReceivedPingResponse | src/ice/ice_connection.cpp:129-146 | the channel after an answer, both signals included |
| IceTransportChannels.IceTransportChannel.OnCheckAndPing | src/ice/ice_transport_channel.cpp:195-215 | the channel after a tick: updates, pick, ping, mark and timer |
| IceTransportChannels.IceTransportChannel.AddConnection | src/ice/ice_transport_channel.cpp:243-249 | the channel with a new connection, sorted and summarised |
| IceTransportChannels.IceTransportChannel.SetRemoteIceParams | src/ice/ice_transport_channel.cpp:83-92 | the loop gives the credentials to the connections that lack them, then the channel re-sorts |
| IceTransportChannels.IceTransportChannel.OnConnectionDestroyed | src/ice/ice_transport_channel.cpp:221-237 | the channel after a connection is gone, faults included; it stays usable exactly if no pointer to it is left and none was followed that leads nowhere |
| QueueSteps.RunKeepsInv | src/base/lock_free_queue.h:42-63 | over every interleaving the allocated nodes, the three pointers, the size and what each thread knows fit together, and no access faults |
| QueueTheorems.FifoAlways | src/base/lock_free_queue.h:42-63 | in every interleaving from a new queue: no fault, and values consumed, then values linked behind the divider, are the values produced in order |
| QueueTheorems.StepRefinesQueue | src/base/lock_free_queue.h:42-63 | each atomic step is a step of a plain queue or leaves its content alone; consume fails exactly on an empty one |
| QueueTheorems.SizeInFlight | src/base/lock_free_queue.h:45-70 | the counter is the number of visible values less an increment and plus a decrement still to come; exact with both threads idle |
| QueueTheorems.EmptyExact | src/base/lock_free_queue.h:65-67 | empty tells the truth exactly outside two named windows |
| QueueTheorems.SizeCanBeNegative | src/base/lock_free_queue.h:45-58 | an interleaving after which the size of an empty queue is -1 |
| QueueTheorems.OneChain | src/base/lock_free_queue.h:21-23 | the allocated nodes are one acyclic chain over first, divider and last, but for one about to be deleted |
| QueueTheorems.DeletesOnlyBehindDivider | src/base/lock_free_queue.h:47-51 | what the producer deletes is allocated and out of the consumer's reach, which the deletion leaves unchanged |
| QueueTheorems.ReclaimEnds | src/base/lock_free_queue.h:47-51 | the reclaim loop ends under every interleaving with nothing left before the divider |
| LockFreeQueue.LockFreeQueue.Produce | src/base/lock_free_queue.h:42-52 | with the consumer running freely in between, the value is appended and everything before the divider is deleted |
| LockFreeQueue.LockFreeQueue.Reclaim | src/base/lock_free_queue.h:47-51 | the loop ends with first at the divider |
| LockFreeQueue.LockFreeQueue.Consume | src/base/lock_free_queue.h:54-63 | wherever the producer stands: none exactly if nothing is visible, else the first visible value, which is then gone |
| LockFreeQueue.LockFreeQueue.Destroy | src/base/lock_free_queue.h:32-40 | the destructor's loop deletes every node once and ends |
| Framing.LoopsForEver | src/server/signaling_worker.cpp:202-240 | the framing loop is endless exactly if it has any number of rounds |
| Framing.EndlessRounds | src/server/signaling_worker.cpp:224-237 | an endless loop calls the handler again in every round |
| Framing.SplittingDoesNotMatter | src/server/signaling_worker.cpp:168-240 | however the bytes are split into reads of at most the expected length, the outcome is that of the bytes as a whole; after a request without a body the next read closes |
| Framing.HandlerRunsOnce | src/server/signaling_worker.cpp:202-240 | the handler runs exactly once, on bytes 0 to 36 and the announced body, exactly if a written header and the body it announces come first, and it is rejected or fewer than 65535 plus body length bytes arrive |
| Framing.HeaderRead | src/base/ghead.h:6-17 | a stream is read as announcing a length exactly if it begins with the header that is written for that length |
| Framing.WrittenRequestIsHandled | src/server/signaling_worker.cpp:224-237 | for every body and every split into reads, a written request reaches the handler whole, once; or the loop is endless if it is accepted and 65499 bytes or more follow |
| Framing.IncompleteRequestWaits | src/server/signaling_worker.cpp:202-204 | as long as a written request is not complete the connection stays open and nothing is handled |
| Framing.OnlyWrittenRequestsAreHandled | src/server/signaling_worker.cpp:224-237 | what the handler is called with stands at the beginning of what came, its header announcing its body |
| Framing.AcceptedRequestFloods | src/server/signaling_worker.cpp:178-183 | every accepted request with a body can be continued, by reads of no more than is asked for, to a stream on which the loop is endless |
| Framing.EndlessIsReached | src/server/signaling_worker.cpp:229-237 | such a stream for a concrete header and one byte of body |
| TcpConnections.TcpConnection.ProcessQueryBuffer | src/server/signaling_worker.cpp:202-240 | the loop over the object's fields does what the recursive loop does and ends where that ends; where that is endless it has any number of rounds |
| TcpConnections.TcpConnection.ProcessOnce | src/server/signaling_worker.cpp:203-238 | one round of the loop on the object: state, handler call and whether the connection stays open |
| TcpConnections.TcpConnection.ReadQuery | src/server/signaling_worker.cpp:168-200 | a read event takes no more than the expected bytes and frames them, or closes the connection; an endless loop shows by not ending in three rounds |
| Replies.OfferConserves | src/server/signaling_worker.cpp:396-414 | no answer of the kernel loses, doubles or reorders a byte |
| Replies.OfferTakes | src/server/signaling_worker.cpp:396-414 | one round offers the rest of the front reply, and exactly what the kernel says it took of that goes from what waits to what is sent |
| Replies.WriteReplyConserves | src/server/signaling_worker.cpp:388-422 | nor does the loop; it ends with an empty list, position 0 and the watch off, or closed, or waiting |
| Replies.WriteReplyFinishes | src/server/signaling_worker.cpp:396-422 | it ends normally once the kernel took something as often as there are bytes waiting |
| Replies.WriteReplyClosesIff | src/server/signaling_worker.cpp:396-414 | the connection is closed exactly if some answer is an error and the ones before it are none and leave something to send |
| Replies.RunConserves | src/server/signaling_worker.cpp:123-126 | over every run the bytes sent, then those waiting, are all replies in the order added; a closed connection sent a beginning of them |
| TcpConnections.TcpConnection.AddReply | src/server/signaling_worker.cpp:123-126 | the object's list grows and the watch is on |
| TcpConnections.TcpConnection.WriteReply | src/server/signaling_worker.cpp:388-422 | the loop over the object's fields does what the recursive one does |
| UdpQueue.FlushOutcome | src/base/async_udp_socket.cpp:30-56 | a flush sends a beginning of the queue and keeps the rest, less one datagram if the kernel failed on it; how far it gets and how it ends is told by the first answer that is not positive |
| UdpQueue.FlushFailsIff | src/base/async_udp_socket.cpp:30-56 | a flush fails exactly if the first answer that is not positive is negative |
| UdpQueue.SubmitKeepsInv | src/base/async_udp_socket.cpp:93-142 | a new datagram finds exactly one place and keeps the order |
| UdpQueue.SendDataKeepsInv | src/base/async_udp_socket.cpp:30-59 | the WRITE event keeps the order and takes the watch off only with an empty queue |
| UdpQueue.SubmitResult | src/base/async_udp_socket.cpp:93-142 | the result is -1 exactly if the new datagram was given up |
| UdpQueue.EachInOnePlace | src/base/async_udp_socket.cpp:30-142 | over every run and kernel: each datagram is sent, queued or given up, in one place only; sent and queued ones are in order; a queue that is not empty is watched |
| UdpQueue.WillingKernelEmpties | src/base/async_udp_socket.cpp:30-59 | a kernel that takes everything gets the whole queue in order at the next event |
| UdpOffers.WriteDecided | src/base/async_udp_socket.cpp:30-59 | the socket after a WRITE event, from the kernel's answers alone |
| UdpOffers.SubmitDecided | src/base/async_udp_socket.cpp:93-142 | the socket and the result after a submission, from the kernel's answers alone: sent is what it took, in order, and nothing else |
| UdpOffers.KernelDecides | src/base/async_udp_socket.cpp:30-142 | over every run: what is sent is exactly what the kernel took of the offers recorded for it, and it takes no datagram twice |
| UdpQueue.GivenUpUnoffered | src/base/async_udp_socket.cpp:93-111 | a new datagram is given up without an attempt of its own exactly if the kernel refuses a queued one before it; given up otherwise, it was refused itself |
| UdpQueue.RefusalDropsTwo | src/base/async_udp_socket.cpp:96-111 | whenever the kernel refuses the kth queued datagram at a submission: that one and the new one are given up, the ones before were sent, the ones behind stay |
| UdpQueue.OneErrorDropsTwo | src/base/async_udp_socket.cpp:106-111 | a run in which one error gives up two datagrams, one of them never offered |
| UdpQueue.AsyncUdpSocket.SendAll | src/base/async_udp_socket.cpp:33-55 | the loop over the object's list does what the recursive flush does |
| UdpQueue.AsyncUdpSocket.AddUdpPacket | src/base/async_udp_socket.cpp:93-142 | the object after a new datagram, result included |

## Left out

- Sockets, libev, pipes, worker threads, logging and generated files: their results are parameters.
- HMAC-SHA1, CRC-32, random ids and the moving average: any function of the right type.
- SDP, JSON, YAML, DTLS and the signalling commands: text and library calls with few deep properties.
- IPv6 in XOR-MAPPED-ADDRESS: the program does not write it; the model has that failure and nothing more.
- Addresses of other families, MAPPED-ADDRESS and attributes the program neither writes nor reads.
- LockFreeQueue.LockFreeQueue.Produce: only the consumer interferes with it; all interleavings of both threads are in the step model, where accesses are sequentially consistent.
- QueueTheorems.EmptyExact: for fewer than 2^31 - 1 visible values; beyond that the 32-bit counter itself wraps, which `SizeInFlight` states.
- ChannelRuns.DestroySelected: what the program does after it followed a null or dangling pointer is undefined; the model stands still.
- IceControllers.IceController.OnConnectionDestroyed: the program's loop goes on with an invalid iterator after its erase; the model removes the connection and stops.
- IceTransportChannels.IceTransportChannel.OnCheckAndPing: an event reads the clock once; the program reads it again for the choice and for the ping, each time no earlier.
- IceTransportChannels.IceTransportChannel.ReceivedPingResponse: a signal is a result that the channel acts on at once, not a call from inside the connection.
- Connections are known by their address, a natural number that also orders the ping sets, as pointers do.
- StunRequests.StunRequestManager.CheckResponse: an error callback that ends the connection, and the manager with it, is not part of the object; `IceAgents` has it.
- IceAgents.RunKeepsInvIff: what the program does after one of the harms is undefined, so the model stands still; a new connection gets an id that is not in use; round trips are inputs, and what is sent is stated in `AgentExchanges.PingMakesWritable` only.
- A new remote address without PRIORITY is answered with an error, as `PingExchange.Reply` says; to the channel it is no event.
- StunMessage.CheckIntegrity: where a MESSAGE-INTEGRITY header stands at the very end of the packet the program compares up to 20 bytes beyond it; the model says bad.
- ChannelTurns.NobodyStarves: while no connection comes or goes and the selection does not change; without a selection `ChannelScheduling.RoundRobin` says more.
- StunTransactions.SignedErrorArrives: the manager's part of it; what the callback does to the connection is in `AgentExchanges.SignedErrorHarms`. Both are for reasons shorter than 65000 bytes; the program's are short constants.
- Framing.HandlerRunsOnce: the handler's acceptance depends on the request only; the header is read in little-endian order, as on the usual machines; a body length of 2^31 or more, which the program narrows to an `int` when it asks for bytes, is read like any other.
- Replies.WriteReplyFinishes: replies are not empty, as each begins with a 36-byte header; an empty one would never leave the list.
- Replies.WriteReplyConserves: a kernel that goes on answering "try again" keeps the program in its loop; the model's loop waits for the next answer.
- Idle timeouts of signalling connections, and what the worker does with other notifications.
- Timers, times and counters of sent pings are unbounded integers, except where the program narrows them to 32 bits.
