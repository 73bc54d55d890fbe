# NetGuard's user-space network stack, modelled and verified

The native code under `android/app/src/main/jni/netguard` ends the phone's TCP, UDP and ICMP traffic at a tun device and
relays it over ordinary sockets. This project models that code and proves what it keeps over every run. What the operating
system decides (`send`, `recv`, `write`, `epoll`, the clock, the initial sequence number) and what the firewall allows come
in with the events, without restriction, so a theorem about "every run" covers all of their outcomes.

| file | what it holds |
|---|---|
| `Serial` | 32-bit serial arithmetic: `compare_u32` against integer order |
| `TcpModel`, `TcpShapes` | one TCP session as a value, one function per handler; what each handler leaves alone |
| `TcpStates` | the edges of the state machine, which states have a socket, and that no session reopens, whatever the packets carry |
| `TcpStream` | the server takes exactly a prefix of the application's stream |
| `TcpQueue` | the order of the queue and what `remote_seq` counts, whether or not the data agrees with any stream |
| `TcpProgress` | what does get delivered, the opening and closing exchanges, and when forwarding stops |
| `TcpPayload` | what becomes of the payload of a SYN |
| `TcpWrites`, `TcpDown` | what is written to the application: data, numbering, the send window |
| `TcpAcks` | which bytes the acknowledgements cover that the server has not taken |
| `TcpAnswers` | errors, resets, acknowledgements, windows and watching, each said of the whole step |
| `TcpRuns` | concrete runs on which a session does not do what one would expect |
| `TcpSocks`, `TcpProxy` | the SOCKS5 handshake: what must come before a SYN-ACK, and which replies lead to one |
| `TcpSession` | the session as an object whose methods update its fields and loop as the C code does; each refines its handler |
| `SessionTable`, `TableInvariants` | the table of sessions as a value, one pass over it, and what every pass keeps |
| `SessionList` | the linked list with in-place deletion; a pass refines a filter |
| `EventLoop` | runs of the event loop: descriptors, epoll's interest list, keys, the limit on sessions |
| `TableLaws` | what packets, sockets, a restart and a new round do to the table, said from the outside |
| `Timeouts` | when sessions expire and are deleted, in seconds |
| `LoopOnList` | the event loop on the linked list refines the run on the table |
| `TcpInTable` | the event loop with the relay of every TCP session inside: the table mirrors the relays on every run |
| `Bytes`, `Checksum` | the Internet checksum and the packets sealed with it |
| `DnsName`, `DnsMessage`, `DnsRoundTrip` | names and answers of DNS responses |
| `TlsSni` | the server name of a TLS ClientHello |
| `ParserInputs` | concrete inputs on which the parsers fall short |
| `UidCache` | the aging cache of socket owners |
| `FirewallRules` | the whitelist and blacklist decision |

## What turned out to be false, and exactly when it holds

- `compare_u32` is not integer order modulo 2^32 up to half the circle: `CompareExactly` gives the distances at which it
  answers as the integers do, and `CompareFailsAtTheEdge` two pairs at distance 2^31 - 1 on which it is wrong.
- An old acknowledgement can move `acked` back by almost 2^31: `CornerMovesBack` is a run to it, one byte after `local_seq`
  wrapped, and `AckAdvancesExactly` shows that it is the only combination of words.
- An acknowledgement can cover bytes that the server never took, because a FIN is counted without a look at its number.
  `EarlyFin` and `EarlyFinBehindData` are runs on which this happens; `AcksCoverExactly` shows that it happens exactly when
  the counted FIN's number is not the position, which `FinPacketCovers` turns into a test of the packet.
- Not everything that was read from the server reaches the application: the bytes of a failed write are lost.
  `ApplicationReceives` shows that what was written is a prefix of what was read, all of it if and only if no write of data
  failed, and that at most one such write fails and closes the session; `LostWrite` is a run on which it does.
- Overlapping segments do not corrupt the stream, but they can stop it: after a segment is drained, the next one lies
  behind the position if and only if the two overlap (`OverlapStalls`, `OverlapRun`), and then no byte is forwarded again
  until data is put before the head (`StalledForever`). No data within 2^30 of the position is (`NearNeverOvertakes`), but
  data almost 2^31 ahead can be (`FarSegmentRevives`). A shorter copy of a partly sent head stops the queue too, exactly
  when it is shorter than what was sent (`ShorterCopyStalls`, `ShorterCopyRun`).
- The payload of a SYN is queued one number too low. Over every run a byte of it is taken only if the session left LISTEN
  without counting the SYN (`SynPayloadTaken`), by a RST or a failed change of the watched events (`UncountedExactly`); then
  the next writable event delivers it (`UncountedDelivers`, with the run `SynPayloadDelivered`). From then on nothing but the
  payload is taken if and only if no queued segment is numbered as its end (`PayloadOnlyExactly`); such a segment goes out
  one byte too early, so that the last byte of the payload is taken twice (`OneTooEarly`, with the run `SynPayloadRepeats`).
- `get_qname` returns a spelled name if and only if it has at most 26 labels and pointers and between 1 and 255 bytes
  with its dots (`DecodesExactly`; the offset into the buffer has eight bits), and returns the offset past the name if and
  only if the name is uncompressed or starts with its pointer (`NextExactly`). `TooManyLabels` and `LabelBeforePointer` are
  names for which it does not. It also follows as pointers the lengths that RFC 1035 reserves (`ReservedIsPointer`).
- `parse_sni` finds an encoded name if and only if another extension follows and the name has fewer than 255 bytes
  (`FindsName`), as long as everything before the extension data fits in 255 bytes; `LastExtension` is a ClientHello without
  another extension.
- `write_udp` stores a checksum of zero, which RFC 768 reserves for "none", exactly when the sum over pseudo-header, header
  and data is a positive multiple of 2^16 - 1 (`WriteUdp`); `ZeroChecksumDatagram` is such a datagram.

## Model

| member | source | states |
|---|---|---|
| Serial.CompareRefinesIntegerOrder | android/app/src/main/jni/netguard/util.c:43-55 | comparing two truncated integers less than 2^31 - 1 apart gives the sign of their true difference, across any wrap-around |
| Serial.CompareExactly | android/app/src/main/jni/netguard/util.c:43-55 | for all integers less than 2^32 apart, the comparison agrees with integer order if and only if the distance is within the bound for its direction and wrapping |
| Serial.CompareFailsAtTheEdge | android/app/src/main/jni/netguard/util.c:50-51 | two pairs at distance 2^31 - 1 for which the answer is the wrong one |
| Serial.CompareByDistance | android/app/src/main/jni/netguard/util.c:43-55 | comparing two words is comparing their signed distances to any common base near both |
| TcpStream.QueueInsertShape | android/app/src/main/jni/netguard/tcp.c:1013-1061 | the recursive walk over the queue changes at most one place: one insertion, or one replacement of data of another length at the same number |
| TcpStream.PlaceByOffset | android/app/src/main/jni/netguard/tcp.c:1013-1020 | that place is the one the segment's true stream offset determines: everything before lies below it, everything after beyond it |
| TcpStream.QueueInsertKeeps | android/app/src/main/jni/netguard/tcp.c:1003-1062 | queueing data that agrees with the stream keeps the queue strictly increasing in true offset, every entry a slice of the stream, and only a head at the position partly sent |
| TcpStream.QueueTcpKeeps | android/app/src/main/jni/netguard/tcp.c:1003-1062 | the same for a packet that may also lie wholly behind the position, with the unbounded position unchanged |
| TcpStream.TakeKeeps | android/app/src/main/jni/netguard/tcp.c:484-519 | a full or partial send of the head hands over the next bytes of the stream and keeps the queue and position invariant |
| TcpStream.ForwardKeeps | android/app/src/main/jni/netguard/tcp.c:472-520 | for every buffer and every pattern of sends, the forwarding loop keeps the stream invariant and hands over as many bytes as it reports |
| TcpStream.NewSessionInv | android/app/src/main/jni/netguard/tcp.c:741-816 | a SYN without payload opens a session that satisfies the invariant for any stream |
| TcpStream.StepKeeps | android/app/src/main/jni/netguard/tcp.c:54-1062 | every event of every handler that agrees with the stream keeps the whole session invariant, and never takes back what the server has taken |
| TcpStream.RunKeeps | android/app/src/main/jni/netguard/tcp.c:54-1062 | the same over every run |
| TcpStream.ServerTakesPrefix | android/app/src/main/jni/netguard/tcp.c:472-1062 | over every run from a SYN, with segments reordered, repeated or overlapping and sends cut short anywhere, the bytes given to the server are exactly a prefix of the application's stream |
| TcpQueue.QueueInOrder | android/app/src/main/jni/netguard/tcp.c:1003-1062 | over every run from any SYN, with payload or conflicting copies, the queue is strictly increasing in true offset and only the head at the position is partly sent |
| TcpQueue.StepOrdered | android/app/src/main/jni/netguard/tcp.c:54-1062 | every event of every handler keeps the order of the queue and the count |
| TcpQueue.Accounting | android/app/src/main/jni/netguard/tcp.c:461-922 | over every run from any SYN, remote_seq less the SYN's number counts all drained bytes, the SYN by state, and the FIN at most once and only with an empty queue, whatever the data |
| TcpProgress.ForwardDrainsChain | android/app/src/main/jni/netguard/tcp.c:472-520 | one writable event with room and complete sends drains every segment of a gapless chain |
| TcpProgress.OverlapStalls | android/app/src/main/jni/netguard/tcp.c:475-513 | after the head is drained the next segment lies behind the position if and only if the two overlapped |
| TcpRuns.OverlapRun | android/app/src/main/jni/netguard/tcp.c:475-513 | a run: two segments overlap by one byte, the first is taken and the second lies behind the position |
| TcpProgress.StalledForever | android/app/src/main/jni/netguard/tcp.c:475-477 | once the head is not next in line, no run hands over another byte until data is put before the head, which is an exact test of the packet |
| TcpProgress.NearNeverOvertakes | android/app/src/main/jni/netguard/tcp.c:1013-1035 | no data within 2^30 of the position is put before a head that is next in line or behind |
| TcpRuns.FarSegmentRevives | android/app/src/main/jni/netguard/tcp.c:1013-1035 | a run: after the stall, a segment almost 2^31 ahead is put before the head, then the next in line before that, and is taken |
| TcpProgress.MovesExactly | android/app/src/main/jni/netguard/tcp.c:475-477 | a queue can move, for some buffer and sends, if and only if its head is next in line and no more of it was sent than it holds |
| TcpProgress.ShorterCopyStalls | android/app/src/main/jni/netguard/tcp.c:1050-1059 | a copy of a partly sent head leaves the queue able to move if and only if it is no shorter than what was sent |
| TcpRuns.ShorterCopyRun | android/app/src/main/jni/netguard/tcp.c:1050-1059 | a run: two of three bytes are sent, a copy with one byte replaces the head, and no buffer or send moves it |
| TcpPayload.UncountedExactly | android/app/src/main/jni/netguard/tcp.c:861-899 | a session leaves LISTEN without counting the SYN if and only if an allowed RST arrives or a needed change of the watched events fails |
| TcpPayload.SynPayloadTaken | android/app/src/main/jni/netguard/tcp.c:777-787 | over every run from a SYN with payload in which no data is put before the head, with or without a proxy, a byte is taken only if the session left LISTEN uncounted |
| TcpPayload.UncountedDelivers | android/app/src/main/jni/netguard/tcp.c:475-513 | whenever it leaves LISTEN uncounted, the next writable event with room hands over what is queued first |
| TcpRuns.SynPayloadDelivered | android/app/src/main/jni/netguard/tcp.c:777-787 | a run: SYN with payload, RST, writable socket; exactly the payload is taken |
| TcpPayload.PayloadOnlyExactly | android/app/src/main/jni/netguard/tcp.c:475-513 | after leaving LISTEN uncounted, no run takes anything but the first queued segment if and only if no second one is numbered as its end |
| TcpPayload.PayloadRepeats | android/app/src/main/jni/netguard/tcp.c:475-513 | when a second one is, the next writable event with room takes both |
| TcpPayload.OneTooEarly | android/app/src/main/jni/netguard/tcp.c:777-787 | if both agree with the stream, the second begins with the last byte of the payload, which is then taken twice |
| TcpRuns.SynPayloadRepeats | android/app/src/main/jni/netguard/tcp.c:777-787 | a run with the stream [a, b] on which the server takes [a, a, b] |
| TcpPayload.AnySynTakesPrefix | android/app/src/main/jni/netguard/tcp.c:472-1062 | with any SYN the server takes a prefix of the stream; for a SYN with payload, when its copies agree and the session does not leave LISTEN uncounted with a segment that continues the payload, whether or not the payload is taken |
| TcpProgress.Opens | android/app/src/main/jni/netguard/tcp.c:308-320 | without a proxy, connecting writes one SYN-ACK with the right numbers, and its acknowledgement establishes the session |
| TcpProgress.DeliversInOrder | android/app/src/main/jni/netguard/tcp.c:472-550 | a segment in order and a writable event with room: the server takes all of it, the position moves by its length, and one acknowledgement of the new position is written |
| TcpProgress.ClosesServerFirst | android/app/src/main/jni/netguard/tcp.c:571-595 | end of file, then the application's FIN, ends in CLOSE |
| TcpProgress.ClosesApplicationFirst | android/app/src/main/jni/netguard/tcp.c:906-945 | FIN, end of file, last acknowledgement and the next check end in CLOSE |
| TcpStates.StepEdge | android/app/src/main/jni/netguard/tcp.c:861-945 | every event moves the state along one of the listed edges, keeps which states have a socket and an empty queue, and never reopens the socket, whatever the packet carries |
| TcpStates.EdgeRaisesRank | android/app/src/main/jni/netguard/tcp.c:571-595 | every edge keeps the state or raises the rank LISTEN < SYN_RECV < ESTABLISHED < CLOSE_WAIT, FIN_WAIT1 < LAST_ACK < CLOSING < CLOSE |
| TcpStates.RunNeverGoesBack | android/app/src/main/jni/netguard/tcp.c:54-113 | over every run the state stays or its rank rises, for every session and every packet |
| TcpStates.NoSessionReopens | android/app/src/main/jni/netguard/tcp.c:54-1062 | between any two moments of any run from any SYN, with payload or not, the state is the same or its rank has risen |
| TcpStates.SocketsByState | android/app/src/main/jni/netguard/tcp.c:571-595 | over every run from any SYN, FIN_WAIT1 and LAST_ACK have no socket and an empty queue, CLOSE has no socket, and the states up to CLOSE_WAIT have one |
| TcpWrites.StepWrites | android/app/src/main/jni/netguard/tcp.c:1138-1181 | every event writes only control packets that acknowledge the position it ends at or one before, and at most one data packet; SYN and proxy traffic only while opening |
| TcpDown.AcceptedExactly | android/app/src/main/jni/netguard/tcp.c:951-985 | the two comparisons accept exactly the acknowledgements strictly between acked and local_seq, and one corner case |
| TcpRuns.CornerMovesBack | android/app/src/main/jni/netguard/tcp.c:966-978 | a run from a SYN to the corner case: an old acknowledgement moves acked back by almost 2^31 |
| TcpDown.AckAdvancesExactly | android/app/src/main/jni/netguard/tcp.c:928-985 | a plain acknowledgement moves acked forward, and not past local_seq, if and only if it is not the corner case |
| TcpDown.SendWindowExactly | android/app/src/main/jni/netguard/tcp.c:167-181 | the window left is the announced one less bytes in flight and headers, with 64 KiB too many subtracted in the wrap branch, and never below zero |
| TcpDown.WindowBound | android/app/src/main/jni/netguard/tcp.c:744-751 | a shift of at most 14 announces at most 0x3FFFC000 |
| TcpDown.ReadServerWindow | android/app/src/main/jni/netguard/tcp.c:552-628 | every write of data or FIN leaves the bytes in flight within the window last announced |
| TcpDown.StepWindow | android/app/src/main/jni/netguard/tcp.c:928-985 | one event: bytes in flight stay bounded, acked only advances, and sending stays within the window |
| TcpDown.InFlightBounded | android/app/src/main/jni/netguard/tcp.c:608-612 | over every run with shift at most 14 and outside the corner case, no more than 0x3FFFC000 bytes are in flight, so no acknowledgement is ambiguous |
| TcpDown.EveryStepInWindow | android/app/src/main/jni/netguard/tcp.c:556-563 | after every such run, the next event advances acked or leaves it, never past what was sent, and sends only within the window the peer last announced |
| TcpDown.StepDown | android/app/src/main/jni/netguard/tcp.c:597-612 | one event writes exactly what it reads from the server, with the right number, or loses that read and closes |
| TcpDown.ApplicationReceives | android/app/src/main/jni/netguard/tcp.c:597-612 | over every run the data written with success is a prefix of what was read, all of it if and only if no write of data failed; at most one fails, the last, and the session is then closing or closed; each data packet is numbered by its first byte |
| TcpRuns.LostWrite | android/app/src/main/jni/netguard/tcp.c:597-612 | a run: a byte is read, its write fails, nothing was written and the session is closing |
| TcpAcks.AcksCoverExactly | android/app/src/main/jni/netguard/tcp.c:906-922 | after every agreeing run, an acknowledgement names the position or one before, and covers a byte the server has not taken if and only if the FIN is counted and its number is not the position where it was counted |
| TcpAcks.FinPacketCovers | android/app/src/main/jni/netguard/tcp.c:906-913 | for a FIN counted at once: its acknowledgement covers an untaken byte if and only if its number is not remote_seq |
| TcpRuns.EarlyFin | android/app/src/main/jni/netguard/tcp.c:906-913 | a run: only the FIN of a hundred bytes arrives, and its acknowledgement covers the first byte |
| TcpRuns.EarlyFinBehindData | android/app/src/main/jni/netguard/tcp.c:543-547 | a run: a FIN behind a gap is counted when the queue is drained, and its acknowledgement covers the first missing byte |
| TcpAnswers.SocketErrorResets | android/app/src/main/jni/netguard/tcp.c:264-278 | an error on the socket closes every open session with exactly one packet, a reset that in LISTEN acknowledges the SYN, and sets the time |
| TcpAnswers.SendErrorResets | android/app/src/main/jni/netguard/tcp.c:490-499 | a send that fails for good does too, and the queue is as it was |
| TcpAnswers.ReceiveErrorResets | android/app/src/main/jni/netguard/tcp.c:565-570 | so does a read from the server that fails |
| TcpAnswers.EndWithDataResets | android/app/src/main/jni/netguard/tcp.c:571-595 | the end of the server's stream while data is queued for it resets the session and closes the socket |
| TcpAnswers.ProxySendErrorResets | android/app/src/main/jni/netguard/tcp.c:395-458 | so does a message to the proxy that cannot be sent |
| TcpAnswers.ProxyReceiveErrorResets | android/app/src/main/jni/netguard/tcp.c:323-330 | so does a read from the proxy that fails |
| TcpAnswers.FailedWriteCloses | android/app/src/main/jni/netguard/tcp.c:1138-1169 | whatever write to the application fails in any event, the session is closing after it |
| TcpAnswers.PacketReset | android/app/src/main/jni/netguard/tcp.c:855-891 | a packet that is not allowed, for a closing or closed session, or with data that is no longer taken is answered with a reset and queues nothing |
| TcpAnswers.RstCloses | android/app/src/main/jni/netguard/tcp.c:893-899 | an allowed RST closes every open session without a write |
| TcpAnswers.FutureAckResets | android/app/src/main/jni/netguard/tcp.c:981-985 | an acknowledgement of what was not sent yet is answered with a reset |
| TcpAnswers.UrgentIgnored | android/app/src/main/jni/netguard/tcp.c:704-706 | urgent packets change nothing |
| TcpAnswers.PacketIgnored | android/app/src/main/jni/netguard/tcp.c:901-927 | a repeated SYN, a FIN where none is expected and a packet without flags change neither state nor queue, and nothing is written |
| TcpAnswers.OldAckIgnored | android/app/src/main/jni/netguard/tcp.c:951-974 | nor do keep-alives of the application and repeated acknowledgements |
| TcpAnswers.PacketHeard | android/app/src/main/jni/netguard/tcp.c:872-875 | every packet an open session hears sets the window to the field times a power of two, confirms, and sets the time unless it is a SYN |
| TcpAnswers.AckTaken | android/app/src/main/jni/netguard/tcp.c:928-980 | an acknowledgement up to local_seq is taken as it is, except the keep-alive one before it, and nothing is written |
| TcpAnswers.WindowLeft | android/app/src/main/jni/netguard/tcp.c:210-233 | the receive window is what buffer and field can hold less the bytes queued and not sent |
| TcpAnswers.WindowField | android/app/src/main/jni/netguard/tcp.c:1268-1268 | every packet announces the receive window divided by the power of two, without truncation |
| TcpAnswers.WindowReopens | android/app/src/main/jni/netguard/tcp.c:534-550 | opening a closed window writes one acknowledgement that announces it, and a quiet event with an open one writes nothing |
| TcpAnswers.MonitorWatches | android/app/src/main/jni/netguard/tcp.c:115-163 | which events are watched in each state: room to forward exactly when the head can go, the server exactly while the window is open |
| TcpAnswers.KeepAliveExactly | android/app/src/main/jni/netguard/tcp.c:126-140 | a keep-alive is written if and only if the window is closed and the last one is more than 100 ms old, one less than the position |
| TcpAnswers.SessionOpened | android/app/src/main/jni/netguard/tcp.c:741-816 | the fields of a new session: it waits for the connection, announces what the buffer holds less the payload, and counts from now |
| TcpSocks.SynAckOnlyAfterHandshake | android/app/src/main/jni/netguard/tcp.c:308-467 | with a proxy throughout, over every run a SYN-ACK is written only after an accepted method in answer to the greeting, a successful answer to the authentication if it was chosen, and a granted answer to the connection request; messages to the proxy never go back a phase |
| TcpProxy.OpensThroughProxy | android/app/src/main/jni/netguard/tcp.c:308-467 | from any SYN: connecting, the reply [5, 0] and a grant give SYN_RECV with one SYN-ACK carrying the right numbers, after exactly the messages of RFC 1928 |
| TcpProxy.OpensWithAuthentication | android/app/src/main/jni/netguard/tcp.c:308-467 | so do the reply [5, 2], an accepted authentication and a grant |
| TcpProxy.MethodChosen | android/app/src/main/jni/netguard/tcp.c:335-347 | method 0 asks for the connection, method 2 for authentication |
| TcpProxy.AuthenticationAccepted | android/app/src/main/jni/netguard/tcp.c:349-358 | a successful authentication asks for the connection |
| TcpProxy.ConnectionGranted | android/app/src/main/jni/netguard/tcp.c:361-365 | a grant of the right length answers the SYN |
| TcpProxy.ReplyRefused | android/app/src/main/jni/netguard/tcp.c:330-393 | every other reply in every phase ends in CLOSING with a reset, and nothing more is sent to the proxy |
| TcpSession.Session.constructor | android/app/src/main/jni/netguard/tcp.c:741-816 | a new object holds the session that the model opens |
| TcpSession.Session.GetReceiveWindow | android/app/src/main/jni/netguard/tcp.c:210-233 | the loop computes the window from the queued bytes and the free buffer |
| TcpSession.Session.QueueTcp | android/app/src/main/jni/netguard/tcp.c:1003-1062 | the walk with an index refines the recursive insertion |
| TcpSession.Session.ForwardData | android/app/src/main/jni/netguard/tcp.c:472-520 | the while loop refines the recursive forwarding, for every pattern of sends |
| TcpSession.Session.CheckTcpSocket | android/app/src/main/jni/netguard/tcp.c:235-635 | the whole socket handler refines the model |
| TcpSession.Session.HandleTcp | android/app/src/main/jni/netguard/tcp.c:840-1000 | the whole handler of a packet for a known session refines the model |
| TcpSession.Session.CheckTcpSession | android/app/src/main/jni/netguard/tcp.c:54-113 | refines the periodic check, with the verdict to delete |
| TcpSession.Session.MonitorTcpSession | android/app/src/main/jni/netguard/tcp.c:115-165 | refines watching and the keep-alive, which restores the position |
| TcpSession.Drive | android/app/src/main/jni/netguard/tcp.c:235-1000 | an object driven by any events from any SYN ends as the model's run; with agreeing data the server takes a prefix of the stream |
| SessionList.Context.Search | android/app/src/main/jni/netguard/tcp.c:653-663 | returns the first session that fits, and null only when none does |
| SessionList.Context.CountActive | android/app/src/main/jni/netguard/session.c:95-115 | the count over the linked list is the number of active sessions |
| SessionList.Context.Register | android/app/src/main/jni/netguard/tcp.c:810-811 | prepending keeps the list acyclic and adds exactly one session |
| SessionList.Context.Unlink | android/app/src/main/jni/netguard/session.c:153-164 | taking a node out through its predecessor or the head leaves exactly the other nodes linked, in order |
| SessionList.Context.Walk | android/app/src/main/jni/netguard/session.c:123-168 | the pass with a trailing pointer refines a filter: exactly the selected nodes are unlinked, survivors keep their order, no cycle arises, and closing and freeing are booked once per session |
| SessionList.Context.Sweep | android/app/src/main/jni/netguard/session.c:123-168 | the periodic sweep is that pass |
| SessionList.Context.CheckAllowed | android/app/src/main/jni/netguard/session.c:286-361 | rechecking removes exactly the block records |
| SessionList.Context.Clear | android/app/src/main/jni/netguard/session.c:22-35 | closes and frees every session and leaves the empty list |
| TableInvariants.FindAfter | android/app/src/main/jni/netguard/session.c:123-168 | session by session, a pass leaves the checked value or deletes it, and books closing and freeing exactly when the check says so |
| TableInvariants.CheckIsSound | android/app/src/main/jni/netguard/udp.c:33-81 | the checks of all three protocols close a descriptor only once, delete only without one, and never make a session active again |
| Timeouts.TcpExpires | android/app/src/main/jni/netguard/tcp.c:39-84 | with few sessions, an open session is closed by a check if and only if it was idle for more than an hour when established and twenty seconds otherwise, with a reset unless it listens |
| Timeouts.TcpCloses | android/app/src/main/jni/netguard/tcp.c:86-104 | a closing session is closed at once and its counters are cleared |
| Timeouts.TcpDeleted | android/app/src/main/jni/netguard/tcp.c:107-110 | a session is deleted if and only if it was closed more than five minutes ago |
| Timeouts.UdpExpires | android/app/src/main/jni/netguard/udp.c:24-54 | an active UDP session is closed if and only if it was idle for more than fifteen seconds to port 53 and five minutes otherwise |
| Timeouts.UdpCloses | android/app/src/main/jni/netguard/udp.c:56-78 | a finishing one is closed at once; a closed one or a block record is deleted if and only if it is older than a minute |
| Timeouts.IcmpExpires | android/app/src/main/jni/netguard/icmp.c:24-57 | an ICMP session is closed and deleted if and only if it was stopped or idle for more than five seconds |
| Timeouts.ScaledShrinks | android/app/src/main/jni/netguard/tcp.c:48-49 | more sessions never allow more time |
| Timeouts.ScaledIsGone | android/app/src/main/jni/netguard/tcp.c:48-49 | at the maximum and above none is allowed, with C division |
| Timeouts.ActiveTimesOut | android/app/src/main/jni/netguard/session.c:99-113 | the sessions counted as active are those that a check leaves alone while used and changes when not |
| Timeouts.CountIsCardinality | android/app/src/main/jni/netguard/session.c:95-115 | the count is the number of different active sessions |
| TableInvariants.PassKeeps | android/app/src/main/jni/netguard/session.c:117-168 | every such pass keeps distinct ids, the account of each descriptor, epoll's interest list, disjoint descriptors and unique keys |
| TableInvariants.WatchesAfter | android/app/src/main/jni/netguard/session.c:123-168 | after a pass, what epoll holds for a descriptor is still the registered session that owns it: freeing without closing would break this |
| TableInvariants.RegisterKeeps | android/app/src/main/jni/netguard/udp.c:283-335 | so does registering a session that conflicts with none |
| EventLoop.StepKeepsTable | android/app/src/main/jni/netguard/session.c:206-263 | every event of the loop keeps the invariant of the table |
| EventLoop.HandleUdpUpdates | android/app/src/main/jni/netguard/udp.c:268-378 | a packet for an active UDP session always takes effect: active, or finishing when sending fails |
| EventLoop.HandleIcmpUpdates | android/app/src/main/jni/netguard/icmp.c:190-300 | so does an echo request for a running ICMP session |
| EventLoop.OnSocketUpdates | android/app/src/main/jni/netguard/udp.c:83-166 | so does every event of an open UDP or ICMP socket |
| TableLaws.UdpOpens | android/app/src/main/jni/netguard/udp.c:283-333 | the first allowed UDP packet of a conversation, below the limit or to port 53, puts one session with its key, time and watched descriptor before the list, active or finishing when it cannot be sent |
| TableLaws.UdpBlocked | android/app/src/main/jni/netguard/udp.c:193-239 | a denied UDP packet leaves a block record without descriptor |
| TableLaws.UdpIgnored | android/app/src/main/jni/netguard/udp.c:277-281 | a packet for a UDP session that is not active changes nothing |
| TableLaws.IcmpOpens | android/app/src/main/jni/netguard/icmp.c:190-245 | the first allowed echo request between two addresses opens a session, and no other ICMP packet does |
| TableLaws.TcpOpens | android/app/src/main/jni/netguard/tcp.c:715-816 | a SYN without a session opens one, closing when it is denied; no other TCP packet does |
| TableLaws.NoDescriptor | android/app/src/main/jni/netguard/udp.c:317-321 | without a descriptor nothing is opened |
| TableLaws.AtTheLimit | android/app/src/main/jni/netguard/ip.c:273-283 | at the limit, packets of known UDP conversations, queries to port 53 and TCP packets that open nothing are handled as below it, and all others dropped |
| TableLaws.TcpDenied | android/app/src/main/jni/netguard/tcp.c:855-859 | a denied packet starts closing its session |
| TableLaws.SocketEvent | android/app/src/main/jni/netguard/udp.c:83-166 | a socket event without error sets the time alone; with one, UDP finishes and ICMP stops |
| TableLaws.Restarted | android/app/src/main/jni/netguard/session.c:286-361 | after a restart denied sessions finish, stop or start closing, allowed ones are as they were, and no block record is left |
| TableLaws.RoundBegins | android/app/src/main/jni/netguard/session.c:95-115 | the count tested against the limit is that of the active sessions at the start of the round, and ten packets may follow; unless the check is due, only TCP sessions that cannot be watched change |
| TableLaws.RoundSweeps | android/app/src/main/jni/netguard/session.c:117-168 | when the check is due, every session is as its check leaves it or gone |
| TableLaws.ClearedAll | android/app/src/main/jni/netguard/session.c:22-35 | clearing leaves no session, each freed once after its descriptor was closed |
| EventLoop.StepKeepsPending | android/app/src/main/jni/netguard/session.c:206-263 | every event keeps all events not yet handled on sessions that are registered and open, the wait taking any ids from the interest list |
| EventLoop.HandleIpCount | android/app/src/main/jni/netguard/ip.c:273-283 | a packet adds at most one session that the limit is about, and none at the limit |
| EventLoop.BeginCount | android/app/src/main/jni/netguard/session.c:95-115 | a round starts with no more such sessions than the count it tests against |
| EventLoop.StepKeepsBound | android/app/src/main/jni/netguard/session.c:225-231 | every event keeps the bound, although the count is taken once per round |
| EventLoop.RunKeeps | android/app/src/main/jni/netguard/session.c:88-263 | all of these over every run |
| EventLoop.ClosedOnceBeforeFreed | android/app/src/main/jni/netguard/session.c:117-168 | over every run a session is freed at most once, after its descriptor was closed exactly once, and an open session's descriptor was never closed |
| EventLoop.EventsReachLiveSessions | android/app/src/main/jni/netguard/session.c:206-263 | over every run, whatever subset of its interest list epoll returns, each event refers to a registered session with an open descriptor, never to a freed one |
| EventLoop.KeysAreUnique | android/app/src/main/jni/netguard/udp.c:254-264 | over every run there is at most one TCP session and one UDP session that is no block record per version, addresses and ports, and at most one running ICMP session per version and addresses |
| EventLoop.SessionsBounded | android/app/src/main/jni/netguard/ip.c:273-283 | over every run, active sessions other than UDP to port 53 never exceed maxsessions + TUN_YIELD - 1 |
| LoopOnList.TouchNode | android/app/src/main/jni/netguard/icmp.c:245-300 | updating one node in place is a pass that changes only that session |
| LoopOnList.OnUdp | android/app/src/main/jni/netguard/udp.c:254-378 | searching, ignoring, updating or prepending on the linked list does what the model does to the table |
| LoopOnList.OnIcmp | android/app/src/main/jni/netguard/icmp.c:190-300 | the same for ICMP, where stopped sessions are skipped |
| LoopOnList.OnTcp | android/app/src/main/jni/netguard/tcp.c:653-860 | the same for TCP, where only a SYN opens and a blocked one starts closing |
| LoopOnList.OnIp | android/app/src/main/jni/netguard/ip.c:273-360 | the limit test and dispatch of a packet on the linked list |
| LoopOnList.OnRound | android/app/src/main/jni/netguard/session.c:95-190 | counting, watching, sweeping and waiting on the linked list start the round that the model starts |
| LoopOnList.Drive | android/app/src/main/jni/netguard/session.c:88-263 | any run of the loop on the linked list is the run on the table, with all its invariants |
| TcpInTable.RelayStepSucceeds | android/app/src/main/jni/netguard/tcp.c:54-1062 | every step of every sane session is one the table admits, so the entry becomes exactly that of the new session, whatever the packets carry |
| TcpInTable.CheckAgrees | android/app/src/main/jni/netguard/tcp.c:54-113 | the sweep's check of a table entry is the session's own check |
| TcpInTable.WatchAgrees | android/app/src/main/jni/netguard/tcp.c:115-165 | watching an entry is the session's own monitoring |
| TcpInTable.RecheckAgrees | android/app/src/main/jni/netguard/session.c:340-354 | rechecking an entry is the session's own reset |
| TcpInTable.NewSessionRepresented | android/app/src/main/jni/netguard/tcp.c:741-816 | the entry registered for any SYN is that of the session it opens |
| TcpInTable.TableMirrorsRelays | android/app/src/main/jni/netguard/session.c:88-263 | over every run of the loop with the TCP sessions inside, each TCP entry has the state, time and open or closed socket of its session, and all invariants of the loop hold |
| TcpInTable.SessionsInTheLoop | android/app/src/main/jni/netguard/session.c:88-263 | inside every run of the loop, each TCP session is the run of its SYN and of the events delivered to it, so the application receives what was read until a write fails, and the server takes a prefix of a stream the delivered data agrees with |
| Checksum.CalcChecksum | android/app/src/main/jni/netguard/util.c:24-41 | both loops together give the one's complement sum, for either parity, without 32-bit overflow up to 131068 bytes |
| Checksum.Chained | android/app/src/main/jni/netguard/tcp.c:1286-1290 | feeding one result into the next call sums the concatenation of even-length parts |
| Checksum.NetworkOrder | android/app/src/main/jni/netguard/util.c:24-41 | summing in host order and in network order differ by the factor 256 modulo 2^16 - 1 |
| Checksum.AllOnesInNetworkOrder | android/app/src/main/jni/netguard/util.c:24-41 | so a sum is all ones in one order if and only if it is in the other |
| Checksum.Seal | android/app/src/main/jni/netguard/tcp.c:1257-1290 | the stored word is the complement of the sum over all parts; it makes pseudo-header and packet sum to 0xFFFF by section 1 of RFC 1071, and no other byte changes |
| Checksum.SealIp4 | android/app/src/main/jni/netguard/tcp.c:1205-1216 | so does the IPv4 header's own checksum |
| Checksum.WriteIp | android/app/src/main/jni/netguard/tcp.c:1195-1243 | the IPv4 header has its version, length, hops, protocol and addresses at their places and sums to 0xFFFF; so has the IPv6 header |
| Checksum.PseudoV6Sums | android/app/src/main/jni/netguard/tcp.c:1242-1253 | the IPv6 pseudo-header with swapped addresses and the length in the other half sums as the one of section 8.1 of RFC 8200 |
| Checksum.SealedForRfc | android/app/src/main/jni/netguard/tcp.c:1242-1253 | hence a packet sealed with it is valid under RFC 8200 |
| Checksum.PseudoBytes | android/app/src/main/jni/netguard/tcp.c:1218-1253 | the receiver's pseudo-headers byte by byte |
| Checksum.WriteTcp | android/app/src/main/jni/netguard/tcp.c:1183-1290 | every packet goes from the server's address and port to the application's; ports, numbers, data offset, each flag bit, window, options and data are at their places, and the segment re-sums to 0xFFFF with the receiver's pseudo-header |
| Checksum.WriteUdp | android/app/src/main/jni/netguard/udp.c:437-515 | every packet goes from the server's address and port to the application's with length and data at their places and re-sums to 0xFFFF; its stored checksum is zero if and only if the sender's sum is a positive multiple of 2^16 - 1 |
| Checksum.ZeroChecksumDatagram | android/app/src/main/jni/netguard/udp.c:512-515 | a datagram whose sender's sum is 0xFFFF, so that the stored checksum is zero |
| DnsName.GetQname | android/app/src/main/jni/netguard/dns.c:22-76 | on every message: ends within 26 hops, reads and writes in bounds, and leaves exactly the specified name and terminator in the buffer |
| DnsName.DecodesExactly | android/app/src/main/jni/netguard/dns.c:22-76 | a spelled name is decoded to its labels joined by dots if and only if it has at most 26 hops and 1 to 255 bytes with dots |
| DnsName.NextExactly | android/app/src/main/jni/netguard/dns.c:46-49 | the returned offset is just past the name if and only if the name is uncompressed or starts with the pointer |
| ParserInputs.LabelBeforePointer | android/app/src/main/jni/netguard/dns.c:46-49 | a name with a label before its pointer ends at offset 7, and the offset returned is 5 |
| ParserInputs.TooManyLabels | android/app/src/main/jni/netguard/dns.c:33-35 | a name of 27 labels is not found |
| ParserInputs.ReservedIsPointer | android/app/src/main/jni/netguard/dns.c:37-44 | a length that RFC 1035 reserves is followed as a pointer |
| DnsMessage.ParseRecord | android/app/src/main/jni/netguard/dns.c:124-177 | one record of the answer loop gives the specified report and offset |
| DnsMessage.ParseAnswers | android/app/src/main/jni/netguard/dns.c:122-177 | the loop over the answers gives the reports up to the first bad record, in bounds |
| DnsMessage.ParseDnsResponse | android/app/src/main/jni/netguard/dns.c:78-185 | the whole of parsing a response gives the specified reports |
| DnsMessage.RecordAdvances | android/app/src/main/jni/netguard/dns.c:124-177 | on any message each record walked takes at least 12 bytes, ends inside the message and gives at most one report |
| DnsMessage.ReportsBounded | android/app/src/main/jni/netguard/dns.c:122-177 | so n bytes of answers never give more than n / 12 reports |
| DnsMessage.ReportsEveryAddress | android/app/src/main/jni/netguard/dns.c:78-185 | a described response gives each class-IN A or AAAA record exactly once, in order, with the question's name |
| DnsMessage.OnlyResponses | android/app/src/main/jni/netguard/dns.c:78-98 | queries, other opcodes and messages without question or answer give no reports |
| DnsMessage.AddressTypes | android/app/src/main/jni/netguard/dns.c:134-136 | class 1 with type 1 or 28 are addresses and nothing else |
| DnsRoundTrip.RoundTrip | android/app/src/main/jni/netguard/dns.c:78-185 | parsing any encoded response, with owner names written out or pointing to the question, reports exactly its addresses |
| TlsSni.ParseSni | android/app/src/main/jni/netguard/tls.c:21-174 | on every input: terminates, stays in bounds and gives the specified result, with the eight-bit index |
| TlsSni.WalkExtensions | android/app/src/main/jni/netguard/tls.c:96-173 | the loop over the extensions finds the first host name, in bounds |
| TlsSni.FindsName | android/app/src/main/jni/netguard/tls.c:21-174 | inverts the ClientHello encoder: the encoded name is returned if and only if another extension follows and it has fewer than 255 bytes |
| TlsSni.NameExtensionBytes | android/app/src/main/jni/netguard/tls.c:119-165 | its server_name extension has type 0 and one name of type 0 |
| TlsSni.HelloBytes | android/app/src/main/jni/netguard/tls.c:21-45 | the encoder's record has type 22 and its message type 1 |
| TlsSni.OnlyHellos | android/app/src/main/jni/netguard/tls.c:21-45 | nothing but a complete record of type 22, version 3 or more and message type 1 gives a name |
| TlsSni.OtherNameType | android/app/src/main/jni/netguard/tls.c:140-144 | a server_name extension that begins with another type of name gives none |
| ParserInputs.LastExtension | android/app/src/main/jni/netguard/tls.c:130-134 | a ClientHello whose only extension is server_name gives no name |
| TlsSni.WrappedIndexFindsNothing | android/app/src/main/jni/netguard/tls.c:49-94 | a prelude of 256 or 257 bytes wraps the index and no name is found |
| UidCache.Cache.Lookup | android/app/src/main/jni/netguard/ip.c:433-449 | the first matching entry of age at most UID_MAX_AGE, and none only when there is none |
| UidCache.Cache.Store | android/app/src/main/jni/netguard/ip.c:516-538 | a row goes to the first stale place from the last one on, or to the end |
| UidCache.Cache.Scan | android/app/src/main/jni/netguard/ip.c:486-543 | no live entry is overwritten, every row is present with the current time in its own place, the size is max(old size, live entries + rows), and the last matching row decides |
| UidCache.ScanningStep | android/app/src/main/jni/netguard/ip.c:516-538 | storing one more row keeps all of that |
| UidCache.ScannedSize | android/app/src/main/jni/netguard/ip.c:516-538 | the exact size of the cache after a scan |
| UidCache.Cache.GetUidSub | android/app/src/main/jni/netguard/ip.c:420-549 | every answer from the cache is the owner in a matching row read at most UID_MAX_AGE ago; otherwise nothing live matched and the table is scanned, or the error is returned |
| UidCache.OwnRowsMatch | android/app/src/main/jni/netguard/ip.c:508-514 | a row with the connection's own addresses and ports matches, and so does one bound to its port only |
| UidCache.OtherRowsDoNot | android/app/src/main/jni/netguard/ip.c:508-514 | a row that differs in port or address does not, unless that is a wildcard |
| UidCache.SwappedDoesNot | android/app/src/main/jni/netguard/ip.c:508-514 | the connection the other way round does not match |
| UidCache.HitAges | android/app/src/main/jni/netguard/ip.c:433-443 | an entry answers for its version and protocol for thirty seconds and no longer |
| UidCache.LastMatchIs | android/app/src/main/jni/netguard/ip.c:508-514 | the owner found is that of the last matching row |
| UidCache.NoMatch | android/app/src/main/jni/netguard/ip.c:483-514 | and -1 when none matches |
| UidCache.TablesRead | android/app/src/main/jni/netguard/ip.c:452-463 | which protocols have a table for which version |
| FirewallRules.DecideIgnoresOrder | android/app/src/main/java/eu/flutter/netguard/data/DatabaseHelper.java:130-180 | permuting the rows never changes the decision |
| FirewallRules.GetPackageRule | android/app/src/main/java/eu/flutter/netguard/data/DatabaseHelper.java:130-180 | the loop over the rows builds the specified rules in order |
| FirewallRules.EvaluateDecides | android/app/src/main/java/eu/flutter/netguard/MyVpnService.java:667-699 | evaluating the rules built from any rows decides as the precedence: whitelisted, non-empty exclusive whitelist, blacklist, open |
| FirewallRules.Service.BlockedByRule | android/app/src/main/java/eu/flutter/netguard/MyVpnService.java:667-699 | the loop with early returns is that evaluation |
| FirewallRules.Service.IsDomainBlocked | android/app/src/main/java/eu/flutter/netguard/MyVpnService.java:550-576 | the verdict on a domain follows block-all, rules and global list |
| FirewallRules.DomainVerdict | android/app/src/main/java/eu/flutter/netguard/MyVpnService.java:550-576 | the same as one law on the rows in any order |
| FirewallRules.SingleRows | android/app/src/main/java/eu/flutter/netguard/data/DatabaseHelper.java:130-180 | what single blacklist, whitelist and exclusive rows decide for hosts and addresses |
| FirewallRules.LeadingWww | android/app/src/main/java/eu/flutter/netguard/network/NetworkUtils.java:266-271 | a leading "www." makes no difference |
| FirewallRules.WithoutRules | android/app/src/main/java/eu/flutter/netguard/MyVpnService.java:550-576 | without rules of its own, block-all and the global list decide |

## Left out

- JNI bridging, logging, string formatting, the allocation tracker, pcap recording and DHCP (`netguard.c`, `pcap.c`, `dhcp.c`): no logic to prove, or compiled out, or marked untested.
- The Flutter and Dart side, generated code, SQL repositories, statistics, and the Android service lifecycle: plumbing around the decisions modelled here.
- Opening sockets, epoll registration, `getsockopt` and `ioctl`: their results are inputs. A session whose socket could not be opened is never registered.
- TCP option decoding (`tcp.c:717-736`): segment size and window shift are inputs. The SYN-ACK's segment size is in host order, as the code stores it.
- IPv6 extension headers and the receive-side IPv4 checksum test of `handle_ip`: protocol and payload are inputs.
- The early return of `isAddressAllowed` and the host lookup cache of `MyVpnService`: the global list is a parameter.
- The log entries, traffic records, uid updates and return values of the packet handlers, and the DNS and DHCP side calls of the UDP handlers.
- The bytes of the messages to the proxy (`tcp.c:396-446`): the log holds their phase.
- The byte counters of a session are unbounded integers here and 64 bits wide in C.
- The forward queue is a sequence that methods reassign; relinking of its nodes is not modelled (that of the session list is).
- A packet for no session is answered with a reset of a temporary session; that reset is not modelled.
- The infinite loop, its timeouts and its locking: the loop is a sequence of events. Several datagrams read in one UDP event count as one step. EventLoop takes the state and time of a TCP session after an event from the environment, along the edges of the state machine; TcpInTable replaces that choice by the sessions themselves.
- TcpStream.ServerTakesPrefix: assumes a SYN without payload (AnySynTakesPrefix has the other case) and data within 2^30 of the position, because the comparison is exact only below 2^31 - 1.
- TcpStream.NewSessionInv: assumes a SYN without payload; TcpQueue and TcpPayload have the other case.
- TcpQueue.Accounting: assumes data shorter than 2^16 that begins within 2^30 of the position.
- LoopOnList.OnTcp: takes the next state of a TCP session from the environment; TcpInTable runs the sessions themselves, on the table.
- TlsSni.FindsName: assumes that everything before the extension data fits in 255 bytes.
- TcpAcks.AcksCoverExactly: assumes that every FIN carries the number that follows the stream, within 2^30 of what was taken.
- An epoll registration that fails: a descriptor that is not on the interest list gives no events, which the subset that epoll returns covers.
- TcpDown.InFlightBounded: assumes a window shift of at most 14, the limit of section 2.3 of RFC 7323, which the code does not enforce.
- TcpDown.EveryStepInWindow: assumes a window shift of at most 14 and no acknowledgement in the corner case.
- Checksum.CalcChecksum: beyond 131068 bytes the 32-bit sum may wrap, and nothing is stated.
- TlsSni.WrappedIndexFindsNothing: longer preludes make the eight-bit index point back into the message; what is found there then depends on its bytes and is only given by the specification function.
- DnsMessage.ReportsEveryAddress: assumes one question and owner names that `get_qname` reads with the right offset.
- FirewallRules.GetPackageRule: a rule's maps are modelled by their key sets.
- UidCache.Cache.GetUidSub: the text of a line of the connection table is not parsed; a line is a row or unreadable.
- SessionList.Context.CountActive: the C loop also watches TCP sessions while it counts; here watching is a second pass.
