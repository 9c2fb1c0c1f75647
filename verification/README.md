# A verified model of the VCI proxy and the diagnostic platform around it

A diagnostic program on a cloud machine talks, through a DLL, to a vehicle interface that is plugged
into a computer somewhere else. The cloud side runs a *reverse server*. It takes requests from several
DLL connections, renumbers them onto one tunnel that a *reverse client* has opened from the other end,
and matches the answers that come back. On the way it answers some requests from three caches. Around
this tunnel sit a quality tracker that grades it, an analysis that collects the log events of one
session, an allocator that leases worker nodes, an orchestrator that runs diagnostic sessions, a planner
that chooses menu entries, and a rotating log writer.

This project models that logic and proves what it keeps. Classes stand where the source has objects
whose methods update fields. Each method is proved against a function on values, and the properties of
whole runs are lemmas about step functions built from those same functions.

| file | what it models |
|---|---|
| `Common.dfy`, `Sorting.dfy` | results, errors, sequence facts; bytes and the `struct` formats; the stable sort |
| `Protocol.dfy` | frame headers, message lists, filter requests and IOCTL bodies, with their round trips |
| `Framing.dfy` | the bounded frame reader, the timing trailer, one response from end to end |
| `Tunnel.dfy` | the multiplexing server, its peers and the network, over all runs |
| `FilterCache.dfy`, `FilterCoherence.dfy`, `FilterSharing.dfy` | StartFilter deduplication: alone, in front of the device, and shared by several connections |
| `ReadMsgsCache.dfy` | the BUFFER_EMPTY short circuit and the message stream behind it |
| `IoctlCache.dfy` | the IOCTL cache, the client's handler, and what the driver is asked by an input |
| `IoctlStaleness.dfy` | both caches with requests interleaving: how old an answer can be, and what a Disconnect forgets |
| `IoctlInputs.dfy`, `ConfigFreshness.dfy` | what the cache key leaves out, and what SET_CONFIG does not invalidate |
| `ServerCaches.dfy`, `ServerDispatch.dfy` | how the server tries, invalidates and fills the three caches around one request, and that the runs of the single caches are runs of this dispatch |
| `TunnelQuality.dfy` | percentile, grades, hysteresis and the published snapshot |
| `Correlation.dfy` | the two searches for the events of a session, and reachability |
| `NodeAllocation.dfy` | nodes, leases, their two files, and crashes between writes |
| `EventQueue.dfy`, `Session.dfy` | the bounded event queue and the session state machine |
| `Planner.dfy` | comparing texts, scoring, ranking and the decision to ask a human |
| `RotatingLog.dfy` | the rotating line writer |

`dafny verify dfyconfig.toml` checks everything.

## What the proofs say about the code

Some promises hold only under a condition. Each condition is stated and proved exactly.

- An accepted response meets its own request exactly when fewer than 2^32 sequence numbers were issued
  after it, and otherwise always resolves another one (`Tunnel.CrossesExactlyOutsideWindow`, with a run
  in `Tunnel.WrappedSequenceCrosses`). The server never checks which tunnel a frame came from; the window
  alone keeps frames of an old tunnel out.
- A read whose answer takes more than 30 s, or is too long for the frame bound, or is cut off with the
  tunnel, loses the messages it took from the device, and CLEAR_RX_BUFFER throws away what the device
  holds. No other request loses, doubles or reorders one (`ReadMsgsCache.ReadsConserveMessages`); a slow
  read is the concrete case (`ReadMsgsCache.SlowReadLosesItsMessage`).
- The filter cache stays coherent with the device unless CLEAR_MSG_FILTERS reaches a channel the cache
  holds filters for, which `_invalidate_caches` does not look at (`FilterCoherence.StepKeepsCoherentIff`).
- Several DLL connections can break it in two more ways: a removal of one is carried out between the start
  and the recording of another's filter (`FilterSharing.OvertakenStartIsStale`), or two start the same
  body (`FilterSharing.DoubleStartBreaksInverse`). A late recording keeps coherence exactly when its
  filter is still live for the body and the body is not cached under another id
  (`FilterSharing.RecordKeepsCoherentIff`), a run stays coherent exactly when it has no harmful step
  (`FilterSharing.CoherentThroughoutIff`), and requests that keep out of each other's way never do harm
  (`FilterSharing.SharedHitsAreLive`).
- The IOCTL cache files answers under channel and IOCTL id only. Every request is answered with what the
  device says to its own question exactly when all inputs used with the key ask the driver the same, or no
  cache can answer for the key (`IoctlInputs.OwnAnswersIff`). Absent and empty inputs ask the same, and
  READ_VBATT and READ_PROG_VOLTAGE never look at theirs.
- SET_CONFIG invalidates neither cache. A GET_CONFIG is never older than a SET_CONFIG completed before it
  was asked for exactly when the server has no enabled cache with a TTL of at least 0 and the client none
  with a positive one (`ConfigFreshness.FreshAfterSetIff`).
- The search in memory and the search over files select the same events except when a session is named,
  nothing matches it, and there are events of no session (`Correlation.SearchesAgreeIff`).
- A crash between two writes never makes a restarted allocator hand out a leased node, but it can leave
  a node in use with no lease, or a lease and a node that name different sessions. The steps that do so
  are characterised exactly (`NodeAllocation.NothingLeakedUnlessLeaks`, `NodeAllocation.SessionsAgreeUnlessTorn`).
- The planner's choice is independent of the order of the options exactly from a minimum confidence of
  0.45 on (`Planner.OrderIndependentIff`). Below that, some target and two options that contain it score
  the same, enough to be taken but too little to be called ambiguous.
- After any writes every log segment is within the size bound or one oversized line, exactly when the file
  found at opening was (`RotatingLog.SegmentsFitIff`, with an input in `RotatingLog.FoundOverBoundStays`).
- A response body passes the tunnel unchanged exactly when it leaves room for the twelve trailer bytes in
  the frame bound (`Framing.ByteTransparency`).
- A registry that raises while a session starts leaves that session pending, and it refuses every later
  start until it is ended or rolled back (`Session.RaisingStartBlocks`). One that raises while a backend
  decision is submitted leaves the decision noted but the gate open. A gate is resolved at most once in
  every run exactly when the registry can take each of its options (`Session.ResolvedOnceIff`).

## Model

| member | source | states |
|---|---|---|
| Protocol.HeaderFields | vci_proxy/protocol.py:58-67 | Reading the header of an encoded frame gives back magic, length, type and sequence, and what follows the header is the body |
| Protocol.MsgRoundTrip | vci_proxy/protocol.py:343-353 | A whole encoded message at the front of any bytes is recognised and read back |
| Protocol.ReadMsgIsPrefix | vci_proxy/protocol.py:343-353 | Reading a message from arbitrary bytes loses nothing: encoding it again gives the bytes it was read from |
| Protocol.ParseMsgsIsLongestPrefix | vci_proxy/protocol.py:337-363 | On arbitrary bytes the decoding loop yields exactly the longest list of whole messages the bytes begin with, at most the announced number and at most one per 20 bytes |
| Protocol.LongestPrefixIsUnique | vci_proxy/protocol.py:343-362 | There is only one such list, so that description determines the decoder |
| Protocol.TruncationKeepsWholePrefix | vci_proxy/protocol.py:343-353 | Any truncation of an encoded list decodes to the maximal prefix of complete messages: the next one would not have fitted |
| Protocol.MsgsRoundTrip | vci_proxy/protocol.py:133-145 | Decoding inverts encoding for every message list, whatever bytes follow |
| Protocol.AppendMsgs | vci_proxy/protocol.py:133-144 | The encoder loop appends exactly the encodings of the messages, in order |
| Protocol.TakeMsg | vci_proxy/protocol.py:344-353 | One unpacking step stays in bounds and finds a message exactly when a whole one starts at the offset |
| Protocol.CollectMsgs | vci_proxy/protocol.py:371-390 | The decoder loop returns the longest whole prefix of what follows the fixed header |
| Protocol.ReadMsgsRspRoundTrip | vci_proxy/protocol.py:127-145 | READ_MSGS_RSP: return code and messages survive encoding and decoding |
| Protocol.WriteMsgsReqRoundTrip | vci_proxy/protocol.py:147-166 | WRITE_MSGS_REQ: channel, messages and timeout survive encoding and decoding |
| Protocol.TruncatedReadMsgsRsp | vci_proxy/protocol.py:337-363 | A READ_MSGS_RSP cut anywhere keeps its return code and exactly the messages that are all there, and is refused only when cut inside the fixed header |
| Protocol.TruncatedWriteMsgsReq | vci_proxy/protocol.py:365-391 | The same for WRITE_MSGS_REQ with its channel and timeout |
| Protocol.EncodeReadMsgsRsp | vci_proxy/protocol.py:127-145 | Encoding fails exactly when the count or the length does not fit its 32-bit field, and otherwise gives the whole frame |
| Protocol.SlotRoundTrip | vci_proxy/protocol.py:422-447 | An optional message of a filter request is read back together with the bytes behind it, absent or present |
| Protocol.DecodeStartFilterReq | vci_proxy/protocol.py:412-448 | The three-slot decoder refuses short bodies and cut messages, treats missing flag bytes as absent messages, and computes the request otherwise |
| Protocol.StartFilterReqRoundTrip | vci_proxy/protocol.py:219-244 | All eight presence patterns of mask, pattern and flow control survive the trip |
| Protocol.IoctlReqRoundTrip | vci_proxy/protocol.py:261-271 | IOCTL_REQ round trip; an empty input comes back as no input |
| Protocol.IoctlRspRoundTrip | vci_proxy/protocol.py:273-282 | IOCTL_RSP round trip; an empty output comes back as no output |
| Protocol.MsgLayout | vci_proxy/protocol.py:133-144 | An encoded message is protocol, receive status, transmit flags, timestamp and length, a big-endian word each, and its data |
| Protocol.ListLayouts | vci_proxy/protocol.py:127-166 | Where the bodies with message lists carry code, channel, count and timeout, and that the messages follow |
| Protocol.FilterLayouts | vci_proxy/protocol.py:219-250 | A filter request carries channel, type and then mask, pattern and flow control in this order, each behind its flag byte; the response carries code and filter id |
| Protocol.IoctlLayouts | vci_proxy/protocol.py:261-282 | Where the IOCTL bodies carry channel, id, code and length, and that the payload follows |
| Protocol.SlotRules | vci_proxy/protocol.py:422-447 | A missing or zero flag byte means no message; behind any other flag a message must be whole, and is taken from the bytes |
| Protocol.ShortBodiesAreRefused | vci_proxy/protocol.py:287-477 | The decoders refuse bodies shorter than their fixed part, and all but the filter request's refuse no others |
| Protocol.PayloadIsClipped | vci_proxy/protocol.py:465-477 | A payload is what there is of the announced length, and none exactly when nothing is announced |
| Bytes.BigEndian | vci_proxy/protocol.py:58-67 | The first byte of a packed number weighs most |
| Bytes.PackedWordAt | vci_proxy/protocol.py:137-143 | The i-th of several packed words is at byte 4i |
| Framing.ValidatedBodyLength | vci_proxy/reverse_server.py:123-132 | A length is accepted exactly when the body is between 0 and 1,000,000 bytes |
| Framing.ReadLoop | vci_proxy/reverse_server.py:799-814 | The reading loop returns every frame up to the first bad one, and says why it stopped |
| Framing.StreamRoundTrip | vci_proxy/reverse_server.py:135-152 | Reading a concatenation of encoded frames gives back the frames and goes on with what follows |
| Framing.OversizedFrameStopsStream | vci_proxy/reverse_server.py:123-132 | The first frame over the bound ends the stream; everything before it has been read, nothing behind it is |
| Framing.ReadFrameIsExact | vci_proxy/reverse_server.py:799-814 | From arbitrary bytes a frame within the bound is read exactly when the bytes begin with its encoding; otherwise it is said why: too few bytes, another magic, or a length that is too small, too large or not there |
| Framing.ReadAllIsExact | vci_proxy/reverse_server.py:799-814 | The loop loses nothing: the bytes are the encodings of the frames it read and a rest that begins with none |
| Framing.WrongMagicStopsStream | vci_proxy/reverse_server.py:804-807 | Bytes that do not begin with the magic end the stream, and nothing behind them is read |
| Framing.MagicBytes | vci_proxy/protocol.py:11 | The magic is the four bytes "J2S4"; the comment beside it says "J254" |
| Framing.AttachExtendsBody | vci_proxy/benchmark.py:19-36 | Attaching the trailer gives exactly the frame whose body is extended by it, with the length field adjusted, or fails when that does not fit |
| Framing.ShortResponsePasses | vci_proxy/benchmark.py:19-36 | What is too short to have a header gets no trailer |
| Framing.StripTimingTrailer | vci_proxy/benchmark.py:39-50 | Stripping never changes bytes: body equals what is kept plus the trailer that was found |
| Framing.StripRemovesTrailer | vci_proxy/benchmark.py:39-50 | Stripping undoes attaching, for every body, even one that itself ends like a trailer |
| Framing.ByteTransparency | vci_proxy/reverse_server.py:1327-1332 | On a cache miss the DLL gets the handler's bytes with only the sequence replaced, exactly when body plus trailer fit the frame bound |
| Tunnel.ReverseServer.TakeSequence | vci_proxy/reverse_server.py:994-996 | The next number is one more, modulo 2^32, and nothing else changes |
| Tunnel.ReverseServer.Forward | vci_proxy/reverse_server.py:1262-1296 | Forwarding puts a new pending future under a new number; when there is no tunnel or the write fails the slot is taken back and the request has failed |
| Tunnel.ReverseServer.ReceiveFrame | vci_proxy/reverse_server.py:816-836 | An arriving frame resolves and removes the future under its number with the stripped body; a heartbeat is acknowledged under its own number; heartbeats and unknown numbers change nothing |
| Tunnel.ReverseServer.WaitTimedOut | vci_proxy/reverse_server.py:1352-1353 | A timed-out wait gives up its future and pops its slot |
| Tunnel.ReverseServer.CancelPendingFutures | vci_proxy/reverse_server.py:456-468 | The table is emptied, and exactly the futures in it that were still pending are cancelled |
| Tunnel.ReverseServer.AcceptTunnel | vci_proxy/reverse_server.py:751-782 | A new tunnel is registered and cancels what was pending on one it replaces; if there was none, nothing is cancelled |
| Tunnel.ReverseServer.LoseTunnel | vci_proxy/reverse_server.py:849-862 | The end of a tunnel that is not the registered one changes nothing; the end of the registered one empties the table and leaves no tunnel |
| Tunnel.WireInjective | vci_proxy/reverse_server.py:994-996 | Two requests fewer than 2^32 numbers apart carry different numbers |
| Tunnel.RunKeepsInv | vci_proxy/reverse_server.py:1175-1353 | Over all runs, with requests read while there is no tunnel: the table leads from each number to a pending request issued with it on the current tunnel, frames carry the number and tunnel of their request, each busy DLL connection waits for exactly its one request |
| Tunnel.NoResponseCrossing | vci_proxy/reverse_server.py:830-836 | In every reachable world a response within the window resolves its own pending request and answers the waiting connection, or changes nothing |
| Tunnel.CrossesExactlyOutsideWindow | vci_proxy/reverse_server.py:830-836 | In every reachable world an accepted response meets its own request exactly when it is within the window; otherwise it resolves another pending request and answers that one's connection |
| Tunnel.OldTunnelResponseIsDropped | vci_proxy/reverse_server.py:770-782 | A response of a lost or replaced tunnel within the window changes nothing |
| Tunnel.LateResponseIsDropped | vci_proxy/reverse_server.py:830-836 | A response to a request that already has its outcome changes nothing |
| Tunnel.OutcomesAreFinal | vci_proxy/reverse_server.py:1298-1353 | Every request resolves at most once: an outcome never changes again |
| Tunnel.LosingAnotherTunnel | vci_proxy/reverse_server.py:849-862 | In every reachable world the end of a tunnel that is not the registered one changes nothing at all |
| Tunnel.LosingTheTunnel | vci_proxy/reverse_server.py:850-858 | The end of the registered tunnel cancels exactly the requests still in the table, changes no other outcome, and leaves no tunnel |
| Tunnel.ConnectingATunnel | vci_proxy/reverse_server.py:757-782 | A new tunnel is registered and cancels exactly the requests that were in the table |
| Tunnel.CancelledOnlyWithItsTunnel | vci_proxy/reverse_server.py:456-468 | In every run a pending request is cancelled only by the end of its own tunnel or by the connection that replaces that tunnel |
| Tunnel.CancelledExactlyWithItsTunnel | vci_proxy/reverse_server.py:456-468 | Within the window it is cancelled exactly then |
| Tunnel.RegisteredIsLastConnected | vci_proxy/reverse_server.py:776-858 | After every run the registered tunnel is the last one that connected, if that very one has not been lost since, and else there is none |
| Tunnel.TimelyRunsAnswerTheirOwn | vci_proxy/reverse_server.py:1327-1332 | Over whole runs within the window every DLL reply carries its own sequence and what the client produced for its own request, no request is answered twice, and no pending request is forgotten |
| Tunnel.WrappedSequenceCrosses | vci_proxy/reverse_server.py:994-996 | The window is tight: a run that issues 2^32 more numbers gives one connection another's answer |
| FilterCache.FilterDeduplicationCache.TryDedup | vci_proxy/cache_filter_dedup.py:39-64 | A hit is the recorded response under the caller's sequence, or fails when its length cannot be packed; only the counters change |
| FilterCache.FilterDeduplicationCache.RecordResult | vci_proxy/cache_filter_dedup.py:66-86 | Only successes are recorded, in all three maps at once; a body without a channel fails before anything changes |
| FilterCache.FilterDeduplicationCache.OnStopFilter | vci_proxy/cache_filter_dedup.py:92-101 | A known id is removed together with its key from all three maps |
| FilterCache.FilterDeduplicationCache.InvalidateChannel | vci_proxy/cache_filter_dedup.py:103-113 | The channel's keys and their ids go, and nothing else |
| FilterCache.FilterDeduplicationCache.Clear | vci_proxy/cache_filter_dedup.py:115-120 | Everything goes |
| FilterCache.OnStopKeepsConsistent | vci_proxy/cache_filter_dedup.py:92-101 | After a stop the ids still invert the keys, the channel sets still partition them, and exactly the stopped filter is missing |
| FilterCache.InvalidateKeepsConsistent | vci_proxy/cache_filter_dedup.py:103-113 | The same after invalidating a channel, with exactly that channel's keys missing |
| FilterCache.RecordKeepsConsistentIff | vci_proxy/cache_filter_dedup.py:83-86 | Recording keeps the three maps consistent exactly when neither the key nor the id belongs to something else |
| FilterCoherence.ClearFiltersKeepsCoherentIff | vci_proxy/reverse_server.py:930-943 | Clearing filters by IOCTL keeps coherence exactly when the cache holds none for that channel |
| FilterCoherence.StepKeepsCoherentIff | vci_proxy/reverse_server.py:930-956 | Start, Stop, Disconnect, Close and tunnel loss keep every cached entry live on the device for exactly its body; the one exception is exact |
| FilterCoherence.RunKeepsCoherent | vci_proxy/reverse_server.py:897-956 | The same over whole runs |
| FilterCoherence.HitsAreLive | vci_proxy/reverse_server.py:915-918 | After any such run a hit decodes to a success naming a filter live on the device for exactly the requested body |
| FilterCoherence.OvertakenRecordIsStale | vci_proxy/reverse_server.py:954-956 | A second connection's Disconnect that overtakes a recording leaves a hit for a filter the device no longer has |
| FilterSharing.RecordKeepsCoherentIff | vci_proxy/reverse_server.py:954-956 | An answer recorded however late keeps the cache coherent exactly when its filter is still live for the body and the body is not cached under another id |
| FilterSharing.RemoveKeepsCoherentIff | vci_proxy/reverse_server.py:930-943 | A removal carried out however late keeps it coherent exactly when nothing it removes is cached |
| FilterSharing.StepKeepsCoherentIff | vci_proxy/reverse_server.py:1225-1307 | With sending, carrying out and recording as separate steps of any number of connections, those two are the only harmful steps |
| FilterSharing.CoherentThroughoutIff | vci_proxy/reverse_server.py:1225-1307 | A run is coherent from beginning to end exactly when it has no harmful step |
| FilterSharing.RunKeepsOrderly | vci_proxy/reverse_server.py:897-956 | If requests that concern the same filters do not overlap, the cache stays coherent and no request under way can do harm |
| FilterSharing.SharedHitsAreLive | vci_proxy/reverse_server.py:915-918 | After any such run of any number of connections a hit decodes to a success naming a filter live on the device for exactly the requested body |
| FilterSharing.OvertakenStartIsStale | vci_proxy/reverse_server.py:930-956 | A run in which a Disconnect is carried out between start and recording ends in a hit for a filter that is gone |
| FilterSharing.DoubleStartBreaksInverse | vci_proxy/cache_filter_dedup.py:83-86 | A run in which two connections start the same body leaves two ids for one key |
| ReadMsgsCache.BufferEmptyCache.TryServeFromCache | vci_proxy/cache_read_msgs.py:33-74 | A hit needs a BUFFER_EMPTY stamp within its lifetime, answers with no messages and does not refresh the stamp |
| ReadMsgsCache.BufferEmptyCache.RecordResult | vci_proxy/cache_read_msgs.py:76-80 | The last return code and its time replace the channel's stamp |
| ReadMsgsCache.BufferEmptyCache.InvalidateChannel | vci_proxy/cache_read_msgs.py:82-84 | Only that channel's stamp goes |
| ReadMsgsCache.BufferEmptyCache.Clear | vci_proxy/cache_read_msgs.py:86-89 | All stamps go |
| ReadMsgsCache.StepConservesIff | vci_proxy/reverse_server.py:1298-1353 | A step keeps the messages conserved exactly when it is neither a forwarded read that took messages and whose answer is late, too long, or lost with the tunnel, nor a CLEAR_RX_BUFFER that found some |
| ReadMsgsCache.ReadsConserveMessages | vci_proxy/reverse_server.py:907-913 | After every run of one connection, what the DLL decoded from cached and forwarded replies and what the device still holds is in order of arrival with nothing doubled, and is all that arrived exactly when no such read and no such clear happened since the channel was last closed |
| ReadMsgsCache.SlowReadLosesItsMessage | vci_proxy/reverse_server.py:1300-1353 | A read of 31 s takes a message that never reaches the DLL, with the tunnel intact |
| ReadMsgsCache.PollingReachesTheDevice | vci_proxy/cache_read_msgs.py:53-56 | A poll at most delta after the last one comes at most TTL plus delta after the last forwarded read, and is served from the cache only within the TTL of it |
| IoctlCache.ReadOnlyIoctlCache.TryGetCached | vci_proxy/cache_ioctl.py:57-84 | A hit needs a cacheable id and an entry within its lifetime, and returns what was recorded |
| IoctlCache.ReadOnlyIoctlCache.RecordResult | vci_proxy/cache_ioctl.py:86-107 | Only successes of cacheable ids are recorded |
| IoctlCache.ReadOnlyIoctlCache.InvalidateChannel | vci_proxy/cache_ioctl.py:109-113 | Exactly the entries of the channel go |
| IoctlCache.ReadOnlyIoctlCache.Invalidate | vci_proxy/cache_ioctl.py:115-118 | All entries go |
| IoctlCache.HandleIoctl | vci_proxy/reverse_client.py:1085-1113 | The client answers from its cache when asked, or from the device, and remembers only the latter, at the time the driver returned |
| IoctlCache.OneInstantSuffices | vci_proxy/reverse_client.py:1085-1113 | A driver call that takes time has the same effect as one placed at the instant it ends |
| IoctlCache.QuestionIgnores | vci_proxy/j2534_driver.py:596-700 | Absent and empty inputs ask the driver the same, and so do inputs that differ only behind the announced parameters |
| IoctlStaleness.StalenessBound | vci_proxy/reverse_server.py:920-926 | Over all interleavings of connections, timeouts and invalidations, every success given to the DLL was a successful device read of that key at most server TTL + 30 s + client TTL ago, where a cache that is switched off adds nothing |
| IoctlStaleness.NoHitWithoutNewAnswer | vci_proxy/cache_ioctl.py:109-118 | A key that is not in the server's cache is not served from it until a new answer for it arrives |
| IoctlStaleness.InvalidationForgets | vci_proxy/reverse_server.py:932-936 | So after a Disconnect nothing the server recorded before is served for the channel until a new answer arrives |
| IoctlStaleness.DisconnectClears | vci_proxy/reverse_client.py:959-974 | A Disconnect that passes both ends leaves no answer for its channel at either, if none was still coming back |
| IoctlStaleness.NothingReadBeforeDisconnectIsServed | vci_proxy/reverse_client.py:959-974 | From then on every success given to the DLL on the channel was read from the device after the Disconnect |
| IoctlInputs.OneInputSuffices | vci_proxy/cache_ioctl.py:67-68 | When all inputs used with a key ask the driver the same, every success served was read from the device with the question asked |
| IoctlInputs.CachedReplyIgnoresInput | vci_proxy/cache_ioctl.py:67-68 | For any two inputs that ask the driver different things of a key either end can cache, there is a run in which the second is answered with what was read for the first |
| IoctlInputs.OwnAnswersIff | vci_proxy/cache_ioctl.py:57-84 | For every key, set of inputs and configuration of the two caches: all runs answer every request with its own question exactly when the inputs ask the driver the same, or the id is not cacheable, or neither end has an enabled cache with a non-negative TTL |
| ConfigFreshness.NothingLags | vci_proxy/cache_ioctl.py:10-16 | Without a cache that can lag, what a GET_CONFIG says was read no earlier than the device carried out any SET_CONFIG completed before it was asked for |
| ConfigFreshness.ServerLags | vci_proxy/reverse_server.py:958-961 | With a server cache two connections can get an answer recorded after, but read before, a SET_CONFIG, and served behind it |
| ConfigFreshness.ClientLags | vci_proxy/reverse_client.py:1085-1113 | With a client cache one connection that gets, sets and gets again is told the old value |
| ConfigFreshness.FreshAfterSetIff | vci_proxy/cache_ioctl.py:57-84 | For every configuration: in all runs GET_CONFIG is as fresh as the SET_CONFIGs completed before it exactly when neither cache lags |
| ServerCaches.CacheFront.TryServeCached | vci_proxy/reverse_server.py:897-928 | The right cache is asked; a hit is a whole frame under the DLL's sequence, a body too short to decode fails, and no cache content changes |
| ServerCaches.CacheFront.InvalidateCaches | vci_proxy/reverse_server.py:930-943 | The cache contents and the failure on a short body are those of the dispatch that `ServerDispatch.StopDropsExactlyTheFilter`, `CloseForgetsEverything`, `DisconnectForgetsChannel` and `OthersInvalidateNothing` describe request by request |
| ServerCaches.CacheFront.ForgetAll | vci_proxy/reverse_server.py:456-462 | A lost or replaced tunnel, like a Close, empties all three caches |
| ServerCaches.CacheFront.RecordInCaches | vci_proxy/reverse_server.py:945-961 | Each kind of answer is recorded in its own cache under the request's channel and key; a read is recorded whatever the type of its response |
| ServerCaches.CacheFront.HandleRequest | vci_proxy/reverse_server.py:1205-1307 | One round of a connection: a hit is answered and ends it, otherwise the caches are invalidated first and the reply, if one comes, is recorded last |
| ServerCaches.DisconnectForgetsChannel | vci_proxy/reverse_server.py:932-936 | After a Disconnect no cache mentions the channel and every other channel is as it was |
| ServerCaches.RepeatedRequestGetsSameAnswer | vci_proxy/reverse_server.py:897-961 | A forwarded and recorded request that is answered from the caches when repeated tells the DLL what the first answer told it, with no message twice, except exactly a READ_MSGS answer too short to decode |
| ServerDispatch.StopDropsExactlyTheFilter | vci_proxy/reverse_server.py:941-943 | A StopFilter for filter f of channel c, as encoded bytes, removes exactly the entries with id f; every other entry and the two other caches stay, and the three maps stay consistent |
| ServerDispatch.StoppedFilterIsAskedAgain | vci_proxy/reverse_server.py:915-943 | After the stop of a cached filter a StartFilter with the same body goes to the device |
| ServerDispatch.CloseForgetsEverything | vci_proxy/reverse_server.py:937-940 | After a Close no cache mentions any channel |
| ServerDispatch.OthersInvalidateNothing | vci_proxy/reverse_server.py:930-943 | Requests other than Disconnect, Close and StopFilter invalidate nothing |
| ServerDispatch.RecordTouchesOnlyItsOwn | vci_proxy/reverse_server.py:945-961 | An answer is filed under the channel, body or key of its own request, and touches no other entry |
| ServerDispatch.RepetitionIsServedIff | vci_proxy/reverse_server.py:897-961 | A repeated request is served exactly when the recorded answer was BUFFER_EMPTY for a read, a success for a filter, or a success of GET_CONFIG, READ_VBATT or READ_PROG_VOLTAGE, within its TTL; a failed filter or IOCTL leaves it to what was recorded before |
| ServerDispatch.FilterStepIsDispatch | vci_proxy/reverse_server.py:1225-1307 | Each step of the sequential filter runs is what the dispatch does to the filter cache with the encoded request and reply |
| ServerDispatch.FilterRunIsDispatch | vci_proxy/reverse_server.py:1225-1307 | The same for whole runs |
| ServerDispatch.DispatchedHitsAreLive | vci_proxy/reverse_server.py:915-918 | After any run of filter requests through the dispatch, without a clear of a cached channel, the bytes it answers a StartFilter with are a success naming a filter live on the device for exactly that body |
| ServerDispatch.SharedStepsAreDispatch | vci_proxy/reverse_server.py:1225-1251 | Sending a request in the runs of several connections does to the filter cache what the dispatch does, and a hit does nothing |
| ServerDispatch.SharedRecordIsDispatch | vci_proxy/reverse_server.py:954-956 | So does recording an answer in those runs |
| ServerDispatch.ReadStepIsDispatch | vci_proxy/reverse_server.py:907-953 | A read in the message runs is a hit exactly when the dispatch answers it, and leaves the read cache as the dispatch does |
| ServerDispatch.ReadInvalidationIsDispatch | vci_proxy/reverse_server.py:930-940 | Disconnect, Close and tunnel loss in those runs are the dispatch of the encoded requests |
| ServerDispatch.IoctlRequestIsDispatch | vci_proxy/reverse_server.py:920-926 | A request in the IOCTL runs is served exactly when the dispatch answers it, and with the same code and output |
| ServerDispatch.IoctlReceiveIsDispatch | vci_proxy/reverse_server.py:958-961 | An answer that comes back in those runs is recorded as the dispatch records its encoding |
| ServerDispatch.IoctlInvalidationIsDispatch | vci_proxy/reverse_server.py:930-940 | Disconnect, Close and tunnel loss in those runs are the dispatch of the encoded requests |
| TunnelQuality.P95Counts | vci_proxy/tunnel_quality.py:33-38 | The nearest-rank 95th percentile is at most t exactly when at least 95% of the samples are |
| TunnelQuality.PercentileCounts | vci_proxy/tunnel_quality.py:33-38 | For every ratio above 0 and up to 1 the nearest-rank percentile is at most t exactly when at least that share of the values is |
| TunnelQuality.PercentileIsAValue | vci_proxy/tunnel_quality.py:33-38 | The percentile is one of the values |
| TunnelQuality.MedianCounts | vci_proxy/tunnel_quality.py:286-292 | The published median is at most t exactly when at least half of the samples are |
| TunnelQuality.GradeByShare | vci_proxy/tunnel_quality.py:294-302 | A window is good when 95% of its probes took at most 80 ms and not blocked when 95% took at most 150 ms |
| TunnelQuality.CountingStep | vci_proxy/tunnel_quality.py:304-325 | One grade keeps the meaning of candidate and count: how often the candidate has been seen since anything else |
| TunnelQuality.HysteresisFollowsRuns | vci_proxy/tunnel_quality.py:304-325 | The incremental state refines the history: the soft grade is that of the latest run of h equal grades |
| TunnelQuality.ChangesAreRare | vci_proxy/tunnel_quality.py:304-325 | Every change of grade uses up h graded windows of its own |
| TunnelQuality.ChangeTakesWindows | vci_proxy/tunnel_quality.py:304-325 | A grade changes only when the candidate has been seen as often as the hysteresis has windows |
| TunnelQuality.SoftGradeIsSettled | vci_proxy/tunnel_quality.py:224-231 | After any probe history the soft grade is that of the most recent run of h equal full-window grades, or block if there was none |
| TunnelQuality.ProbesChangeGradeRarely | vci_proxy/tunnel_quality.py:224-231 | k probes change the grade at most k/h times |
| TunnelQuality.LastOfIsTheEnd | vci_proxy/tunnel_quality.py:229-231 | The window is the end of the history, as long as it may be |
| TunnelQuality.TunnelQualityTracker.ForgetSamples | vci_proxy/tunnel_quality.py:200-222 | Forgetting the samples forgets history, grade and candidate, and gives the reason |
| TunnelQuality.TunnelQualityTracker.RecordProbe | vci_proxy/tunnel_quality.py:224-231 | A probe extends the history by one, marks the tunnel up, and the stored state stays the one the history determines |
| TunnelQuality.TunnelQualityTracker.AppendSample | vci_proxy/tunnel_quality.py:229-231 | The window always holds the last samples of the history, and is graded exactly when full |
| TunnelQuality.TunnelQualityTracker.ApplySoftGrade | vci_proxy/tunnel_quality.py:304-325 | The in-place update is the hysteresis step, and the reason names the grade unless a change is pending |
| TunnelQuality.TunnelQualityTracker.MarkConnected | vci_proxy/tunnel_quality.py:200-211 | A new epoch starts a new history, the same epoch keeps it |
| TunnelQuality.TunnelQualityTracker.MarkDisconnected | vci_proxy/tunnel_quality.py:213-222 | A disconnect forgets the history and keeps the epoch unless given another |
| TunnelQuality.TunnelQualityTracker.RecordProbeFailure | vci_proxy/tunnel_quality.py:233-236 | A failure is counted and leaves the history alone |
| TunnelQuality.TakeMetrics | vci_proxy/tunnel_quality.py:286-292 | The last sample, the median and the 95th percentile of a window, or nothing of an empty one |
| TunnelQuality.TunnelQualityTracker.TakeSnapshot | vci_proxy/tunnel_quality.py:238-284 | The published grade is that of the most recent run, and block unless connected, fresh, with a full window and no failures, with the reason why; epoch, time and the last, median and 95th percentile of the window are published with it |
| Correlation.ClosureIsReachability | diagnostic_platform/observability_analysis.py:184-210 | A set of reachable events around the seeds that is closed under shared identifiers is the set of all reachable ones |
| Correlation.SortIsStable | diagnostic_platform/observability_analysis.py:82-83 | Sorting by time keeps every copy and leaves events of one instant as they came |
| Correlation.SelectSeeds | diagnostic_platform/observability_analysis.py:175-182 | The search starts at all matching events, or, if a session is named and nothing matches, at those of no session, with all their copies |
| Correlation.Sweep | diagnostic_platform/observability_analysis.py:184-210 | A round adds reachable events only, really adds one when it reports a change, and otherwise has reached the closure |
| Correlation.ExpandRelated | diagnostic_platform/observability_analysis.py:166-212 | The search in memory terminates with exactly the events reachable from its seeds by chains of shared identifiers, in order of time, seeds with all their copies and every other event once |
| Correlation.ScanFile | diagnostic_platform/observability_analysis.py:241-259 | Scanning a file selects every wanted line of it, each once |
| Correlation.ScanRound | diagnostic_platform/observability_analysis.py:240-259 | A round over all files selects every line that matches or is linked to what was known at its start |
| Correlation.StreamRelated | diagnostic_platform/observability_analysis.py:215-261 | The search over files selects exactly the reachable lines, in order of time, each physical line once even if its file is listed twice, however the events are split over files |
| Correlation.SearchesAgreeIff | diagnostic_platform/observability_analysis.py:181-182 | The two searches agree over the same lines exactly outside the fallback to events of no session |
| Correlation.ReExpansionIsStable | diagnostic_platform/observability_analysis.py:363-369 | Searching the streamed events again with identifiers completed from the snapshot neither adds nor removes one |
| Correlation.ReadFiles | diagnostic_platform/observability_analysis.py:354-357 | Without identifiers the events of all listed files are read one file after the other, those of a file listed twice twice, and every line is among them |
| Correlation.AssembleTimeline | diagnostic_platform/observability_analysis.py:339-369 | The timeline is in order of time. From files: if the caller names a session or epoch, exactly the lines that chains lead to from an event carrying it, each once, whatever the snapshot says; if only the snapshot names one, exactly the events that chains lead to from its carriers, or from the sessionless if it names a session nobody carries; otherwise all listed events. From given events the same by what the caller names, or all of them |
| Correlation.SeedsAreStarts | diagnostic_platform/observability_analysis.py:175-182 | The seeds of both searches are the events that carry a named session or epoch, and, for the search in memory only, the sessionless when a session is named that no event carries |
| Correlation.SnapshotDecides | diagnostic_platform/observability_analysis.py:363-369 | Of two unrelated lines of two sessions the timeline started by a session holds that session's line and not the other |
| Correlation.OneIdentifierIsEnough | diagnostic_platform/observability_analysis.py:187-208 | Two events are linked exactly when they share a DLL sequence, a proxy sequence, or a worker request or connection epoch that is not empty |
| NodeAllocation.NodeInventory.SelectNode | diagnostic_platform/node_allocation.py:865-876 | The selected node is healthy and idle and comes before every other such node by zone, metro and id; none is selected only if there is none |
| NodeAllocation.BestIsPreferred | diagnostic_platform/node_allocation.py:865-876 | The node taken is in the preferred zone if an available one is, else in the preferred metro if one is, and the first by id among its equals |
| NodeAllocation.NodeInventory.Claim | diagnostic_platform/node_allocation.py:180-186 | Only a healthy idle node can be claimed, and the claim is on disk when it returns |
| NodeAllocation.NodeInventory.ReleaseNode | diagnostic_platform/node_allocation.py:188-199 | A release sets state and health and forgets the session, in one write |
| NodeAllocation.NodeInventory.BindSession | diagnostic_platform/node_allocation.py:201-204 | Only the node's session changes, in one write; an unknown node fails without one |
| NodeAllocation.NodeInventory.Register | diagnostic_platform/node_allocation.py:206-208 | A node is added in one write |
| NodeAllocation.NodeInventory.MarkReady | diagnostic_platform/node_allocation.py:210-215 | The node becomes healthy, idle and free in one write; an unknown node fails without one |
| NodeAllocation.LeaseStore.Put | diagnostic_platform/node_allocation.py:312-314 | A lease is stored in one write of the other file |
| NodeAllocation.LeaseStore.Delete | diagnostic_platform/node_allocation.py:316-318 | A lease is removed in one write of the other file |
| NodeAllocation.HotPoolAllocator.AllocateNode | diagnostic_platform/node_allocation.py:858-890 | Allocation takes the best node, claims it on disk before it writes the lease, leaves it in use by the session under a lease with the right reason and everything else alone, and fails without a trace when there is none |
| NodeAllocation.HotPoolAllocator.BindLease | diagnostic_platform/node_allocation.py:892-910 | Binding writes the session into the node before the lease, changes nothing else, and fails, writing nothing, on an unknown lease or node |
| NodeAllocation.HotPoolAllocator.ReleaseLease | diagnostic_platform/node_allocation.py:912-928 | Release deletes the lease before it frees the node; on success the node has exactly the requested state and health and no session, and every other node and lease is as before; an unknown node fails after the first write |
| NodeAllocation.BootingNodeReadinessMonitor.PollOnce | diagnostic_platform/node_allocation.py:773-790 | Exactly the booting nodes whose probe answers are promoted, and every file written on the way shows some of these promotions only |
| NodeAllocation.EveryWriteIsCrashSafe | diagnostic_platform/node_allocation.py:876-928 | After each single write every lease names a node of its own that is in use |
| NodeAllocation.RunKeepsSafe | diagnostic_platform/node_allocation.py:218-277 | The same over whole runs with crashes and restarts at any point |
| NodeAllocation.NeverHandsOutLeasedNode | diagnostic_platform/node_allocation.py:865-877 | In every such run a node that is handed out is named by no lease |
| NodeAllocation.PromotionIsCrashSafe | diagnostic_platform/node_allocation.py:773-790 | Any partial promotion of booting nodes keeps the files safe |
| NodeAllocation.SessionsAgreeUnlessTorn | diagnostic_platform/node_allocation.py:892-910 | Leases and nodes keep naming the same sessions exactly unless a session-changing bind is torn by a crash |
| NodeAllocation.NothingLeakedUnlessLeaks | diagnostic_platform/node_allocation.py:912-928 | Every node in use keeps its lease exactly unless an allocation or release is torn, or a caller asks for a node in use without one |
| NodeAllocation.TidyRunsCorrespond | diagnostic_platform/node_allocation.py:858-928 | Over whole runs without those steps, leases and nodes in use correspond one to one and agree on their sessions |
| NodeAllocation.ReleasedIdIsSpent | diagnostic_platform/node_allocation.py:919-923 | An assignment id without a lease can never bind or free a node again |
| NodeAllocation.ReleaseSpends | diagnostic_platform/node_allocation.py:923 | The first write of a release already spends the id |
| NodeAllocation.ReleaseDoesAsAsked | diagnostic_platform/node_allocation.py:188-199 | A completed release gives the lease's node exactly the requested state and health, and touches no other node or lease |
| NodeAllocation.StepKeepsBooting | diagnostic_platform/node_allocation.py:210-215 | A booting node stays booting through every step, torn or not, exactly except one that finds it ready |
| NodeAllocation.BootingIsNotHandedOut | diagnostic_platform/node_allocation.py:773-790 | Over all runs with crashes a booting node can be selected by no allocation until it is found ready |
| NodeAllocation.ReleasedToBootComesBack | diagnostic_platform/runtime/session_bootstrap.py:101-112 | The reprobe recovery: a node released as booting is not handed out, whatever happens in between, until a poll finds it ready, and is then idle and healthy again |
| EventQueue.BoundedQueue.Emit | diagnostic_platform/session_orchestrator.py:178-190 | Consumed and queued events are an in-order subsequence of those emitted, within capacity; each event is consumed, queued, refused or evicted once; only non-terminal ones are refused |
| EventQueue.BoundedQueue.EnqueueTerminal | diagnostic_platform/session_orchestrator.py:192-206 | The eviction loop terminates, evicts the oldest event and appends the terminal one |
| EventQueue.BoundedQueue.Get | diagnostic_platform/session_orchestrator.py:198-200 | The oldest event is consumed |
| Common.SubsequenceDrops | diagnostic_platform/session_orchestrator.py:198-200 | Evicting any one element leaves an in-order subsequence |
| Session.SessionOrchestrator.FindActiveSession | diagnostic_platform/session_orchestrator.py:215-224 | A session that is not over is found if there is one |
| Session.SessionOrchestrator.StartSession | diagnostic_platform/session_orchestrator.py:255-317 | A start is refused while any session is active, and otherwise adds one that runs, waits at its backend gate, or is left pending by a registry that raises |
| Session.SessionOrchestrator.SubmitDecision | diagnostic_platform/session_orchestrator.py:329-415 | Only an offered option of the pending gate is taken, with all error cases; an unknown backend leaves the decision noted and the gate pending |
| Session.SessionOrchestrator.CheckDecisionTimeout | diagnostic_platform/session_orchestrator.py:417-439 | An expired gate is resolved by its fallback, announced first |
| Session.SessionOrchestrator.AbortSession | diagnostic_platform/session_orchestrator.py:441-476 | An active session is aborted, its gate dropped, its end announced and its cleanup scheduled; one that is over is refused |
| Session.SessionOrchestrator.CompleteSession | diagnostic_platform/session_orchestrator.py:478-500 | Any known session is completed, whatever its state; `Session.EndLeaves` and `Session.EndIsTheLastOne` say what that leaves behind |
| Session.SessionOrchestrator.FailSession | diagnostic_platform/session_orchestrator.py:502-535 | Any known session fails, with a failure event and then the final one |
| Session.SessionOrchestrator.EmitProgress | diagnostic_platform/session_orchestrator.py:537-550 | Progress goes to the queue of a known session only |
| Session.SessionOrchestrator.RaiseDecision | diagnostic_platform/session_orchestrator.py:552-570 | Only a running session can be stopped at a gate |
| Session.SessionOrchestrator.ScheduleTerminalCleanup | diagnostic_platform/session_orchestrator.py:241-253 | A new timer replaces the registered one |
| Session.SessionOrchestrator.CleanupSessionState | diagnostic_platform/session_orchestrator.py:226-239 | Session, queue and timer are forgotten together |
| Session.SessionsStayInOrder | diagnostic_platform/session_orchestrator.py:215-224 | After every run at most one session is active, a waiting one has a gate, every decision chose an option of its gate, queues are within capacity, and only sessions that are over have timers |
| Session.RunKeepsInv | diagnostic_platform/session_orchestrator.py:255-570 | The same from any state in order, and no session is revived on the way |
| Session.TerminalIsAbsorbing | diagnostic_platform/session_orchestrator.py:441-535 | A session that is over or forgotten is never active again |
| Session.TimersRemoveOnlyOver | diagnostic_platform/session_orchestrator.py:226-253 | A cleanup timer, even a cancelled one that still runs, removes only a session that is over |
| Session.EndingEventsAreLast | diagnostic_platform/session_orchestrator.py:457-524 | Whatever the queue held, the events that end a session are its suffix |
| Session.TimeoutResolves | diagnostic_platform/session_orchestrator.py:417-439 | Before its time a gate is left alone; after it the fallback, or else the first option, is recorded, and the session runs again exactly when that is not an unknown backend |
| Session.TimeoutAnnounces | diagnostic_platform/session_orchestrator.py:417-439 | A timeout tells the queue that the gate timed out, then that it is resolved, then the option |
| Session.StartLeaves | diagnostic_platform/session_orchestrator.py:255-317 | An accepted start leaves a session that runs its backend, waits at its gate, or is pending after a registry that raised, with the event that says so, and no other session changed |
| Session.AnswerLeaves | diagnostic_platform/session_orchestrator.py:329-415 | An accepted answer is noted with its source, sets the backend exactly for a backend gate, clears the gate and lets the session run |
| Session.WrongAnswerLeavesNothing | diagnostic_platform/session_orchestrator.py:339-357 | An answer to another gate, to none, or with an option not offered changes nothing |
| Session.BackendOptions | diagnostic_platform/session_orchestrator.py:367-383 | "manual" and plain options stand for themselves, "backend:x" for the backend x, which must be known |
| Session.RaiseLeaves | diagnostic_platform/session_orchestrator.py:552-570 | A running session that raises a gate waits at exactly that gate and keeps all else; any other is refused |
| Session.EndLeaves | diagnostic_platform/session_orchestrator.py:441-535 | Complete and Fail set exactly status and error and leave gate, backend and resolutions alone; Abort drops the gate, and refuses a session that is over |
| Session.TellingLeaves | diagnostic_platform/session_orchestrator.py:537-570 | Progress and a raised gate are told to the session's own queue only |
| Session.UnknownSessionIsRefused | diagnostic_platform/session_orchestrator.py:329-570 | Every request for an unknown session fails and changes nothing |
| Session.TimerTakesAll | diagnostic_platform/session_orchestrator.py:226-239 | A cleanup takes the session, its queue and its timer, and nothing of any other session |
| Session.EndIsTheLastOne | diagnostic_platform/session_orchestrator.py:441-535 | After every run a known session is over exactly when a request ended it; it is Completed, Failed or Aborted by the last of Complete, Fail and accepted Abort, and its error is what the last Fail or accepted Abort said, with the default text for an empty reason |
| Session.OverSessionsAreTimed | diagnostic_platform/session_orchestrator.py:241-253 | From the first state on, and over every run, a session that is over and still known has a cleanup timer |
| Session.ActiveUntilEnded | diagnostic_platform/session_orchestrator.py:215-253 | An active session is active until it is aborted, completed, failed or rolled back, and never after |
| Session.RaisingStartBlocks | diagnostic_platform/session_orchestrator.py:257-281 | A start whose registry raises refuses every later start exactly until its own session is ended or rolled back |
| Session.TimeoutsPileUp | diagnostic_platform/session_orchestrator.py:417-439 | k timeouts of a gate whose fallback is an unknown backend note k resolutions, and the gate goes on waiting |
| Session.ResolvedOnceIff | diagnostic_platform/session_orchestrator.py:329-415 | A gate is resolved at most once in every run exactly when the registry can take each of its options |
| Planner.ScoreOption | backends/gds2/planner.py:116-148 | The score is that of what comparing the two texts finds, and each of the five reasons is given exactly for its finding; without any the score is 0 |
| Planner.OverlapIffShared | backends/gds2/planner.py:169-179 | There is a token overlap exactly when a token is shared |
| Planner.ExactMatchScoresFull | backends/gds2/planner.py:116-156 | An option that differs from the target only in case, spacing and punctuation scores 1 |
| Planner.CaseIsIgnored | backends/gds2/planner.py:150-167 | Case plays no part in the comparison, in the target or in the option |
| Planner.SurroundingSpaceIsIgnored | backends/gds2/planner.py:151-156 | White space around a text plays no part |
| Planner.NormalizedCharacters | backends/gds2/planner.py:151-156 | A normalised text has small letters, digits, underscores, hyphens and blanks only |
| Planner.NormalTextStays | backends/gds2/planner.py:151-156 | A text of those characters, with single blanks inside, is left alone |
| Planner.OnlyPunctuationGoes | backends/gds2/planner.py:155 | Exactly the characters other than word characters, white space and hyphens are taken out |
| Planner.KeepWordsAppend | backends/gds2/planner.py:155 | They are taken out one by one, whatever stands around them |
| Planner.FindingsMean | backends/gds2/planner.py:117-146 | Exact, substring and prefix are equality, one text inside the other in either direction, and the option continuing the target, of the normalised texts |
| Planner.BracketedCodeIsFound | backends/gds2/planner.py:158-162 | A code between the first brackets is the module code |
| Planner.BareWordIsCodeIff | backends/gds2/planner.py:164-167 | A whole word is a module code exactly when it is one or two letters, two or three digits and perhaps a letter |
| Planner.EachFindingAdds | backends/gds2/planner.py:120-148 | Nothing found scores 0, and each finding adds its own weight up to the cap of 1 |
| Planner.RankSorts | backends/gds2/planner.py:69-76 | Ranking orders the scored options by descending score and loses none |
| Planner.DecideBranch | backends/gds2/planner.py:39-114 | The branches of the decision: blank target, no options, low confidence, contested, taken |
| Planner.AskedExactlyWhen | backends/gds2/planner.py:39-114 | A human is asked exactly when there is no target, nothing to choose from, too little confidence, or a second option too close and good enough; otherwise the best is taken |
| Planner.AskingIgnoresOrder | backends/gds2/planner.py:69-104 | Whether a human is asked, and the confidence, never depend on the order of the options |
| Planner.AutoSelectionIsUnique | backends/gds2/planner.py:78-104 | From 0.45 on, an option taken without a human scores strictly more than all others, each of which is a gap below it or under the second threshold |
| Planner.SelectionIgnoresOrder | backends/gds2/planner.py:69-114 | From 0.45 on, every permutation of the options selects the same one |
| Planner.LongerCompares | backends/gds2/planner.py:116-179 | Comparing a k-word target with an option of one word of its own and n words that contain the target finds a substring and k of n + 1 tokens, nothing else |
| Planner.LowConfidenceDependsOnOrder | backends/gds2/planner.py:89-92 | For every confidence below 0.45 there are a target and two options, as texts, whose order decides |
| Planner.OrderIndependentIff | backends/gds2/planner.py:89-104 | So the choice is independent of order exactly from 0.45 on |
| RotatingLog.RotatingWriter.RotationTarget | diagnostic_platform/observability.py:264-273 | The name search terminates with the first index of that second that neither a plain nor a compressed archive has |
| RotatingLog.RotatingWriter.Rotate | diagnostic_platform/observability.py:275-291 | An empty file is left alone; any other becomes one archive under a new name, compressed if asked for with the plain one removed, and the current file is empty |
| RotatingLog.RotatingWriter.WriteLine | diagnostic_platform/observability.py:293-302 | The line, with its newline, ends up last in the current file, after a rotation exactly when it would not fit, and the files stay sound |
| RotatingLog.LineEndsWithNewline | diagnostic_platform/observability.py:293-294 | A written line ends with a newline, its own or exactly one it is given |
| RotatingLog.RotationKeepsSound | diagnostic_platform/observability.py:275-291 | A rotation under a new name loses and reorders nothing and keeps the segment bound |
| RotatingLog.WriteKeepsSound | diagnostic_platform/observability.py:293-302 | A write does the same |
| RotatingLog.WritesAreConserved | diagnostic_platform/observability.py:243-302 | After any sequence of writes the segments in order followed by the current file are what was there and then every line written |
| RotatingLog.SegmentsFitIff | diagnostic_platform/observability.py:293-302 | From opening on, after any writes, every segment and the current file are within the bound or one oversized line, exactly when the file that was found is |
| RotatingLog.FoundOverBoundStays | diagnostic_platform/observability.py:293-302 | A file of two lines found over the bound becomes a segment over it with the first write |

## Left out

- Sockets, asyncio scheduling, TLS, authentication, threads and the emission of log events: each handler step is atomic, with nondeterministic delivery, loss and timeouts. Tearing a tunnel down, and timing out and popping a future, are single steps.
- The J2534 driver and its worker process: a device with live filters, a receive queue and IOCTL answers stands for them, and of the driver's IOCTL only what it makes of the input. Messages a device drops on its own count as never arrived.
- The client's one-at-a-time request loop: the tunnel model lets the client answer requests in any order, which allows more runs.
- The SHA-256 key of the filter cache: taken to be injective, so the body is its own key.
- Floating point: times, scores and percentiles are exact reals, and the double in a timing trailer is eight opaque bytes.
- Messages with 2^32 data bytes or more, and message dictionaries with missing entries: the message type excludes the first and has the defaults filled in.
- Fixed-width codecs (open, connect, version, authentication): they would add only easy members.
- The benchmark summaries, reports and the interpolating percentile of `vci_proxy/benchmark.py`: single-pass bookkeeping.
- The read-voltage cache of `vci_proxy/cache_vbatt.py`: the IOCTL cache covers its id.
- JSON text, stripping of strings on reload, and a write of a single file that is itself torn: a file write is atomic.
- Node, lease and session objects as shared references: they are values, so changes through an alias are not captured. Node ids are numbers in the order of the id strings.
- The session queues are values inside the orchestrator, updated by the same `Push` that is proved of `BoundedQueue`; a consumer that races inside the eviction loop is not modelled.
- Session capabilities, results and the text of events.
- Zone catalogue defaults, AWS launches, HTTP readiness probes: their outcomes are parameters.
- Event texts of timestamps, domain classification and derived metrics; in which order the search in memory appends events of one instant that are not seeds.
- Reading and rewriting quality snapshots as files.
- Texts of the planner outside ASCII.
- Platform newline translation in the log writer.
- Tunnel.ReverseServer.CancelPendingFutures: the caches that the same method empties are a class of their own, `ServerCaches.CacheFront.ForgetAll`.
- Tunnel.ReverseServer.AcceptTunnel: whether a second tunnel is accepted is left open, so either may happen; the connection epoch and the probe task are not part of the tunnel state.
- RotatingLog.RotatingWriter.Rotate: compression is taken to keep the lines, and its bytes are not modelled.
- Correlation.AssembleTimeline: the timeline only, not the summary fields derived from it.
