# rmtt-go, verified

rmtt-go is a client/server messaging library: a client keeps one framed connection to
a server, keeps it alive with a fixed or an adaptive heartbeat, reconnects with
backoff, and the server keeps at most one session per device. This project models the
parts where those promises are decided and proves them in Dafny.

`dafny verify dfyconfig.toml` checks everything.

| module | what it models |
|---|---|
| `Status`, `StatusRuns`, `StatusReplies`, `StatusProgress` | the connection-status protocol: its critical sections in place, every interleaving of any number of goroutines, what the answers mean, and when a disconnect ends |
| `ClientConn` | the connection handle (`conn`, `stop`, `connMu`) driven by that protocol |
| `Adaptive`, `AdaptiveRuns`, `AdaptiveSettling`, `AdaptivePeriods`, `AdaptiveIdle`, `AdaptivePromise`, `AdaptiveReaping`, `AdaptiveDead` | the adaptive heartbeat, its timed runs against the server's reaper, where and when it settles, and how it notices a dead link |
| `FixedHeartbeat`, `KeepaliveNegotiation` | the fixed heartbeat, and what the negotiated keepalive means for either |
| `Bits`, `Stream`, `LengthField`, `Codec`, `WireFormat`, `Packets` | bytes, chunked streams, the length field, the six packets, their wire format, `ReadPacket` |
| `WriteLock` | several writers of one connection, of the client or the server, with and without its lock, whose writes may fail |
| `Sessions`, `Takeover` | the connection store, device connections, and all interleavings of registration, takeover, kick, reaping and handler exit |
| `Backoff` | the reconnect backoff with its jitter and its reset |

Shared state that the source guards with a lock is a class whose methods are the
critical sections; each method is tied to a function on values, and the runs are
sequences of those functions. The channels of client/status.go are numbered in the
order they are made, and closing a nil or closed channel is recorded as a panic that is
then proved never to happen. Times are whole milliseconds in the heartbeat modules and
whole nanoseconds in `Backoff`.

Where the code and its documentation differ, the code is modelled:

- The fine-tuning phase of the adaptive heartbeat is never entered
  (`AdaptiveRuns.PhasesBounded`), so the settled interval is nine tenths of the last
  doubling, not of the sustainable maximum. `AdaptivePromise.NinetyPercentExactly` says
  when the value chosen meets the documented one. On a link without other traffic a value
  below the ceiling is not kept either: the failed probe has left the last reception too
  far behind, and the search starts anew before the first ping
  (`AdaptiveIdle.UnusedBelowCeiling`, `AdaptivePromise.UsedExactly`).
- A client can be left in `disconnecting` for good. `StatusProgress` says from exactly
  which states, and how they arise.
- `errConnLossWhileDisconnecting` and `errAlreadyHandlingConnectionLoss` are declared in
  client/status.go but no call returns them; a loss during a disconnect reports that the
  disconnect is in progress.
- A PUSH puts the next ping off while the time without reception goes on, so a single
  PUSH more than a quarter of the heartbeat after a ping can make the client give up a
  link that answers all it is asked (`FixedHeartbeat.FixedNeverLostExactly`).
- While a client PUSHes at least once per interval the adaptive heartbeat sends no doubling
  probe, and in that phase nothing else looks at the last reception, so a dead link can go
  unnoticed (`AdaptiveDead.DeadLinkNoticedExactly`).
- A second disconnect that meets the end of a connect attempt waits on a nil channel and
  never returns (`StatusProgress.CallReturnsExactly`).
- A client whose heartbeat is turned off is reaped unless the server agrees, which the
  default policy does not (`KeepaliveNegotiation.DefaultPolicySafe`).
- A backoff maximum of 2^62 ns already overflows; `Backoff.RangeExactly` has the bound.
- With the default options the jitter of a 128 s backoff can itself trigger the reset to
  one second (`Backoff.DefaultsCanReset`).

## Model

| member | source | states |
|---|---|---|
| `Status.StatusCell.StartConnecting` | client/status.go:70-83 | a connect attempt is granted from disconnected only, with a new channel; any other status is left unchanged and refused, established connections with a different error than the rest |
| `Status.StatusCell.ConnectCompleted` | client/status.go:85-102 | the attempt's channel is closed and dropped; the status becomes connected or disconnected unless a disconnect has overtaken it |
| `Status.StatusCell.StartDisconnecting` | client/status.go:104-134 | the part before the wait: whom the call waits for, or its grant, and the effect on status and reconnect intent |
| `Status.StatusCell.DisconnectionCompleted` | client/status.go:136-142 | disconnected, channel closed and dropped |
| `Status.StatusCell.StartConnectionLost` | client/status.go:144-162 | the part before the wait: refusal, grant, or the attempt to wait for |
| `Status.StatusCell.ResumeConnectionLost` | client/status.go:162-170 | the part after the wait: gives up without reconnect, else a new channel and the grant |
| `Status.StatusCell.ConnectionLostHandled` | client/status.go:172-190 | reconnecting if still wanted, else disconnected with the channel closed; the error tells a disconnect request from a plain end |
| `StatusRuns.StepKeepsInv` | client/status.go:70-190 | one inductive invariant of all statuses, callbacks, waiting calls and channels, kept by every step of every goroutine |
| `StatusRuns.ObligationsExact` | client/status.go:70-190 | in every reachable state exactly one callback is outstanding iff the channel is not nil, at most one call waits to take over, never on a nil channel, and no close ever panics |
| `StatusRuns.DisconnectWins` | client/status.go:104-190 | after a disconnect request the client is not connected, connecting or reconnecting in any later state until a connect is accepted again |
| `StatusRuns.LossReconnects` | client/status.go:144-190 | the converse: a loss found while connected, connecting or reconnecting that asks for a reconnect ends in reconnecting once it is handled, whatever is called meanwhile but a disconnect; while it still waits for an attempt, the end of that attempt gives it the handler |
| `StatusReplies.RepliesFollow` | client/status.go:70-170 | after any run, the answer to the next connect, disconnect or loss call and to the end of an attempt follows from the calls made so far and the answers they got, for every answer and refusal |
| `StatusReplies.ReportsFollow` | client/status.go:58-68 | so do the status and the reconnect intent that the client reports |
| `StatusReplies.AbortedExactly` | client/status.go:85-102 | an attempt, first or reconnect, is told it was aborted iff someone called for a disconnect or reported a loss while it ran; otherwise its own success decides the status |
| `StatusReplies.RequestedExactly` | client/status.go:172-190 | whoever handles a loss is told of a requested disconnect iff a reconnect was wanted, the workers were live and someone called for a disconnect since the loss; without such a call it reconnects, else the loss just ends |
| `StatusReplies.WaitedExactly` | client/status.go:118-134 | a disconnect that waited for an attempt is told "already disconnected" iff that was a reconnect and another disconnect was called for meanwhile |
| `StatusProgress.DoomedForever` | client/status.go:104-190 | a disconnecting client with nobody left to finish stays disconnecting in every run |
| `StatusProgress.DoomArisesExactly` | client/status.go:104-170 | the two kinds of call that bring this about, and no other step does |
| `StatusProgress.CompletionsEnd` | client/status.go:85-190 | without new calls every run is bounded by a rank that each completion lowers |
| `StatusProgress.SettlesExactlyUnlessDoomed` | client/status.go:85-190 | once all outstanding work is done, in any order, the client is connected or disconnected iff it was not doomed |
| `StatusProgress.SettlingRunExists` | client/status.go:85-190 | outstanding work can always be carried to its end |
| `StatusProgress.NilCapturedExactly` | client/status.go:104-116 | a disconnect captures a nil channel iff it finds the status disconnecting while nobody holds a callback |
| `StatusProgress.NilPassiveStays` | client/status.go:110-116 | such a call never returns in any run, and no completion makes another |
| `StatusProgress.CallReturnsExactly` | client/status.go:104-190 | once all outstanding work is done, in any order, a call has returned iff it had not captured a nil channel |
| `StatusProgress.SecondDisconnectCanHang` | client/status.go:110-131 | a run from the start: of two disconnects during a connect attempt the first succeeds and the second hangs |
| `StatusProgress.DisconnectingCanLastForever` | client/status.go:158-166 | a loss without reconnect during the first connect attempt leaves the client disconnecting for good |
| `ClientConn.HandleCell.StartWorkers` | client/client.go:128-150 | installs the connection and a new stop channel, unless one is in place |
| `ClientConn.HandleCell.StopCommsWorkers` | client/client.go:338-363 | closes the stop channel and drops the connection, if there is one |
| `ClientConn.ActKeepsInv` | client/client.go:128-150 | the joint invariant of status, handle and `connMu`, kept by every step of connect, reconnect, disconnect and loss handling |
| `ClientConn.HandleFollowsStatus` | client/client.go:338-377 | connected means a connection, disconnected means none, "already running" is dead code, and every connection started but the current one had its stop channel closed exactly once |
| `ClientConn.ReconnectPersists` | client/client.go:611-648 | in every run without a connect, disconnect or loss report a reconnecting client is reconnecting or connected at the end |
| `ClientConn.LostConnectionRetried` | client/client.go:567-609 | when a connected client loses its connection and wants it back, stopping the workers finds them live and the client reconnects, in every run without a disconnect request |
| `ClientConn.NothingLostGivesUp` | client/client.go:578-585 | a loss with no connection to stop ends disconnected, even if a reconnect was wanted |
| `ClientConn.ClientUsesProtocol` | client/client.go:567-609 | every run of the client is a run of the status protocol, so its theorems apply |
| `ClientConn.OrphanedForever` | client/client.go:567-585 | after a doomed disconnect nothing touches the connection or its stop channel again |
| `ClientConn.OrphanWithLiveConnection` | client/client.go:128-150 | that connection can be a live one |
| `Adaptive.Configure` | client/keepalive.go:102-141 | disabled, fixed or probing, exactly by the negotiated keepalive and the options; the probing range and that it forces a keepalive of two seconds or more |
| `Adaptive.AdaptiveKeepalive.constructor` | client/keepalive.go:143-149 | the loop starts in the short phase with nothing awaited |
| `Adaptive.AdaptiveKeepalive.TickShort` | client/keepalive.go:195-215 | an answered probe counts towards the doubling phase, an unanswered one is a lost connection after the window, and silence of one interval sends the next |
| `Adaptive.AdaptiveKeepalive.TickProbe` | client/keepalive.go:216-243 | an answered probe raises the interval or settles when it cannot grow, an unanswered one settles after the window, and silence of one interval sends the next |
| `Adaptive.AdaptiveKeepalive.TickStable` | client/keepalive.go:244-256 | one and a half settled intervals without reception start over, and one of own silence sends a ping |
| `Adaptive.AdaptiveKeepalive.SettleDown` | client/keepalive.go:162-176 | nine tenths of the last success, at least the short period, and no probe outstanding |
| `Adaptive.AdaptiveKeepalive.Tick` | client/keepalive.go:188-259 | the tick of whichever phase the loop is in, nothing after a declared loss |
| `AdaptiveRuns.PhasesBounded` | client/keepalive.go:143-257 | in every run: no fine-tuning, doubling probes between the last success and its double, stable intervals within short period and ceiling |
| `AdaptiveRuns.DoublingAdvances` | client/keepalive.go:217-235 | an answered doubling probe moves strictly towards the ceiling or settles there |
| `AdaptiveRuns.PingsRemembered` | client/keepalive.go:162-186 | in every phase a ping is remembered as awaited from its tick on, and a stable phase begins with nothing awaited |
| `AdaptiveRuns.FineKnowsNoCeiling` | client/keepalive.go:228-235 | the fine-tuning phase, were it entered, would raise the interval past any ceiling |
| `AdaptiveRuns.SilenceBounded` | client/keepalive.go:188-259 | in every run, for any window, the silence of the client stays below max(ceiling + 500, window + 750) ms, in any mix of probes, PUSHes, failures and re-adaptation |
| `AdaptiveRuns.NeverReaped` | server/server.go:236-266 | which the server tolerates when the window is at most 1.5 keepalives less 750 ms |
| `AdaptiveReaping.NeverReapedExactly` | server/server.go:236-266 | no run is ever reaped iff the response window is at most 1.5 keepalives less 750 ms |
| `AdaptiveSettling.DoublingsLeast` | client/keepalive.go:223-227 | the number of doublings to the ceiling is the least possible |
| `AdaptiveSettling.SettlingQuality` | client/keepalive.go:162-243 | on a link good up to some limit, the interval chosen on entering the stable phase is nine tenths of the best doubling, never above the limit, at least 45% of the limit or the ceiling up to half a millisecond, after at most k + 1 probes |
| `AdaptivePromise.SettlingPossible` | client/keepalive.go:188-259 | on a link with any given limit the search can always run its course, on an idle one too |
| `AdaptivePromise.NinetyPercentExactly` | client/keepalive.go:98-101 | the interval chosen on entering the stable phase is the documented 90% of the sustainable maximum or more, in every run, iff that maximum is a doubled interval or close to the short period |
| `AdaptiveIdle.UnusedBelowCeiling` | client/keepalive.go:244-256 | on an idle link that answers within half the short period, no tick of any run sends a ping in a stable phase entered below the ceiling; when one would be due the search starts anew |
| `AdaptivePromise.UsedExactly` | client/keepalive.go:216-256 | so on such a link a ping of the stable phase is ever sent iff the link sustains the ceiling |
| `AdaptivePromise.NinetyPercentCanFail` | client/keepalive.go:98-101 | a run from 10 s to 300 s on a link good for almost 160 s that chooses 72 s |
| `AdaptiveSettling.SettlesAtCeiling` | client/keepalive.go:162-256 | on a link that answers every probe in time, an idle client reaches the stable phase within an explicit time and stays there at nine tenths of the ceiling |
| `AdaptiveSettling.AnsweredNeverLost` | client/keepalive.go:195-257 | if each probe is answered by the next tick, and whatever is PUSHed, no loss is declared and the stable phase is entered at the ceiling only |
| `AdaptiveDead.DeadLinkNoticedExactly` | client/keepalive.go:188-259 | from every reachable state, once nothing more is received the loop ticks for at most an explicit time, iff PUSHes come more than the ceiling after the packet before them; closer ones can put off a long probe for ever |
| `AdaptiveDead.LoopGoesOn` | client/keepalive.go:188-212 | the loop can always tick once more unless it has declared the loss |
| `AdaptiveDead.LostExactly` | client/keepalive.go:195-212 | a run ends in a loss iff some probe of the short phase went a whole window without any reception after it |
| `FixedHeartbeat.FixedKeepalive.Tick` | client/keepalive.go:280-297 | one check: ping after a heartbeat of silence, loss after one and a half without reception |
| `FixedHeartbeat.FixedSilence` | client/keepalive.go:264-291 | for keepalives of two seconds or more the client is silent for less than kp + max(1, kp/4) seconds, whatever it PUSHes |
| `FixedHeartbeat.FixedNeverReapedExactly` | server/server.go:236-266 | no run is ever reaped iff the keepalive is not one second |
| `FixedHeartbeat.NegotiatedNeverReapedExactly` | client/keepalive.go:23-28 | with both the negotiated keepalive and the client's own heartbeat, and the server's timer armed from the former alone: whatever the latter, no run is reaped iff the negotiated keepalive is not one second |
| `FixedHeartbeat.GapBounded` | client/keepalive.go:23-28 | the silence stays below kp + max(1, kp/4) s for the heartbeat in force, which is the client's own if the server has disabled its |
| `FixedHeartbeat.OneSecondReaped` | client/keepalive.go:270-291 | with one second, a PUSH at the wrong moment gets the client reaped |
| `FixedHeartbeat.FixedNeverLostExactly` | client/keepalive.go:60-82 | on a link that answers each ping before the next check, with PUSHes at most g ms after a ping, no run declares a loss iff g is at most the grace; for a negative g the client only pings |
| `FixedHeartbeat.PushGraceIs` | client/keepalive.go:47-50 | the grace is a quarter of the heartbeat from four seconds on, one second for three, and none below |
| `FixedHeartbeat.LastChanceIsLast` | client/keepalive.go:77-81 | the last check after a ping at which no loss can be declared yet |
| `FixedHeartbeat.LatePushDeclaresLoss` | client/keepalive.go:69-81 | for every keepalive, a run with exactly one PUSH, a millisecond past the grace, in which the client gives up a link that answers all it is asked |
| `KeepaliveNegotiation.Decide` | server/keepalive.go:27-41 | the nearest allowed keepalive to a positive proposal; zero only if disabling is asked for and allowed |
| `KeepaliveNegotiation.NegotiatedSafety` | client/client.go:141-146 | for every policy and every client, adaptive, fixed or without a heartbeat, exactly when it is safe from the reaper |
| `KeepaliveNegotiation.DefaultPolicySafe` | server/keepalive.go:16-23 | under the default policy, with a response window up to 44.25 s, a client is safe iff its heartbeat is not turned off |
| `KeepaliveNegotiation.ProposalHonoured` | client/client.go:237-241 | a client whose wish lies within the policy gets it: its heartbeat, or room to probe up to its maximum |
| `Stream.ReadOnceConserves` | server/wsconn.go:18-29 | one read delivers the next bytes of the stream, at least one if asked, and fails only at its end |
| `Stream.ReadOnceFills` | client/net.go:165-176 | a read never goes past the end of a message, and short of that it fills the slice |
| `Stream.ReadsConserveStream` | client/net.go:165-176 | for any messages, empty ones included, and any read sizes: bytes read, buffer and unread messages are the original stream |
| `Stream.StreamConn.Read` | server/wsconn.go:18-29 | the refill loop and the buffer after it |
| `Stream.StreamConn.ReadFull` | codec/codec.go:46-53 | a full read over pieces of any size equals one on the flat stream, errors included |
| `Stream.StreamConn.ReadByte` | codec/codec.go:29-34 | the first byte of the stream, or EOF exactly at its end |
| `LengthField.EncodeLength` | codec/codec.go:66-80 | the loop writes the base-128 digits, least significant first, all but the last marked |
| `LengthField.DecodeLength` | codec/codec.go:94-112 | the shift-and-or loop reads the base-128 sum of at most four digits and consumes just those |
| `LengthField.NextDigit` | codec/codec.go:98-110 | one turn of that loop on the stream: the first byte is consumed and joined, or the end of the stream reported |
| `LengthField.JoinDigit` | codec/codec.go:104-109 | the digit is added with its weight, and whether it was the last |
| `LengthField.DigitJoins` | codec/codec.go:104-105 | a digit shifted and or-ed into a 32-bit word is added with its weight, without overflow |
| `LengthField.DecodeBounded` | codec/codec.go:94-112 | at most four bytes, a value below 128 to that power |
| `LengthField.LengthRoundTripsExactly` | codec/codec.go:66-112 | a length is recovered iff it is below 2^28 |
| `LengthField.EncodingShortest` | codec/codec.go:94-112 | re-encoding a decoded length never takes more bytes than were read |
| `Codec.FrameConsumedExactly` | codec/codec.go:27-57 | a complete frame of a known type is consumed exactly, also when its body cannot be unpacked |
| `Codec.ReadFramed` | codec/codec.go:190-207 | what arrives of any frame that announces its own body: the packet with its credential cut to 16 bits of length and a PUSH's reserved byte zeroed |
| `Codec.NotFramedOutOfStep` | codec/codec.go:59-112 | a body too long for the length field, or a ping with a length of its own, is never read back as sent with the right rest |
| `Codec.RoundTripsExactly` | codec/codec.go:27-92 | a packet followed by any bytes is read back unchanged with those bytes left iff it is well formed |
| `Codec.StrictPrefixFails` | codec/codec.go:27-57 | a frame cut anywhere yields an error and no packet |
| `Codec.SequenceRoundTrips` | codec/codec.go:27-92 | any sequence of well-formed packets followed by any bytes is read back as that sequence with those bytes left |
| `WireFormat.LengthBytes` | codec/codec.go:66-80 | the one to four bytes of a length: least significant digit first, all but the last marked |
| `WireFormat.LengthRead` | codec/codec.go:94-112 | what any bytes mean as a length |
| `WireFormat.ConnectBytes` | codec/connect.go:19-34 | a written CONNECT byte by byte: type, length, magic number, version, reserved byte, keepalive and credential length in network order, credential |
| `WireFormat.ConnackBytes` | codec/connack.go:16-28 | a written CONNACK byte by byte |
| `WireFormat.PushBytes` | codec/push.go:16-29 | a written PUSH byte by byte |
| `WireFormat.SmallBytes` | codec/disconnect.go:15-23 | PINGREQ, PINGRESP and DISCONNECT as literal bytes |
| `WireFormat.ConnectBodyRead` | codec/connect.go:36-62 | what any bytes mean as a CONNECT body, with the error for each place they can end |
| `WireFormat.ConnackBodyRead` | codec/connack.go:30-42 | what any bytes mean as a CONNACK body |
| `WireFormat.BytesRead` | codec/codec.go:27-57 | the reader on arbitrary bytes: refusals, errors, the packet by its bytes, and what is left of the stream |
| `WireFormat.ConnackRead` | codec/connack.go:30-42 | the packet that a CONNACK of any three bytes yields |
| `WireFormat.ConnectRead` | codec/connect.go:36-62 | the packet that a short CONNECT of any fields yields |
| `Packets.Pack` | codec/codec.go:59-64 | the header bytes |
| `Packets.ConnectPacket.Write` | codec/connect.go:19-34 | one slice holding the encoding, and the remaining length set |
| `Packets.ConnectPacket.Unpack` | codec/connect.go:36-62 | fields and errors as the byte format has them |
| `Packets.ConnackPacket.Write` | codec/connack.go:16-28 | one slice holding the encoding, remaining length 3 |
| `Packets.ConnackPacket.Unpack` | codec/connack.go:30-42 | fields and errors as the byte format has them |
| `Packets.PushPacket.Write` | codec/push.go:16-29 | one slice holding the encoding, remaining length one more than the payload |
| `Packets.PushPacket.Unpack` | codec/push.go:31-45 | on the buffer `ReadPacket` makes, the reserved byte and all the rest as payload, the empty payload included |
| `Packets.DisconnectPacket.Write` | codec/disconnect.go:15-23 | one slice holding the encoding, remaining length 1 |
| `Packets.DisconnectPacket.Unpack` | codec/disconnect.go:25-34 | the reason, or the error of an empty body |
| `Packets.PingPacket.Write` | codec/pingreq.go:10-15 | a bare header with the remaining length it holds |
| `Packets.UnpackBody` | codec/codec.go:134-152 | the packet object of each known type holds what its body says |
| `Packets.ReadControlPacket` | codec/codec.go:27-57 | on a connection that delivers its bytes in any pieces, the result and the rest that the flat stream determines |
| `WriteLock.PeerDecodesShuffle` | client/net.go:415-513 | at every moment of every interleaving, with writes failing at any point and writes past the lock, the peer reads all packets completed before the stream was torn, each writer's in order, only failed ones missing; while nothing is torn these are all, and no packet can be read from the rest |
| `WriteLock.RightExactly` | client/net.go:336-347 | for every run, whatever is written under the lock and with PINGREQ, PINGRESP or DISCONNECT written past it: the wire holds exactly the completed frames in order and a beginning of the current one iff no write has failed, or gone past the lock, while a frame was partly out; once wrong it is never right again |
| `WriteLock.PushCanSlipIn` | server/server.go:273-276 | the packets past the lock have to be bare ones for that: a run in which a PUSH slips into another and the wire is right all the same |
| `WriteLock.UnlockedWriteCorrupts` | client/net.go:336-347 | a run with a DISCONNECT written past the lock into a PINGREQ: both are complete and the peer can read neither |
| `WriteLock.FailedWriteCorrupts` | client/net.go:450-467 | a run that goes on writing after a write that failed part-way: the peer cannot read the next packet |
| `Sessions.ConnectionStore.Register` | server/store.go:21-27 | the device maps to the new connection; the previous one is returned |
| `Sessions.ConnectionStore.Get` | server/store.go:30-35 | the registered connection, if any |
| `Sessions.ConnectionStore.Remove` | server/store.go:39-47 | removes the entry iff it is this connection, and says whether it did |
| `Sessions.ConnectionStore.All` | server/store.go:50-58 | every registered connection, as many as there are devices |
| `Sessions.DeviceConnection.Write` | server/conn.go:54-67 | one PUSH frame while active, an error and nothing sent afterwards |
| `Sessions.DeviceConnection.SendDisconnect` | server/conn.go:69-79 | one DISCONNECT frame while active, nothing afterwards |
| `Sessions.DeviceConnection.Close` | server/conn.go:81-85 | inactive afterwards; the socket is closed once however often it is called |
| `Takeover.StepKeepsInv` | server/server.go:206-246 | the invariant of store, connections and closing goroutines, kept by every step |
| `Takeover.TakeoverSafe` | server/server.go:105-232 | a store entry is the latest connection of its device under its own non-empty ID; any other active one is being taken over; none is taken over twice |
| `Takeover.LatestStaysReachable` | server/store.go:37-47 | no old handler and no kick of an old session evicts the latest active connection |
| `Takeover.OneSessionPerDevice` | server/server.go:206-217 | once takeovers are through, a device has at most one active connection |
| `Takeover.StoreDoesNotLeak` | server/server.go:226-232 | a connection is in the store only while its handler runs, and with all handlers gone the store is empty |
| `Takeover.CloserAchieves` | server/server.go:105-115 | a kick, timer or takeover that is done leaves its connection closed in every later state, a kicked one out of the store, and if it closed it itself its DISCONNECT went out; a kick that found the connection inactive has done nothing |
| `Takeover.KickOfInactive` | server/server.go:106-109 | a kick of an inactive connection leaves everything as it is |
| `Takeover.ClosedForGood` | server/conn.go:69-85 | nothing is sent on a closed connection, and it stays closed by whoever closed it |
| `Takeover.ClosersFinish` | server/server.go:105-246 | left to run, in any order, kicks, timers and takeovers end after a bounded number of steps, and then every kicked, reaped or superseded connection is closed |
| `Backoff.BackoffController.GetBackoffSleepTime` | client/backoff.go:33-76 | the entry, the sleep and whether the error is a continued one |
| `Backoff.DoublingInRangeExactly` | client/backoff.go:69-73 | doubling overflows iff the period has reached 2^62 ns |
| `Backoff.HistoryExactly` | client/backoff.go:33-76 | every history on a clock that does not go back, below the overflow bounds: the first period, which errors count as continued ones, and each period from the one before it |
| `Backoff.LargestNeverResets` | client/backoff.go:57-62 | the time between two errors saturates, so the largest threshold never resets |
| `Backoff.RangeExactly` | client/backoff.go:45-76 | for all durations: every sleep of every history on a clock that does not go back lies in [0, max] iff max is below 2^62 ns, or init is zero, or the reset threshold overflows on the way up |
| `Backoff.JitterBounds` | client/backoff.go:25-31 | the jittered sleep is at least 3/4 of the period, rounded down, and below 5/4 of it |
| `Backoff.NeverResetsExactly` | client/backoff.go:57-62 | no jitter draw and no attempt within its time triggers the reset iff the period is at most 4 attempt times plus 4 ns |
| `Backoff.ExponentialUnlessReset` | client/backoff.go:45-76 | whenever the errors come, if none resets the sleeps are init * 2^k up to the maximum, shifted by one after a skipped first sleep |
| `Backoff.ExponentialUnderJitter` | client/backoff.go:45-86 | a run of failures has these sleeps, whatever the jitter, as long as the last period doubled is within the bound of the next row |
| `Backoff.RunResetExactly` | client/backoff.go:57-86 | no run of n failures is reset iff its last period is at most 4 attempt times plus 4 ns and the threshold does not overflow |
| `Backoff.FailuresNeverResetExactly` | client/backoff.go:57-86 | no run of failures of any length is reset iff that holds of the maximum |
| `Backoff.DefaultsDoubleTo128` | client/options.go:211-229 | with the default options up to seven failures sleep 1, 2, 4, ... 128 s, whatever the jitter |
| `Backoff.DefaultsCanReset` | client/options.go:211-229 | a run with the default options that sleeps 1, 2, 4, ... 128 s and then 1 s |

## Left out

- Transports, listeners and dialling (TCP, TLS, KCP, QUIC, WebSocket): thin wrappers over other libraries.
- `attemptConnection` and CONNACK error mapping: an oracle that may fail or succeed at any time.
- Goroutine pipelines (`startComms`, `dispatch`, the output redirector) and waiting for workers: their steps may come at any time, and that they end is not claimed.
- Handler goroutines of server/server.go and the outgoing loop of client/net.go are steps on values, not updates in place; what the server's read loop does with a packet is not modelled.
- What the client does with a failed write beyond going on with the next packet: closing the connection is modelled in `ClientConn` only.
- Delays and jitter of tickers and networks: ticks are exact and packets take no time, and the server hears every packet the client sends.
- Closed events of the connection listener, `Server.Close`, `Push` and authentication: bookkeeping around the modelled steps.
- `forceConnectionStatus`: a test hook that sets the status without the protocol.
- Backoff.HistoryExactly: stated where neither doubling nor the reset threshold overflows.
- Backoff.FailuresNeverResetExactly: stated for positive periods and a maximum below 2^62 ns, from which on `RangeExactly` shows doubling itself to overflow.
- Float rounding in the jitter and in the factor 1.5: reals and exact ratios instead.
- 16-bit truncation of keepalive values: seconds are assumed to fit.
- Logging, options setters, sample programs and the end-to-end harness: no hard property.
