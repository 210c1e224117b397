# Tappy serial autodetector — a Dafny model

This project models the scan state machine of the Chrome serial autodetector
for TapTrack Tappy readers (`Detector` in `dist/chrometappydetector.js`). A
scan asks the serial transport for its device list and keeps the devices
whose USB vendor is FTDI (1027). For each one it starts a handshake: it
raises an outstanding-check counter, reports the status, connects, sends a
Ping and arranges a disconnect timeout. A Ping response that arrives while
reporting is on is forwarded to the device observer. Each timeout lowers the
counter again. The detector is "scanning" while reporting is on and the
counter is positive. It reports that status to a second observer, and an
unforced report is made only when the value changes.

The detector is a class, `TappyDetector.Detector`, whose fields are those of
the source object. The closures a handshake leaves behind are the `attempts`
field: one `Attempt` per handshake, recording whether its link is still open
and whether its timeout has run. The two observers are slots holding a
`Callback`. Every call of an observer is appended, with the observer that
held the slot, to `statusLog` or `confirmed`.

The outside world is a set of method calls:

- `Scan` and `DeliverDevices` deliver a device list, as the transport's `getDevices` callback does.
- `PingReply` delivers a message to one attempt's listener.
- `TimeoutFires` runs one attempt's timer.
- A transport that answers inside the `connect`/`send` calls (as the test suite's mock does) is the `answering` set passed with the list.

The invariant `Valid` ties the counter to the attempts: it equals the number
of attempts whose timeout has not run. It also says that a timed-out
attempt's link is closed, that the timeout mode shapes which attempts have
expired, and that `hasReported`/`lastStatus` summarise the status log.

The waiting mode follows the configured `waitTimeout`, as the source's
`createDisconnectTimeout` decides it:

- between -10 and 0, exclusive: the timeout runs at once;
- -10 or below: it never runs;
- 0 or above: a timer runs it later.

`Scenarios` replays the runs of the test suite (`test/testbasicdetect.js`)
and three further runs: ports of another vendor, a non-Ping reply followed
by the timeout, and a Ping reply after `Stop`. Each states what the
observers saw.

Three behaviours of the code are easy to misread; the model follows the code:

- Only the timeout lowers the counter. A Ping response forwards the device and closes the link, but the attempt stays outstanding until its timer runs; in never mode a detector that found a reader keeps scanning until `Stop`.
- With no eligible device, the enumeration callback calls the status observer with `true` and then forces a report of the current status. That report is `true` when reporting is on and handshakes from an earlier delivery are still outstanding, so it is not always the inactive state. After `Stop` it is `false`.
- A scan is not idle-gated: `Scan` may be called again while attempts are outstanding, and the counter accumulates across deliveries.

## Model

| member | source | states |
|---|---|---|
| Devices.IsFtdi | dist/chrometappydetector.js:98-99 | a device is eligible exactly when its vendor id is present and equals 1027; the truthiness test rejects nothing the equality accepts |
| Devices.Filtered | dist/chrometappydetector.js:95-102 | the candidate list is never longer than the enumeration |
| Devices.FilterFtdi | dist/chrometappydetector.js:95-102 | the push loop builds exactly the filtered list of the enumeration |
| Devices.FilteredMultiplicity | dist/chrometappydetector.js:95-102 | each eligible device is kept as many times as it was enumerated, and every other device is dropped |
| Devices.FilteredMembers | dist/chrometappydetector.js:95-102 | a device is a candidate if and only if it was enumerated and is eligible |
| Devices.FilteredAppend | dist/chrometappydetector.js:95-102 | filtering distributes over concatenation, so the enumeration order is kept |
| Devices.FilteredKeepsAll | dist/chrometappydetector.js:99-100 | a list of FTDI devices only is passed through unchanged |
| Devices.FilteredDropsAll | dist/chrometappydetector.js:99-100 | a list with no FTDI device leaves no candidate |
| Config.GetValue | dist/chrometappydetector.js:36-46 | a present property gives its value, a missing one the default |
| Config.ConfiguredWait | dist/chrometappydetector.js:79-86 | the wait is the given `waitTimeout`, and 100 when the options or the property are missing |
| Config.ConfiguredTransport | dist/chrometappydetector.js:79-86 | the transport is the given `serialWrapper`, and the host's serial API when the options or the property are missing |
| Config.ModeOf | dist/chrometappydetector.js:121-131 | the timeout runs at once if and only if -10 < wait < 0, never if and only if wait <= -10, and after `wait` ms if and only if wait >= 0 |
| Attempts.OutstandingAppend | dist/chrometappydetector.js:153 | a new attempt adds one to the outstanding count unless its timeout has already run |
| Attempts.OutstandingUpdate | dist/chrometappydetector.js:158-160 | changing one attempt changes the count by the difference of its two shares: a timeout lowers it by one, closing a link leaves it alone |
| Attempts.OutstandingAllExpired | dist/chrometappydetector.js:124-126 | once every timeout has run, nothing is outstanding |
| Attempts.OutstandingNoneExpired | dist/chrometappydetector.js:122-124 | while no timeout has run, every attempt ever started is outstanding |
| Attempts.Spawned | dist/chrometappydetector.js:109-113 | one delivery spawns exactly one attempt per candidate |
| Attempts.SpawnedStep | dist/chrometappydetector.js:109-113 | the next candidate's attempt follows those of the candidates before it |
| Status.Reported | dist/chrometappydetector.js:167-175 | an unforced report of `v` leaves `v` as the last value told; it calls the observer if and only if nothing was told yet or the last value differs |
| Status.RiseAndFall | dist/chrometappydetector.js:153-164 | from an idle observer, an immediate handshake reports `true` and then `false` |
| Status.Pulses | dist/chrometappydetector.js:109-113 | `n` immediate handshakes make exactly 2n status calls |
| Status.PulsesAlternate | dist/chrometappydetector.js:153-164 | the status calls of `n` immediate handshakes alternate, starting with `true` |
| Status.Confirmations | dist/chrometappydetector.js:147-151 | at most one device call per candidate |
| Status.ConfirmationsAll | dist/chrometappydetector.js:147-151 | when every candidate answers, each is forwarded once, in order, to the observer held at the time |
| Status.ConfirmationsNone | dist/chrometappydetector.js:147-151 | when no candidate answers the Ping, nothing is forwarded |
| Status.ConfirmationsAppend | dist/chrometappydetector.js:109-113 | the device calls of two lists delivered back to back are those of each list, in turn |
| Status.ConfirmationsExact | dist/chrometappydetector.js:147-151 | a device call is made exactly for the candidates that answer the Ping, each to the observer held at the time |
| Status.ConfirmationsStep | dist/chrometappydetector.js:109-113 | the next candidate's confirmation, if it answers, follows those of the candidates before it |
| Traces.SpawnsStep | dist/chrometappydetector.js:109-113 | one more handshake extends a delivery's effect on the counter, attempts and both logs by exactly that candidate |
| TappyDetector.Detector.IsScanning | dist/chrometappydetector.js:200-202 | scanning means reporting is on and the counter is positive: never scanning after `Stop`, and while reporting, scanning exactly when the counter is above zero |
| Traces.SpawnsSingle | dist/chrometappydetector.js:109-113 | a delivery of one candidate is exactly one handshake on it |
| TappyDetector.Detector.ScanningMeansPending | dist/chrometappydetector.js:200-202 | under the invariant, scanning holds if and only if reporting is on and some attempt's timeout has not run |
| TappyDetector.Detector.constructor | dist/chrometappydetector.js:76-118 | the configured wait and transport, reporting off, nothing reported, no-op observers, counter zero; the invariant holds and the detector is not scanning |
| TappyDetector.Detector.RawNotifyStatus | dist/chrometappydetector.js:177-180 | the status observer is called with the value, unconditionally |
| TappyDetector.Detector.NotifyStatus | dist/chrometappydetector.js:167-175 | the current status is reported if and only if forced, first, or changed; afterwards it is remembered as the last status |
| TappyDetector.Detector.PingReply | dist/chrometappydetector.js:140-152 | a Ping response while reporting closes the link and forwards the device once; any other message, or any message after `Stop`, changes nothing; the counter is untouched and the invariant is kept |
| TappyDetector.Detector.TimeoutFires | dist/chrometappydetector.js:158-164 | the counter drops by one and stays non-negative, the attempt is expired and closed, and the status is reported only when the counter reaches zero; the invariant is kept |
| TappyDetector.Detector.StartAttempt | dist/chrometappydetector.js:153-154 | a new open attempt, the counter raised by one, and the status reported as scanning when reporting is on |
| TappyDetector.Detector.Connect | dist/chrometappydetector.js:136-157 | the handshake up to the Ping: a synchronous Ping response closes the new link and forwards the device |
| TappyDetector.Detector.CreateDisconnectTimeout | dist/chrometappydetector.js:121-131 | in immediate mode the timeout callback runs at once; otherwise nothing changes yet |
| TappyDetector.Detector.Handshake | dist/chrometappydetector.js:133-165 | one attempt per call; the counter rises by one unless the timeout ran at once; a synchronous Ping response forwards the device; the status rises, and falls again in immediate mode; the invariant holds afterwards |
| TappyDetector.Detector.HandshakeNext | dist/chrometappydetector.js:110-112 | one loop turn extends the delivery's trace by the next candidate |
| TappyDetector.Detector.HandshakeAll | dist/chrometappydetector.js:109-113 | with reporting on, the delivery spawns one handshake per candidate in order; with reporting off, nothing changes |
| TappyDetector.Detector.DeliverDevices | dist/chrometappydetector.js:94-115 | no eligible device: `true` and then the current status are reported and nothing else changes; otherwise one handshake per candidate while reporting, nothing after `Stop` |
| TappyDetector.Detector.Scan | dist/chrometappydetector.js:182-185 | reporting is on, the delivery's effect is as above, scanning holds afterwards unless every timeout already ran, and in immediate mode the scan ends idle |
| TappyDetector.Detector.Stop | dist/chrometappydetector.js:187-190 | reporting off, not scanning, and `false` reported unless it was the last value told |
| TappyDetector.Detector.SetCallback | dist/chrometappydetector.js:192-194 | the device observer is replaced and the invariant kept |
| TappyDetector.Detector.SetStatusCallback | dist/chrometappydetector.js:196-198 | the status observer is replaced and the invariant kept |
| Scenarios.StatusFollowsScan | test/testbasicdetect.js:213-221 | never mode, one port that answers with noise: not scanning, then scanning (also after the noise), then not scanning after `Stop` |
| Scenarios.EmptyScanEndsIdle | test/testbasicdetect.js:223-229 | no device: the scan ends idle and the status observer is told `true` then `false` |
| Scenarios.ManyPortsEndIdle | test/testbasicdetect.js:231-237 | immediate mode, six ports: the scan ends idle after six rises and falls, and exactly the two readers are forwarded, in order |
| Scenarios.ForwardsEveryTappy | test/testbasicdetect.js:242-264 | six answering readers are each forwarded once, in order, to the observer set before the scan |
| Scenarios.NothingForwardedAfterStop | test/testbasicdetect.js:266-276 | after `Stop`, a re-delivered list forwards nothing to the new observer |
| Scenarios.NonTappiesNotForwarded | test/testbasicdetect.js:278-299 | silent and noisy non-reader ports are never forwarded |
| Scenarios.OtherVendorsIgnored | dist/chrometappydetector.js:98-107 | ports of another vendor, vendor 0 or no vendor are never probed; the scan reports as for an empty list |
| Scenarios.TimeoutEndsScan | dist/chrometappydetector.js:155-164 | with a real timer, a non-Ping reply forwards nothing and the timeout ends the scan with `true` then `false` told |
| Scenarios.LateReplyIgnored | dist/chrometappydetector.js:147-151 | a Ping response that arrives after `Stop` forwards nothing |

## Left out

- The module wrapper (AMD, CommonJS or browser global) and the library lookups it performs are not modelled; they only locate the dependencies.
- The host serial wrapper (`chromeSerialWrapper`) is not modelled; the transport is a token in `Config.Transport`. Its `flush` passes an undefined name `db` instead of `cb`, which would throw. The detector's own code never calls `flush`, but it hands the wrapper to the communicator library, which may.
- The Tappy, communicator and system-family libraries are not part of this model. Their effect is reduced to two facts: a message reaching the listener either resolves to a Ping response or it does not (`PingReply`'s `isPing`), and `disconnect` runs its callback at once.
- A failure inside message resolution is logged to the console and then treated as "not a Ping response"; the console output is left out.
- Timers are not modelled as time: a timer firing is the `TimeoutFires` call, and its delay is only recorded in `Config.ModeOf`.
- The transport's asynchronous `getDevices` call is replaced by handing the list to `Scan` or `DeliverDevices`; a list delivered later is a second `DeliverDevices` call.
- The ordering of asynchronous callbacks is not modelled beyond what the calls express. A synchronous Ping response is assumed to arrive before the timeout is arranged, as the test transport does it.
- Option values that are not integers (a string, `null`, a fraction) are not modelled: `waitTimeout` is an `int` or missing.
- Device descriptors carry only the path and the vendor id; other properties are ignored by the source.
- TappyDetector.Detector.PingReply: requires the attempt's link to be open, because no message reaches a closed link; the source has no check of its own there.
- TappyDetector.Detector.TimeoutFires: requires the attempt's timeout not to have run and the mode not to be never mode, because a timer runs once and never mode arranges none.
- TappyDetector.Detector.DeliverDevices: requires that the status last told is `true` only while scanning. `Scan` turns reporting on before the list arrives, so the status may lag behind a scan that has just started, but every state the detector's own calls leave satisfies this.
- TappyDetector.Detector.HandshakeAll: observers are tokens that neither call back into the detector nor throw. In the source the status observer, and the device observer of a transport that answers at once, run inside the handshake, so an observer could call `stop()` in the middle of a delivery; the per-candidate `reportScans` check would then start handshakes for a prefix of the candidates only. In the model that check can only see the value it had at entry, so the contract is all or nothing. An observer that throws would also leave `hasReported`/`lastStatus` updated without the call completing; that is not modelled either.
