/**
 * Whole runs of the detector against a simulated serial transport: the
 * runs its test suite walks through, plus three further runs (ports of
 * another vendor, a non-Ping reply followed by the timeout, a Ping reply
 * after `Stop`). Each run returns what the observers saw and states it.
 */
module Scenarios {
  import opened Wrappers
  import opened Devices
  import opened Config
  import opened Attempts
  import opened Status
  import opened Traces
  import opened TappyDetector

  /** A port whose vendor is FTDI. */
  function Port(path: string): (d: Device)
    ensures IsFtdi(d)
  {
    Device(path, Num(FTDI_VENDOR_ID))
  }

  /** The options a test passes: its own transport and a timeout. */
  function TestParams(waitTimeout: int): (p: Params)
    ensures ConfiguredWait(p) == waitTimeout && ConfiguredTransport(p) == Custom(0)
  {
    Params(Some(waitTimeout), Some(Custom(0)))
  }

  /** The six tappies of the forwarding test. */
  function SixTappies(): (ds: seq<Device>)
    ensures |ds| == 6 && forall k :: 0 <= k < |ds| ==> IsFtdi(ds[k])
  {
    [Port("/dev/ttyUSB7"), Port("/dev/ttyUSB8"), Port("/dev/ttyUSB9"), Port("COM7"), Port("COM8"), Port("COM9")]
  }

  /**
   * Never mode with one FTDI port that answers the ping with noise: idle
   * before the scan, scanning once it starts and after the noise arrives,
   * idle again after `Stop`.
   */
  method StatusFollowsScan() returns (before: bool, during: bool, after: bool)
    ensures !before && during && !after
  {
    var detector := new Detector(TestParams(-10));
    before := detector.IsScanning();
    var ports := [Port("/dev/ttyUSB0")];
    FilteredKeepsAll(ports);
    detector.Scan(ports, {});
    detector.PingReply(0, false);
    during := detector.IsScanning();
    detector.Stop();
    after := detector.IsScanning();
  }

  /**
   * Immediate mode with no port at all: the status observer sees `true`
   * and then `false`, and the scan ends idle.
   */
  method EmptyScanEndsIdle() returns (scanning: bool, statuses: seq<Delivery<bool>>)
    ensures !scanning
    ensures statuses == [Delivery(NoOp, true), Delivery(NoOp, false)]
  {
    var detector := new Detector(TestParams(-1));
    detector.Scan([], {});
    scanning := detector.IsScanning();
    statuses := detector.statusLog;
  }

  /** The two readers of the many-devices test. */
  function TwoReaders(): (ds: seq<Device>)
    ensures |ds| == 2 && forall k :: 0 <= k < |ds| ==> IsFtdi(ds[k])
  {
    [Port("/dev/ttyUSB1"), Port("COM1")]
  }

  /** The two silent and the two noisy ports of the many-devices test. */
  function FourOthers(): (ds: seq<Device>)
    ensures |ds| == 4 && forall k :: 0 <= k < |ds| ==> IsFtdi(ds[k])
  {
    [Port("/dev/ttyUSB2"), Port("COM2"), Port("/dev/ttyUSB3"), Port("COM3")]
  }

  /** Of the six ports, only the two readers, which come first, are forwarded. */
  lemma ReadersOfMixedPorts(to: Callback)
    ensures var readers := TwoReaders();
      Confirmations(readers + FourOthers(), {readers[0], readers[1]}, to)
        == [Delivery(to, readers[0]), Delivery(to, readers[1])]
  {
    var readers, others := TwoReaders(), FourOthers();
    var answering := {readers[0], readers[1]};
    ConfirmationsAll(readers, answering, to);
    ConfirmationsNone(others, answering, to);
    ConfirmationsAppend(readers, others, answering, to);
  }

  /**
   * Immediate mode with six FTDI ports, two of which answer the ping: every
   * handshake has completed by the time the scan returns, the status
   * rose and fell once per port, and exactly the two readers were forwarded.
   */
  method ManyPortsEndIdle() returns (scanning: bool, statuses: seq<Delivery<bool>>, forwarded: seq<Delivery<Device>>)
    ensures !scanning
    ensures statuses == Pulses(NoOp, 6)
    ensures forwarded == [Delivery(NoOp, TwoReaders()[0]), Delivery(NoOp, TwoReaders()[1])]
  {
    var detector := new Detector(TestParams(-1));
    var readers := TwoReaders();
    var ports := readers + FourOthers();
    FilteredKeepsAll(ports);
    ReadersOfMixedPorts(NoOp);
    detector.Scan(ports, {readers[0], readers[1]});
    scanning := detector.IsScanning();
    statuses := detector.statusLog;
    forwarded := detector.confirmed;
  }

  /** Six tappies that all answer: each is forwarded once, in order, to the observer set before the scan. */
  method ForwardsEveryTappy() returns (forwarded: seq<Delivery<Device>>)
    ensures |forwarded| == 6
    ensures forall k :: 0 <= k < 6 ==> forwarded[k] == Delivery(Handler(1), SixTappies()[k])
  {
    var detector := new Detector(TestParams(-1));
    detector.SetCallback(Handler(1));
    var ports := SixTappies();
    var answering := set k | 0 <= k < |ports| :: ports[k];
    FilteredKeepsAll(ports);
    ConfirmationsAll(ports, answering, Handler(1));
    detector.Scan(ports, answering);
    forwarded := detector.confirmed;
  }

  /** Immediate mode, one tappy: the scan forwards it at once, and then `Stop` is called. */
  method StoppedAfterOneTappy(p: Device) returns (detector: Detector)
    requires IsFtdi(p)
    ensures fresh(detector) && detector.Valid() && !detector.reportScans
    ensures detector.confirmed == [Delivery(NoOp, p)]
  {
    detector := new Detector(TestParams(-1));
    ghost var before := detector.Snapshot();
    FilteredKeepsAll([p]);
    detector.Scan([p], {p});
    SpawnsSingle(before, detector.Snapshot(), p, {p}, true, NoOp, NoOp);
    detector.Stop();
  }

  /**
   * A tappy found by a scan, then `Stop`, then a new device observer and the
   * same list delivered again: the new observer is never called.
   */
  method NothingForwardedAfterStop() returns (forwarded: seq<Delivery<Device>>)
    ensures forwarded == [Delivery(NoOp, Port("/dev/ttyUSB0"))]
    ensures forall k :: 0 <= k < |forwarded| ==> forwarded[k].to != Handler(2)
  {
    var tappy := Port("/dev/ttyUSB0");
    var detector := StoppedAfterOneTappy(tappy);
    detector.SetCallback(Handler(2));
    FilteredKeepsAll([tappy]);
    detector.DeliverDevices([tappy], {tappy});
    forwarded := detector.confirmed;
  }

  /** FTDI ports that are not tappies, silent or answering with noise, are never forwarded. */
  method NonTappiesNotForwarded() returns (forwarded: seq<Delivery<Device>>)
    ensures forwarded == []
  {
    var detector := new Detector(TestParams(-1));
    detector.SetCallback(Handler(3));
    var ports := [Port("/dev/ttyUSB1"), Port("COM3"), Port("COM4"), Port("/dev/ttyUSB2")];
    FilteredKeepsAll(ports);
    ConfirmationsNone(ports, {}, Handler(3));
    detector.Scan(ports, {});
    forwarded := detector.confirmed;
  }

  /**
   * Ports from another vendor, or with no vendor at all, are never probed:
   * the scan behaves as for an empty list.
   */
  method OtherVendorsIgnored() returns (probed: nat, statuses: seq<Delivery<bool>>)
    ensures probed == 0
    ensures statuses == [Delivery(NoOp, true), Delivery(NoOp, false)]
  {
    var detector := new Detector(TestParams(250));
    var ports := [Device("COM5", Num(1234)), Device("COM6", Absent), Device("COM7", Num(0))];
    FilteredDropsAll(ports);
    detector.Scan(ports, {});
    probed := |detector.attempts|;
    statuses := detector.statusLog;
  }

  /**
   * A detector with the default options (a real timer) that has started a
   * scan over one FTDI port which has not answered yet.
   */
  method ScanningOnePort(p: Device) returns (detector: Detector)
    requires IsFtdi(p)
    ensures fresh(detector)
    ensures detector.Counted() && detector.Logged() && detector.lastStatus == detector.IsScanning()
    ensures detector.reportScans && ModeOf(detector.waitTimeout) == After(DEFAULT_WAIT)
    ensures detector.attempts == [Attempt(p, true, false)] && detector.remaining == 1
    ensures detector.statusLog == [Delivery(NoOp, true)] && detector.confirmed == []
    ensures detector.statusCb == NoOp && detector.deviceCb == NoOp
  {
    detector := new Detector(NoParams);
    ghost var before := detector.Snapshot();
    FilteredKeepsAll([p]);
    detector.Scan([p], {});
    SpawnsSingle(before, detector.Snapshot(), p, {}, false, NoOp, NoOp);
  }

  /**
   * With a real timer: the one port answers with something other than a
   * ping response, so only its timeout ends the scan, and the status
   * observer sees `true` and then `false`.
   */
  method TimeoutEndsScan() returns (scanning: bool, statuses: seq<Delivery<bool>>, forwarded: seq<Delivery<Device>>)
    ensures !scanning
    ensures statuses == [Delivery(NoOp, true), Delivery(NoOp, false)]
    ensures forwarded == []
  {
    var detector := ScanningOnePort(Port("COM1"));
    detector.PingReply(0, false);
    detector.TimeoutFires(0);
    scanning := detector.IsScanning();
    statuses := detector.statusLog;
    forwarded := detector.confirmed;
  }

  /** A ping response that arrives after `Stop` forwards nothing. */
  method LateReplyIgnored() returns (forwarded: seq<Delivery<Device>>)
    ensures forwarded == []
  {
    var detector := ScanningOnePort(Port("COM1"));
    detector.Stop();
    detector.PingReply(0, true);
    forwarded := detector.confirmed;
  }
}
