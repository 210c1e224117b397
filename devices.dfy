/**
 * Serial device descriptors as the host enumerates them, and the vendor
 * filter the detector applies before it tries any handshake.
 */
module Devices {

  /** The `vendorId` property of a descriptor: missing, or a number. */
  datatype VendorId = Absent | Num(n: int)

  /** One enumerated serial device: its path and its USB vendor identifier. */
  datatype Device = Device(path: string, vendorId: VendorId)

  /** FTDI's USB vendor code; the target peripheral sits behind an FTDI bridge. */
  const FTDI_VENDOR_ID: int := 1027

  /** JavaScript truthiness of the property: a missing value and 0 are falsy. */
  predicate Truthy(v: VendorId)
  {
    v.Num? && v.n != 0
  }

  /**
   * The vendor test: the property must be truthy and equal to the FTDI code.
   * The truthiness test never rejects anything the equality accepts.
   */
  function IsFtdi(d: Device): (ok: bool)
    ensures ok <==> d.vendorId == Num(FTDI_VENDOR_ID)
  {
    Truthy(d.vendorId) && d.vendorId == Num(FTDI_VENDOR_ID)
  }

  /** The eligible devices of `ds`, in their enumeration order. */
  function Filtered(ds: seq<Device>): (r: seq<Device>)
    ensures |r| <= |ds|
  {
    if ds == [] then []
    else
      var d := ds[|ds| - 1];
      Filtered(ds[..|ds| - 1]) + (if IsFtdi(d) then [d] else [])
  }

  /** The loop that builds the candidate list, pushing each eligible device. */
  method FilterFtdi(devices: seq<Device>) returns (filtered: seq<Device>)
    ensures filtered == Filtered(devices)
  {
    filtered := [];
    for i := 0 to |devices|
      invariant filtered == Filtered(devices[..i])
    {
      assert devices[..i + 1][..i] == devices[..i];
      if IsFtdi(devices[i]) {
        filtered := filtered + [devices[i]];
      }
    }
    assert devices[..|devices|] == devices;
  }

  /** Each eligible device is kept as often as it occurs; every other device is dropped. */
  lemma {:induction false} FilteredMultiplicity(ds: seq<Device>, d: Device)
    ensures multiset(Filtered(ds))[d] == if IsFtdi(d) then multiset(ds)[d] else 0
  {
    if ds != [] {
      var init, last := ds[..|ds| - 1], ds[|ds| - 1];
      FilteredMultiplicity(init, d);
      assert ds == init + [last];
    }
  }

  /** A device survives the filter exactly when it was enumerated and is eligible. */
  lemma FilteredMembers(ds: seq<Device>)
    ensures forall d :: d in Filtered(ds) <==> d in ds && IsFtdi(d)
  {
    forall d
      ensures d in Filtered(ds) <==> d in ds && IsFtdi(d)
    {
      FilteredMultiplicity(ds, d);
      assert d in Filtered(ds) <==> multiset(Filtered(ds))[d] > 0;
      assert d in ds <==> multiset(ds)[d] > 0;
    }
  }

  /**
   * Filtering distributes over concatenation; with the one-element case of
   * the definition this says the filter keeps the enumeration order.
   */
  lemma {:induction false} FilteredAppend(a: seq<Device>, b: seq<Device>)
    ensures Filtered(a + b) == Filtered(a) + Filtered(b)
  {
    if b == [] {
      assert a + b == a;
    } else {
      var init, last := b[..|b| - 1], b[|b| - 1];
      FilteredAppend(a, init);
      assert (a + b)[..|a + b| - 1] == a + init;
      assert (a + b)[|a + b| - 1] == last;
    }
  }

  /** A list of FTDI devices only passes the filter unchanged. */
  lemma {:induction false} FilteredKeepsAll(ds: seq<Device>)
    requires forall k :: 0 <= k < |ds| ==> IsFtdi(ds[k])
    ensures Filtered(ds) == ds
  {
    if ds != [] {
      FilteredKeepsAll(ds[..|ds| - 1]);
      assert ds == ds[..|ds| - 1] + [ds[|ds| - 1]];
    }
  }

  /** A list without any FTDI device leaves no candidate. */
  lemma {:induction false} FilteredDropsAll(ds: seq<Device>)
    requires forall k :: 0 <= k < |ds| ==> !IsFtdi(ds[k])
    ensures Filtered(ds) == []
  {
    if ds != [] {
      FilteredDropsAll(ds[..|ds| - 1]);
    }
  }
}
