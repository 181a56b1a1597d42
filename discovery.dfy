// Serial-port discovery (discovery/serial.go): the cache of connected
// devices a Monitor keeps, keyed by port name, and the events it emits
// when a device appears, changes or disappears. The native port list and
// the event channel's consumer are outside the model: ports are given
// as values, and the events sent are appended to a sequence.
module Discovery {
  import opened Wrappers

  // ---------------------------------------------------------------------
  // fmt's "0x%04X"

  function HexDigit(d: nat): char
    requires d < 16
  {
    if d < 10 then ('0' as int + d) as char else ('A' as int + d - 10) as char
  }

  function DigitValue(c: char): nat
  {
    if '0' <= c <= '9' then c as int - '0' as int
    else if 'A' <= c <= 'F' then c as int - 'A' as int + 10
    else 0
  }

  // Upper-case hexadecimal digits, without leading zeros.
  function HexDigits(n: nat): (s: string)
    ensures |s| >= 1
    decreases n
  {
    if n < 16 then [HexDigit(n)] else HexDigits(n / 16) + [HexDigit(n % 16)]
  }

  function HexValue(s: string): nat
    decreases |s|
  {
    if s == [] then 0 else HexValue(s[..|s| - 1]) * 16 + DigitValue(s[|s| - 1])
  }

  lemma {:induction false} HexRoundTrip(n: nat)
    ensures HexValue(HexDigits(n)) == n
    decreases n
  {
    var s := HexDigits(n);
    if n >= 16 {
      HexRoundTrip(n / 16);
      assert s[..|s| - 1] == HexDigits(n / 16);
    }
  }

  lemma {:induction false} HexDigitsShort(n: nat)
    ensures n < 0x1_0000 ==> |HexDigits(n)| <= 4
    decreases n
  {
    if 16 <= n < 0x1_0000 {
      HexDigitsShort(n / 16);
      if n / 16 < 0x1000 {
        HexDigitsBelow(n / 16);
      }
    }
  }

  lemma {:induction false} HexDigitsBelow(n: nat)
    requires n < 0x1000
    ensures |HexDigits(n)| <= 3
    decreases n
  {
    if n >= 16 {
      HexDigitsShorter(n / 16);
    }
  }

  lemma HexDigitsShorter(n: nat)
    requires n < 0x100
    ensures |HexDigits(n)| <= 2
  {
  }

  function Zeros(k: nat): (s: string)
    ensures |s| == k && forall i :: 0 <= i < k ==> s[i] == '0'
  {
    if k == 0 then "" else Zeros(k - 1) + "0"
  }

  // "0x%04X": the digits, left-padded with zeros to four.
  function Hex4(n: nat): (s: string)
    ensures |s| >= 6 && s[..2] == "0x"
    ensures HexValue(s[2..]) == n
    ensures n < 0x1_0000 ==> |s| == 6
  {
    var d := HexDigits(n);
    var z := Zeros(if |d| < 4 then 4 - |d| else 0);
    HexRoundTrip(n);
    ZerosValue(if |d| < 4 then 4 - |d| else 0, d);
    HexDigitsShort(n);
    var s := "0x" + z + d;
    assert s[2..] == z + d;
    s
  }

  lemma {:induction false} ZerosValue(k: nat, d: string)
    ensures HexValue(Zeros(k) + d) == HexValue(d)
    decreases |d|
  {
    if d == [] {
      assert Zeros(k) + d == Zeros(k);
      ZerosOnly(k);
    } else {
      var init := d[..|d| - 1];
      ZerosValue(k, init);
      assert (Zeros(k) + d)[..|Zeros(k) + d| - 1] == Zeros(k) + init;
    }
  }

  lemma {:induction false} ZerosOnly(k: nat)
    ensures HexValue(Zeros(k)) == 0
  {
    if k > 0 {
      ZerosOnly(k - 1);
      assert Zeros(k)[..k - 1] == Zeros(k - 1);
    }
  }

  // ---------------------------------------------------------------------
  // SerialDevice.merge

  // The fields of a SerialDevice; `serial` stands for the pointer to the
  // native port information.
  datatype DeviceInfo = DeviceInfo(port: string, serialNumber: string, productID: string,
                                   vendorID: string, serial: nat)

  // What merge reports as a change: any of the four identifying fields.
  predicate Differs(d: DeviceInfo, dev: DeviceInfo)
  {
    d.port != dev.port || d.serialNumber != dev.serialNumber ||
    d.productID != dev.productID || d.vendorID != dev.vendorID
  }

  class SerialDevice {
    var port: string
    var serialNumber: string
    var productID: string
    var vendorID: string
    var serial: nat

    constructor(info: DeviceInfo)
      ensures Info() == info
    {
      port := info.port;
      serialNumber := info.serialNumber;
      productID := info.productID;
      vendorID := info.vendorID;
      serial := info.serial;
    }

    function Info(): DeviceInfo
      reads this
    {
      DeviceInfo(port, serialNumber, productID, vendorID, serial)
    }

    // merge: every field takes dev's value; only the four identifying
    // fields count as a change. Merging the same device again therefore
    // reports no change.
    method Merge(dev: DeviceInfo) returns (changed: bool)
      modifies this
      ensures Info() == dev
      ensures changed <==> Differs(old(Info()), dev)
    {
      changed := false;
      if port != dev.port {
        changed := true;
        port := dev.port;
      }
      if serialNumber != dev.serialNumber {
        changed := true;
        serialNumber := dev.serialNumber;
      }
      if productID != dev.productID {
        changed := true;
        productID := dev.productID;
      }
      if vendorID != dev.vendorID {
        changed := true;
        vendorID := dev.vendorID;
      }
      if serial != dev.serial {
        serial := dev.serial;
      }
    }
  }

  // A merged device differs from nothing it was merged with.
  lemma MergedSettles(dev: DeviceInfo)
    ensures !Differs(dev, dev)
  {
  }

  // ---------------------------------------------------------------------
  // Monitor.addSerial and Monitor.pruneSerial

  // A port as the native library lists it.
  datatype PortInfo = PortInfo(name: string, serialNumber: string, vid: nat, pid: nat, handle: nat)

  // The device addSerial builds for a port.
  function DeviceOf(p: PortInfo): (d: DeviceInfo)
    ensures d.port == p.name && d.serialNumber == p.serialNumber
    ensures |d.productID| >= 6 && |d.vendorID| >= 6
    ensures HexValue(d.productID[2..]) == p.pid && HexValue(d.vendorID[2..]) == p.vid
  {
    DeviceInfo(p.name, p.serialNumber, Hex4(p.pid), Hex4(p.vid), p.handle)
  }

  datatype Event = Event(name: string, device: SerialDevice)

  function Names(ports: seq<PortInfo>): set<string>
  {
    set p | p in ports :: p.name
  }

  // The "remove" events for the given ports of a cache, in order.
  function Removals(keys: seq<string>, m: map<string, SerialDevice>): (r: seq<Event>)
    requires forall i :: 0 <= i < |keys| ==> keys[i] in m
    ensures |r| == |keys|
    ensures forall i :: 0 <= i < |keys| ==> r[i] == Event("remove", m[keys[i]])
  {
    seq(|keys|, i requires 0 <= i < |keys| => Event("remove", m[keys[i]]))
  }

  predicate Distinct(keys: seq<string>)
  {
    forall i, j :: 0 <= i < j < |keys| ==> keys[i] != keys[j]
  }

  class Monitor {
    var serial: map<string, SerialDevice>
    var events: seq<Event>

    // Each cached device is filed under its own port name, and no device
    // is filed twice.
    predicate Valid()
      reads this, serial.Values
    {
      (forall k :: k in serial ==> serial[k].port == k) &&
      (forall k1, k2 :: k1 in serial && k2 in serial && k1 != k2 ==> serial[k1] != serial[k2])
    }

    // The cache as values.
    function Devices(): map<string, DeviceInfo>
      reads this, serial.Values
    {
      map k | k in serial :: serial[k].Info()
    }

    constructor()
      ensures serial == map[] && events == [] && Valid()
    {
      serial := map[];
      events := [];
    }

    // The cached device for device.port takes device's fields.
    method Refresh(device: DeviceInfo) returns (changed: bool)
      requires Valid() && device.port in serial
      modifies serial[device.port]
      ensures Valid()
      ensures Devices() == old(Devices())[device.port := device]
      ensures changed <==> Differs(old(Devices())[device.port], device)
    {
      var dev := serial[device.port];
      changed := dev.Merge(device);
      forall k | k in serial && k != device.port
        ensures serial[k].Info() == old(serial[k].Info())
      {
        assert serial[k] != dev;
      }
    }

    // A new device is cached under its port and reported as added.
    method Insert(device: DeviceInfo)
      requires Valid() && device.port !in serial
      modifies this
      ensures Valid()
      ensures device.port in serial && fresh(serial[device.port])
      ensures serial == old(serial)[device.port := serial[device.port]]
      ensures Devices() == old(Devices())[device.port := device]
      ensures events == old(events) + [Event("add", serial[device.port])]
    {
      var d := new SerialDevice(device);
      serial := serial[device.port := d];
      events := events + [Event("add", d)];
    }

    // A cached port takes the new fields and is reported as changed only
    // when it did change.
    method Revisit(device: DeviceInfo)
      requires Valid() && device.port in serial
      modifies this, serial.Values
      ensures Valid()
      ensures serial == old(serial) && Devices() == old(Devices())[device.port := device]
      ensures events == old(events) +
        (if Differs(old(Devices())[device.port], device) then [Event("change", serial[device.port])] else [])
    {
      var changed := Refresh(device);
      ghost var devices := Devices();
      if changed {
        events := events + [Event("change", serial[device.port])];
        assert Devices() == devices;
      }
    }

    // addSerial: ports without a vendor or product id are ignored; a
    // cached port is merged and reported as changed only when it did
    // change; a new one is cached and reported as added. Go finds the
    // cached port by scanning the map for its key.
    method AddSerial(p: PortInfo)
      requires Valid()
      modifies this, serial.Values
      ensures Valid()
      ensures p.vid == 0 || p.pid == 0 ==>
        serial == old(serial) && Devices() == old(Devices()) && events == old(events)
      ensures p.vid != 0 && p.pid != 0 && p.name in old(serial) ==>
        serial == old(serial) && Devices() == old(Devices())[p.name := DeviceOf(p)] &&
        events == old(events) +
          (if Differs(old(Devices())[p.name], DeviceOf(p)) then [Event("change", serial[p.name])] else [])
      ensures p.vid != 0 && p.pid != 0 && p.name !in old(serial) ==>
        p.name in serial && fresh(serial[p.name]) &&
        serial == old(serial)[p.name := serial[p.name]] &&
        Devices() == old(Devices())[p.name := DeviceOf(p)] &&
        events == old(events) + [Event("add", serial[p.name])]
    {
      if p.vid == 0 || p.pid == 0 {
        return;
      }
      var device := DeviceOf(p);
      if device.port in serial {
        Revisit(device);
        return;
      }
      Insert(device);
    }

    // Whether a cached port is still listed.
    method Listed(port: string, ports: seq<PortInfo>) returns (found: bool)
      ensures found <==> port in Names(ports)
    {
      found := false;
      var i := 0;
      while i < |ports|
        invariant 0 <= i <= |ports|
        invariant found <==> exists j :: 0 <= j < i && ports[j].name == port
      {
        if port == ports[i].name {
          found := true;
        }
        i := i + 1;
      }
    }

    // The cached ports missing from the list, each once, in the order
    // the scan of the map meets them.
    method Absent(ports: seq<PortInfo>) returns (toPrune: seq<string>)
      ensures Distinct(toPrune)
      ensures forall k :: k in toPrune <==> k in serial && k !in Names(ports)
    {
      toPrune := [];
      var left := serial.Keys;
      while left != {}
        invariant left <= serial.Keys
        invariant Distinct(toPrune)
        invariant forall k :: k in toPrune <==> k in serial && k !in left && k !in Names(ports)
        decreases left
      {
        var port :| port in left;
        var found := Listed(port, ports);
        if !found {
          toPrune := toPrune + [port];
        }
        left := left - {port};
      }
    }

    // Each of the given cached ports is reported as removed and dropped.
    method Drop(keys: seq<string>)
      requires Valid() && Distinct(keys)
      requires forall i :: 0 <= i < |keys| ==> keys[i] in serial
      modifies this
      ensures Valid()
      ensures serial.Keys == old(serial).Keys - (set k | k in keys)
      ensures forall k :: k in serial ==> serial[k] == old(serial)[k]
      ensures events == old(events) + Removals(keys, old(serial))
    {
      var i := 0;
      while i < |keys|
        invariant 0 <= i <= |keys|
        invariant serial.Keys == old(serial).Keys - (set k | k in keys[..i])
        invariant forall k :: k in serial ==> serial[k] == old(serial)[k]
        invariant events == old(events) + Removals(keys[..i], old(serial))
        invariant Valid()
      {
        var port := keys[i];
        assert port !in keys[..i];
        events := events + [Event("remove", serial[port])];
        serial := serial - {port};
        assert keys[..i + 1] == keys[..i] + [port];
        i := i + 1;
      }
      assert keys[..i] == keys;
    }

    // pruneSerial: every cached port missing from the list is removed
    // and reported, in the order the map scan met them (`pruned`).
    method PruneSerial(ports: seq<PortInfo>) returns (ghost pruned: seq<string>)
      requires Valid()
      modifies this
      ensures Valid()
      ensures Distinct(pruned)
      ensures forall k :: k in pruned <==> k in old(serial) && k !in Names(ports)
      ensures serial == map k | k in old(serial) && k in Names(ports) :: old(serial)[k]
      ensures forall i :: 0 <= i < |pruned| ==> pruned[i] in old(serial)
      ensures events == old(events) + Removals(pruned, old(serial))
    {
      var toPrune := Absent(ports);
      assert forall i :: 0 <= i < |toPrune| ==> toPrune[i] in toPrune;
      Drop(toPrune);
      assert serial == map k | k in old(serial) && k in Names(ports) :: old(serial)[k];
      pruned := toPrune;
    }
  }
}
