// seriallist.go and utilities.go: the ports the OS enumerator reports,
// narrowed to USB devices with real ids and to the names the user's
// filter matches; the lookup of an open port by its lower-cased name; and
// the generic port filter.
module SerialList {
  import opened Wrappers
  import opened GoStrings
  import opened SerialPort
  import opened SerialHub

  // One entry of the enumerator's detailed port list.
  datatype DetailedPort = DetailedPort(Name: string, IsUSB: bool, VID: string, PID: string, SerialNumber: string)

  datatype OsSerialPort = OsSerialPort(
    Name: string,
    DeviceClass: string,
    Manufacturer: string,
    Product: string,
    IDProduct: string,
    IDVendor: string,
    ISerial: string)

  // A USB port whose vendor and product ids are both set.
  predicate IsRealUsb(e: DetailedPort)
  {
    e.IsUSB && e.VID != "0000" && e.PID != "0000"
  }

  function ToOsPort(e: DetailedPort): OsSerialPort
  {
    OsSerialPort(e.Name, "", "", "", "0x" + e.PID, "0x" + e.VID, e.SerialNumber)
  }

  // The entries the first loop keeps, converted, in order.
  function UsbPorts(list: seq<DetailedPort>): seq<OsSerialPort>
  {
    if list == [] then []
    else
      var rest := UsbPorts(list[..|list| - 1]);
      var e := list[|list| - 1];
      if IsRealUsb(e) then rest + [ToOsPort(e)] else rest
  }

  // The ports satisfying `f`, in order.
  function Select(ports: seq<OsSerialPort>, f: OsSerialPort -> bool): seq<OsSerialPort>
  {
    if ports == [] then []
    else
      var rest := Select(ports[..|ports| - 1], f);
      if f(ports[|ports| - 1]) then rest + [ports[|ports| - 1]] else rest
  }

  // The case-insensitive match of the user's filter against a port name.
  function NameMatches(matches: string -> bool): OsSerialPort -> bool
  {
    (p: OsSerialPort) => matches(p.Name)
  }

  // enumerateSerialPorts. `enumerated` is what the OS enumerator returned;
  // `filter` is the -regex flag and `matches` its compiled "(?i)" regular
  // expression. An enumeration error gives an empty list and that error.
  method EnumerateSerialPorts(enumerated: Result<seq<DetailedPort>>, filter: string, matches: string -> bool)
    returns (ports: seq<OsSerialPort>, err: Option<string>)
    ensures enumerated.Err? ==> ports == [] && err == Some(enumerated.msg)
    ensures enumerated.Ok? ==> err.None?
    ensures enumerated.Ok? && filter == "" ==> ports == UsbPorts(enumerated.value)
    ensures enumerated.Ok? && filter != "" ==> ports == Select(UsbPorts(enumerated.value), NameMatches(matches))
  {
    if enumerated.Err? {
      return [], Some(enumerated.msg);
    }
    var list := enumerated.value;
    ports := [];
    var k := 0;
    while k < |list|
      invariant 0 <= k <= |list|
      invariant ports == UsbPorts(list[..k])
    {
      assert list[..k + 1][..k] == list[..k];
      var e := list[k];
      if e.IsUSB {
        var vidString := "0x" + e.VID;
        var pidString := "0x" + e.PID;
        if e.VID != "0000" && e.PID != "0000" {
          ports := ports + [OsSerialPort(e.Name, "", "", "", pidString, vidString, e.SerialNumber)];
        }
      }
      k := k + 1;
    }
    assert list[..k] == list;
    if |filter| > 0 {
      var kept: seq<OsSerialPort> := [];
      var j := 0;
      while j < |ports|
        invariant 0 <= j <= |ports|
        invariant kept == Select(ports[..j], NameMatches(matches))
      {
        assert ports[..j + 1][..j] == ports[..j];
        if matches(ports[j].Name) {
          kept := kept + [ports[j]];
        }
        j := j + 1;
      }
      assert ports[..j] == ports;
      ports := kept;
    }
    return ports, None;
  }

  // Every listed port comes from a USB entry with both ids set, and carries
  // "0x" + VID, "0x" + PID and the serial number.
  lemma {:induction false} UsbPortsSound(list: seq<DetailedPort>, p: OsSerialPort)
    requires p in UsbPorts(list)
    ensures exists e :: e in list && IsRealUsb(e) && p == ToOsPort(e)
    decreases |list|
  {
    var init := list[..|list| - 1];
    var e := list[|list| - 1];
    if p in UsbPorts(init) {
      UsbPortsSound(init, p);
      var x :| x in init && IsRealUsb(x) && p == ToOsPort(x);
      assert x in list;
    } else {
      assert e in list;
    }
  }

  // Every USB entry with both ids set is listed.
  lemma {:induction false} UsbPortsComplete(list: seq<DetailedPort>, e: DetailedPort)
    requires e in list && IsRealUsb(e)
    ensures ToOsPort(e) in UsbPorts(list)
    decreases |list|
  {
    var init := list[..|list| - 1];
    if e != list[|list| - 1] {
      assert list == init + [list[|list| - 1]];
      assert e in init;
      UsbPortsComplete(init, e);
    }
  }

  // Select keeps exactly the ports satisfying `f`.
  lemma {:induction false} SelectExact(ports: seq<OsSerialPort>, f: OsSerialPort -> bool)
    ensures |Select(ports, f)| <= |ports|
    ensures forall p :: p in Select(ports, f) <==> p in ports && f(p)
    decreases |ports|
  {
    if ports != [] {
      var init := ports[..|ports| - 1];
      SelectExact(init, f);
      assert ports == init + [ports[|ports| - 1]];
    }
  }

  // Filter (utilities.go): the ports satisfying `f`, in order; nil (here:
  // `isNil`) when none does, since it appends to a nil slice.
  method Filter(vs: seq<OsSerialPort>, f: OsSerialPort -> bool) returns (vsf: seq<OsSerialPort>, isNil: bool)
    ensures vsf == Select(vs, f)
    ensures isNil <==> vsf == []
  {
    vsf, isNil := [], true;
    var k := 0;
    while k < |vs|
      invariant 0 <= k <= |vs|
      invariant vsf == Select(vs[..k], f)
      invariant isNil <==> vsf == []
    {
      assert vs[..k + 1][..k] == vs[..k];
      if f(vs[k]) {
        vsf, isNil := vsf + [vs[k]], false;
      }
      k := k + 1;
    }
    assert vs[..k] == vs;
  }

  // findPortByName: a registered port whose lower-cased name equals the
  // lower-cased `portname`, or (null, false).
  method FindPortByLowerName(reg: Registry, portname: string) returns (port: SerPort?, ok: bool)
    ensures ok <==> exists q :: q in reg.ports && ToLower(q.name) == ToLower(portname)
    ensures ok ==> port != null && port in reg.ports && ToLower(port.name) == ToLower(portname)
    ensures !ok ==> port == null
  {
    var portnamel := ToLower(portname);
    var rest := reg.ports;
    while rest != {}
      invariant rest <= reg.ports
      invariant forall q :: q in reg.ports && q !in rest ==> ToLower(q.name) != portnamel
      decreases rest
    {
      var q :| q in rest;
      if ToLower(q.name) == portnamel {
        return q, true;
      }
      rest := rest - {q};
    }
    return null, false;
  }
}
