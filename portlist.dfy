// serialportlist.go: the list of serial ports reported by the serial
// discovery, with each port's IsOpen mark. The list is a slice of item
// pointers in the source; no pointer to an item leaves the list, so the
// model keeps the items as values and rewrites them by position.
module PortList {
  import opened Wrappers

  datatype SpPortItem = SpPortItem(
    Name: string,
    SerialNumber: string,
    DeviceClass: string,
    IsOpen: bool,
    IsPrimary: bool,
    Baud: int,
    BufferAlgorithm: string,
    Ver: string,
    VendorID: string,
    ProductID: string)

  // A port event from the pluggable discovery: its address, protocol and
  // properties.
  datatype DiscoveredPort = DiscoveredPort(Address: string, Protocol: string, Properties: map<string, string>)

  // properties.Map.Get: the value, or "" for a missing key.
  function Get(props: map<string, string>, key: string): string
  {
    if key in props then props[key] else ""
  }

  // The checks `add` makes before touching the list: a serial port with a
  // "vid" property, neither id "0x0000", and an address the ports filter
  // (when one is set) matches.
  predicate Admitted(p: DiscoveredPort, filter: Option<string -> bool>)
  {
    p.Protocol == "serial" &&
    "vid" in p.Properties &&
    Get(p.Properties, "vid") != "0x0000" && Get(p.Properties, "pid") != "0x0000" &&
    (filter.None? || filter.value(p.Address))
  }

  // getPortByName: the position of the first item with that name.
  function IndexOfName(ports: seq<SpPortItem>, name: string): (r: Option<nat>)
    ensures r.Some? ==> r.value < |ports| && ports[r.value].Name == name
    ensures r.Some? ==> forall j :: 0 <= j < r.value ==> ports[j].Name != name
    ensures r.None? ==> forall j :: 0 <= j < |ports| ==> ports[j].Name != name
    decreases |ports|
  {
    if ports == [] then None
    else if ports[0].Name == name then Some(0)
    else match IndexOfName(ports[1..], name)
      case None => None
      case Some(k) => Some(k + 1)
  }

  // The item `add` appends for a port not listed yet.
  function NewItem(p: DiscoveredPort, version: string): SpPortItem
  {
    SpPortItem(p.Address, Get(p.Properties, "serialNumber"), "", false, false, 0, "",
               version, Get(p.Properties, "vid"), Get(p.Properties, "pid"))
  }

  // The metadata `add` refreshes on an item already listed.
  function Refreshed(it: SpPortItem, p: DiscoveredPort): SpPortItem
  {
    it.(SerialNumber := Get(p.Properties, "serialNumber"),
        VendorID := Get(p.Properties, "vid"),
        ProductID := Get(p.Properties, "pid"))
  }

  // The list after `add`.
  function AddSpec(ports: seq<SpPortItem>, p: DiscoveredPort, filter: Option<string -> bool>, version: string): seq<SpPortItem>
  {
    if !Admitted(p, filter) then ports
    else match IndexOfName(ports, p.Address)
      case Some(i) => ports[i := Refreshed(ports[i], p)]
      case None => ports + [NewItem(p, version)]
  }

  // The list after `remove`: every item named as the address is dropped.
  function RemoveSpec(ports: seq<SpPortItem>, address: string): (r: seq<SpPortItem>)
    ensures |r| <= |ports|
  {
    if ports == [] then []
    else
      var rest := RemoveSpec(ports[..|ports| - 1], address);
      if ports[|ports| - 1].Name == address then rest else rest + [ports[|ports| - 1]]
  }

  // The list after MarkPortAsOpened/MarkPortAsClosed.
  function MarkSpec(ports: seq<SpPortItem>, name: string, open: bool): seq<SpPortItem>
  {
    match IndexOfName(ports, name)
    case None => ports
    case Some(i) => ports[i := ports[i].(IsOpen := open)]
  }

  // No two items share a name.
  predicate UniqueNames(ports: seq<SpPortItem>)
  {
    forall i, j :: 0 <= i < j < |ports| ==> ports[i].Name != ports[j].Name
  }

  // `xs` keeps some of the items of `ys`, in their order.
  predicate Subsequence(xs: seq<SpPortItem>, ys: seq<SpPortItem>)
    decreases |ys|
  {
    if xs == [] then true
    else if ys == [] then false
    else if xs[|xs| - 1] == ys[|ys| - 1] then Subsequence(xs[..|xs| - 1], ys[..|ys| - 1])
    else Subsequence(xs, ys[..|ys| - 1])
  }

  class SerialPortList {
    var Ports: seq<SpPortItem>

    constructor ()
      ensures Ports == []
    {
      Ports := [];
    }

    // reset: the list becomes empty.
    method Reset()
      modifies this
      ensures Ports == []
    {
      Ports := [];
    }

    // getPortByName: the first item with that name, scanning in order.
    method GetPortByName(name: string) returns (i: Option<nat>)
      ensures i.Some? ==> i.value < |Ports| && Ports[i.value].Name == name
      ensures i.Some? ==> forall j :: 0 <= j < i.value ==> Ports[j].Name != name
      ensures i.None? ==> forall j :: 0 <= j < |Ports| ==> Ports[j].Name != name
    {
      var k := 0;
      while k < |Ports|
        invariant 0 <= k <= |Ports|
        invariant forall j :: 0 <= j < k ==> Ports[j].Name != name
      {
        if Ports[k].Name == name {
          return Some(k);
        }
        k := k + 1;
      }
      return None;
    }

    // add: a port that passes the checks refreshes the metadata of the item
    // with its address, or is appended as a closed item.
    method Add(p: DiscoveredPort, filter: Option<string -> bool>, version: string)
      modifies this
      ensures Ports == AddSpec(old(Ports), p, filter, version)
    {
      if !Admitted(p, filter) {
        return;
      }
      var i := GetPortByName(p.Address);
      assert i == IndexOfName(Ports, p.Address) by {
        UniqueIndex(Ports, p.Address, i);
      }
      if i.Some? {
        Ports := Ports[i.value := Refreshed(Ports[i.value], p)];
        return;
      }
      Ports := Ports + [NewItem(p, version)];
    }

    // remove: drops every item named as the port's address and keeps the
    // others in order (slices.DeleteFunc).
    method Remove(p: DiscoveredPort)
      modifies this
      ensures Ports == RemoveSpec(old(Ports), p.Address)
    {
      var kept: seq<SpPortItem> := [];
      var k := 0;
      while k < |Ports|
        invariant 0 <= k <= |Ports|
        invariant kept == RemoveSpec(Ports[..k], p.Address)
      {
        assert Ports[..k + 1][..k] == Ports[..k];
        if Ports[k].Name != p.Address {
          kept := kept + [Ports[k]];
        }
        k := k + 1;
      }
      assert Ports[..k] == Ports;
      Ports := kept;
    }

    // MarkPortAsOpened: sets IsOpen on the first item with that name, if any.
    method MarkPortAsOpened(name: string)
      modifies this
      ensures Ports == MarkSpec(old(Ports), name, true)
    {
      var i := GetPortByName(name);
      UniqueIndex(Ports, name, i);
      if i.Some? {
        Ports := Ports[i.value := Ports[i.value].(IsOpen := true)];
      }
    }

    // MarkPortAsClosed: clears IsOpen on the first item with that name, if
    // any.
    method MarkPortAsClosed(name: string)
      modifies this
      ensures Ports == MarkSpec(old(Ports), name, false)
    {
      var i := GetPortByName(name);
      UniqueIndex(Ports, name, i);
      if i.Some? {
        Ports := Ports[i.value := Ports[i.value].(IsOpen := false)];
      }
    }
  }

  // The first position of a name is unique: anything with IndexOfName's
  // properties is IndexOfName.
  lemma UniqueIndex(ports: seq<SpPortItem>, name: string, i: Option<nat>)
    requires i.Some? ==> i.value < |ports| && ports[i.value].Name == name
    requires i.Some? ==> forall j :: 0 <= j < i.value ==> ports[j].Name != name
    requires i.None? ==> forall j :: 0 <= j < |ports| ==> ports[j].Name != name
    ensures i == IndexOfName(ports, name)
  {
  }

  // ---------------------------------------------------------------------
  // Properties of the list operations.

  // A rejected port leaves the list as it was.
  lemma AddRejected(ports: seq<SpPortItem>, p: DiscoveredPort, filter: Option<string -> bool>, version: string)
    requires p.Protocol != "serial" || "vid" !in p.Properties ||
             Get(p.Properties, "vid") == "0x0000" || Get(p.Properties, "pid") == "0x0000" ||
             (filter.Some? && !filter.value(p.Address))
    ensures AddSpec(ports, p, filter, version) == ports
  {
  }

  // Adding a listed address refreshes only the serial number and the ids
  // of its item; the length, the order and every IsOpen mark stay.
  lemma AddExisting(ports: seq<SpPortItem>, p: DiscoveredPort, filter: Option<string -> bool>, version: string, i: nat)
    requires Admitted(p, filter) && i < |ports| && ports[i].Name == p.Address && UniqueNames(ports)
    ensures var r := AddSpec(ports, p, filter, version);
      |r| == |ports| &&
      (forall j :: 0 <= j < |ports| && j != i ==> r[j] == ports[j]) &&
      r[i].Name == ports[i].Name && r[i].IsOpen == ports[i].IsOpen &&
      r[i].Baud == ports[i].Baud && r[i].BufferAlgorithm == ports[i].BufferAlgorithm &&
      r[i].SerialNumber == Get(p.Properties, "serialNumber") &&
      r[i].VendorID == Get(p.Properties, "vid") && r[i].ProductID == Get(p.Properties, "pid")
  {
    assert IndexOfName(ports, p.Address) == Some(i);
  }

  // Adding a new address appends one closed item with baud 0 and no
  // buffer algorithm.
  lemma AddNew(ports: seq<SpPortItem>, p: DiscoveredPort, filter: Option<string -> bool>, version: string)
    requires Admitted(p, filter) && forall j :: 0 <= j < |ports| ==> ports[j].Name != p.Address
    ensures var r := AddSpec(ports, p, filter, version);
      |r| == |ports| + 1 && r[..|ports|] == ports &&
      r[|ports|].Name == p.Address && !r[|ports|].IsOpen && !r[|ports|].IsPrimary &&
      r[|ports|].Baud == 0 && r[|ports|].BufferAlgorithm == ""
  {
    assert IndexOfName(ports, p.Address).None?;
  }

  // When `add` is the only way in, names stay unique.
  lemma AddKeepsUnique(ports: seq<SpPortItem>, p: DiscoveredPort, filter: Option<string -> bool>, version: string)
    requires UniqueNames(ports)
    ensures UniqueNames(AddSpec(ports, p, filter, version))
  {
  }

  lemma {:induction false} RemoveSnoc(ports: seq<SpPortItem>, x: SpPortItem, address: string)
    ensures RemoveSpec(ports + [x], address) == RemoveSpec(ports, address) + (if x.Name == address then [] else [x])
  {
    assert (ports + [x])[..|ports + [x]| - 1] == ports;
  }

  // After `remove` no item carries the address, every other item is kept,
  // and the kept items are in their old order.
  lemma {:induction false} RemoveDropsExactly(ports: seq<SpPortItem>, address: string)
    ensures forall j :: 0 <= j < |RemoveSpec(ports, address)| ==> RemoveSpec(ports, address)[j].Name != address
    ensures forall x :: x in ports && x.Name != address ==> x in RemoveSpec(ports, address)
    ensures forall x :: x in RemoveSpec(ports, address) ==> x in ports
    ensures Subsequence(RemoveSpec(ports, address), ports)
    decreases |ports|
  {
    if ports != [] {
      var init := ports[..|ports| - 1];
      var last := ports[|ports| - 1];
      RemoveDropsExactly(init, address);
      assert ports == init + [last];
      RemoveSnoc(init, last, address);
      forall x | x in ports && x.Name != address
        ensures x in RemoveSpec(ports, address)
      {
        if x != last {
          assert x in init;
        }
      }
    }
  }

  // Removing keeps names unique.
  lemma {:induction false} RemoveKeepsUnique(ports: seq<SpPortItem>, address: string)
    requires UniqueNames(ports)
    ensures UniqueNames(RemoveSpec(ports, address))
    decreases |ports|
  {
    if ports != [] {
      var init := ports[..|ports| - 1];
      var last := ports[|ports| - 1];
      RemoveKeepsUnique(init, address);
      RemoveDropsExactly(init, address);
    }
  }

  // Marking changes only the IsOpen flag of the item with that name, and
  // nothing at all when the name is not listed.
  lemma MarkOnlyFlag(ports: seq<SpPortItem>, name: string, open: bool)
    requires UniqueNames(ports)
    ensures var r := MarkSpec(ports, name, open);
      |r| == |ports| &&
      forall j :: 0 <= j < |ports| ==>
        r[j] == (if ports[j].Name == name then ports[j].(IsOpen := open) else ports[j])
  {
  }

  // Opening and then closing a listed port gives back the list it had
  // when the port was closed.
  lemma MarkOpenThenClosed(ports: seq<SpPortItem>, name: string)
    requires forall j :: 0 <= j < |ports| && ports[j].Name == name ==> !ports[j].IsOpen
    ensures MarkSpec(MarkSpec(ports, name, true), name, false) == ports
  {
    match IndexOfName(ports, name)
    case None =>
    case Some(i) =>
      var marked := MarkSpec(ports, name, true);
      UniqueIndex(marked, name, Some(i));
      assert marked[i := marked[i].(IsOpen := false)] == ports;
  }
}
