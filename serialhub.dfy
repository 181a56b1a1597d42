// serialhub.go: the registry of open serial ports. The hub's OnRegister and
// OnUnregister callbacks are recorded as events, one per call.
module SerialHub {
  import opened GoStrings
  import opened SerialPort

  datatype HubEvent = Registered(port: SerPort) | Unregistered(port: SerPort)

  // The registered ports whose name matches `name` case-insensitively.
  ghost function Named(ports: set<SerPort>, name: string): set<SerPort>
  {
    set q | q in ports && EqualFold(q.name, name)
  }

  class Registry {
    var ports: set<SerPort>
    var events: seq<HubEvent>

    constructor ()
      ensures ports == {} && events == []
    {
      ports := {};
      events := [];
    }

    // Register: calls OnRegister once, then adds the port.
    method Register(port: SerPort)
      modifies this
      ensures ports == old(ports) + {port}
      ensures events == old(events) + [Registered(port)]
    {
      events := events + [Registered(port)];
      ports := ports + {port};
    }

    // Unregister: calls OnUnregister once, removes the port and closes its
    // sendBuffered and sendNoBuf channels. Closing them a second time would
    // panic, so the channels must still be open.
    method Unregister(port: SerPort)
      requires !port.sendChannelsClosed
      modifies this, port
      ensures ports == old(ports) - {port}
      ensures events == old(events) + [Unregistered(port)]
      ensures port.sendChannelsClosed
      ensures port.delivered == old(port.delivered) && port.sys == old(port.sys)
      ensures port.written == old(port.written) && port.noBuf == old(port.noBuf)
      ensures port.itemsInBuffer == old(port.itemsInBuffer)
    {
      events := events + [Unregistered(port)];
      ports := ports - {port};
      port.sendChannelsClosed := true;
    }

    // FindPortByName: some registered port whose name equals `name` up to
    // case, or (null, false). Which one, when several match, depends on
    // map iteration order and is left open.
    method FindPortByName(name: string) returns (port: SerPort?, ok: bool)
      ensures ok <==> Named(ports, name) != {}
      ensures ok ==> port != null && port in Named(ports, name)
      ensures !ok ==> port == null
    {
      var rest := ports;
      while rest != {}
        invariant rest <= ports
        invariant forall q :: q in ports && q !in rest ==> !EqualFold(q.name, name)
        decreases rest
      {
        var q :| q in rest;
        if EqualFold(q.name, name) {
          assert q in Named(ports, name);
          return q, true;
        }
        rest := rest - {q};
      }
      return null, false;
    }
  }

  // A registered port is found under its own name, and under the name
  // written in another case.
  lemma RegisteredIsNamed(ports: set<SerPort>, port: SerPort, name: string)
    requires port in ports && ToLower(name) == ToLower(port.name)
    ensures port in Named(ports, name)
  {
  }

  // Unregistering one port leaves the matches of every other port as they
  // were.
  lemma UnregisterKeepsOthers(ports: set<SerPort>, port: SerPort, name: string)
    ensures Named(ports - {port}, name) == Named(ports, name) - {port}
  {
  }
}
