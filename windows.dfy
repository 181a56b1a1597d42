// The string and byte handling of the Windows port list
// (seriallist_windows.go): the COM name cut out of a WMI device name, the
// serial number and USB ids read from a device id, the loop that fills the
// port list, and the little-endian decoding of a byte buffer into 16-bit
// words. WMI itself is outside the model: the properties it reports are
// inputs.
module SerialListWindows {
  import opened Wrappers
  import opened GoStrings
  import opened Bytes
  import Strconv

  // ---------------------------------------------------------------------
  // convertByteArrayToUint16Array

  type uint16 = x: int | 0 <= x < 0x1_0000

  function Pow2(k: nat): (r: nat)
    ensures r >= 1
  {
    if k == 0 then 1 else 2 * Pow2(k - 1)
  }

  // a | b on naturals, bit by bit from the lowest.
  function Or(a: nat, b: nat): nat
    decreases a + b
  {
    if a == 0 then b
    else if b == 0 then a
    else (if a % 2 == 1 || b % 2 == 1 then 1 else 0) + 2 * Or(a / 2, b / 2)
  }

  // Or of a number below 2^k and a multiple of 2^k: their bits do not
  // overlap, so | adds them.
  lemma {:induction false} OrDisjoint(a: nat, b: nat, k: nat)
    requires a < Pow2(k)
    ensures Or(a, b * Pow2(k)) == a + b * Pow2(k)
    decreases k
  {
    if k > 0 && a != 0 && b != 0 {
      var m := b * Pow2(k - 1);
      assert b * Pow2(k) == 2 * m;
      assert (2 * m) % 2 == 0 && (2 * m) / 2 == m;
      OrDisjoint(a / 2, b, k - 1);
    }
  }

  // uint16(lo) | uint16(hi)<<8, the shift cut to 16 bits: the
  // little-endian reading of the two bytes.
  function Word(lo: byte, hi: byte): (r: uint16)
    ensures r == lo + 256 * hi
  {
    assert Pow2(8) == 256;
    OrDisjoint(lo, hi, 8);
    Or(lo, (hi * 256) % 0x1_0000)
  }

  // The bytes of a word, low byte first.
  function WordBytes(w: uint16): (r: (byte, byte))
    ensures Word(r.0, r.1) == w
  {
    (w % 256, w / 256)
  }

  // WordBytes undoes Word: two different byte pairs never give the same
  // word.
  lemma WordRoundTrip(lo: byte, hi: byte)
    ensures WordBytes(Word(lo, hi)) == (lo, hi)
  {
    var w := lo + 256 * hi;
    assert w % 256 == lo && w / 256 == hi;
  }

  // convertByteArrayToUint16Array: word k of the result is bytes 2k and
  // 2k+1 of `b`. The source indexes out of range (and panics) unless
  // `mylen` is even and at most the length of `b`; `mylen` is a uint32.
  method ConvertBytes(b: seq<byte>, mylen: nat) returns (ret: array<uint16>)
    requires mylen < 0x1_0000_0000
    requires mylen % 2 == 0 && mylen <= |b|
    ensures fresh(ret) && ret.Length == mylen / 2
    ensures forall k :: 0 <= k < ret.Length ==> ret[k] == Word(b[2 * k], b[2 * k + 1])
  {
    ret := new uint16[mylen / 2];
    var i: nat := 0;
    while i < mylen
      invariant i % 2 == 0 && i <= mylen
      invariant forall k :: 0 <= k < i / 2 ==> ret[k] == Word(b[2 * k], b[2 * k + 1])
      decreases mylen - i
    {
      ret[i / 2] := Word(b[i], b[i + 1]);
      i := i + 2;
    }
  }

  // ---------------------------------------------------------------------
  // The COM name

  function ComMarker(): string { "(COM" }

  // "COM" and the text of `piece` up to its first ")".
  function ComOf(piece: string): (r: string)
    ensures HasPrefix(r, "COM") && ')' !in r
  {
    var s := Split("COM" + piece, ")");
    SplitHeadKeeps("COM", piece, ")");
    SplitPiecesFree("COM" + piece, ")");
    NotContainsChar(s[0], ')');
    s[0]
  }

  // The name of the port: "COM" and the text after the first "(COM" up
  // to the next ")". A name without "(COM" has no second piece and the
  // source panics: None.
  function ComName(name: string): (r: Option<string>)
    ensures r.None? <==> !Contains(name, ComMarker())
    ensures r.Some? ==> HasPrefix(r.value, "COM") && ')' !in r.value
  {
    var pieces := Split(name, ComMarker());
    if |pieces| < 2 then None else Some(ComOf(pieces[1]))
  }

  lemma ComMarkerLeads()
    ensures forall i :: 1 <= i < |ComMarker()| ==> ComMarker()[i] != ComMarker()[0]
  {
    assert ComMarker() == ['(', 'C', 'O', 'M'];
  }

  // The pieces of a name whose first "(COM" follows `a`.
  lemma SplitAtMarker(a: string, t: string)
    requires !Contains(a, ComMarker())
    ensures Split(a + ComMarker() + t, ComMarker()) == [a] + Split(t, ComMarker())
  {
    var name := a + ComMarker() + t;
    ComMarkerLeads();
    IndexAfterAbsent(a, ComMarker(), t);
    assert name[..|a|] == a && name[|a| + |ComMarker()|..] == t;
  }

  lemma ComOfClosed(n: string, w: string)
    requires ')' !in n
    ensures ComOf(n + ")" + w) == "COM" + n
  {
    assert "COM" + (n + ")" + w) == ("COM" + n) + [')'] + w;
    assert ')' !in "COM" + n;
    SplitAfterFree("COM" + n, ')', w);
  }

  // A WMI name "<description> (COM<n>)<rest>" gives "COM<n>", when the
  // description holds no "(COM" and n holds no parenthesis.
  lemma ComNameOf(a: string, n: string, rest: string)
    requires !Contains(a, ComMarker())
    requires '(' !in n && ')' !in n
    ensures ComName(a + ComMarker() + n + ")" + rest) == Some("COM" + n)
  {
    var t := n + ")" + rest;
    assert a + ComMarker() + n + ")" + rest == a + ComMarker() + t;
    SplitAtMarker(a, t);
    assert '(' !in n + ")";
    SplitHeadKeeps(n + ")", rest, ComMarker());
    var p1 := Split(t, ComMarker())[0];
    var w := p1[|n| + 1..];
    assert p1 == p1[..|n| + 1] + w;
    ComOfClosed(n, w);
  }

  // ---------------------------------------------------------------------
  // The device id

  // The longest run of decimal digits that `s` starts with.
  function DigitRun(s: string): (r: string)
    ensures r <= s && Strconv.AllDigits(r)
    ensures |r| < |s| ==> !Strconv.IsDigit(s[|r|])
  {
    if s != [] && Strconv.IsDigit(s[0]) then [s[0]] + DigitRun(s[1..]) else []
  }

  // The regular expression key(\d+) matches at position i.
  predicate MatchAt(s: string, key: string, i: nat)
  {
    OccursAt(s, key, i) && i + |key| < |s| && Strconv.IsDigit(s[i + |key|])
  }

  // The leftmost position from `i` on where key(\d+) matches.
  function FirstMatch(s: string, key: string, i: nat): (r: Option<nat>)
    requires i <= |s|
    ensures r.Some? ==> i <= r.value && MatchAt(s, key, r.value)
    ensures r.Some? ==> forall j: nat :: i <= j < r.value ==> !MatchAt(s, key, j)
    ensures r.None? ==> forall j: nat :: i <= j ==> !MatchAt(s, key, j)
    decreases |s| - i
  {
    if MatchAt(s, key, i) then Some(i)
    else if i == |s| then None
    else FirstMatch(s, key, i + 1)
  }

  // The first submatch of regexp key(\d+) in `s`: the digits after the
  // leftmost match, as many as there are (the repetition is greedy).
  function Submatch(s: string, key: string): (r: Option<string>)
    ensures r.None? <==> forall j: nat :: !MatchAt(s, key, j)
    ensures r.Some? ==> |r.value| >= 1 && Strconv.AllDigits(r.value)
  {
    match FirstMatch(s, key, 0)
    case None => None
    case Some(i) => Some(DigitRun(s[i + |key|..]))
  }

  // A device id that starts with key and digits gives those digits.
  lemma SubmatchLeading(key: string, d: string, rest: string)
    requires |d| >= 1 && Strconv.AllDigits(d)
    requires rest == [] || !Strconv.IsDigit(rest[0])
    ensures Submatch(key + d + rest, key) == Some(d)
  {
    var s := key + d + rest;
    assert s[..|key|] == key && s[|key|] == d[0];
    assert MatchAt(s, key, 0);
    DigitRunOf(d, rest);
    assert s[|key|..] == d + rest;
  }

  lemma {:induction false} DigitRunOf(d: string, rest: string)
    requires Strconv.AllDigits(d)
    requires rest == [] || !Strconv.IsDigit(rest[0])
    ensures DigitRun(d + rest) == d
    decreases |d|
  {
    if d == [] {
      assert d + rest == rest;
    } else {
      assert (d + rest)[1..] == d[1..] + rest;
      DigitRunOf(d[1..], rest);
      assert [d[0]] + d[1..] == d;
    }
  }

  datatype Ids = Ids(serialNumber: string, idProduct: string, idVendor: string)

  function ProductKey(): string { "PID_" }
  function VendorKey(): string { "VID_" }
  // The Go literal "USB\\VID_" is the text USB\VID_.
  function UsbVendorKey(): string { "USB\\VID_" }

  // The serial number and the product and vendor ids read from a device
  // id: with more than three '&'-pieces, piece 3 and pieces 1 and 0 with
  // their first "PID_" and "USB\VID_" removed; otherwise the whole id
  // and the digits after PID_ and VID_ (empty without a match). Both ids
  // then get a "0x" prefix.
  function DeviceIds(id: string): (r: Ids)
    ensures HasPrefix(r.idProduct, "0x") && HasPrefix(r.idVendor, "0x")
    ensures |Split(id, "&")| <= 3 ==> r.serialNumber == id
    ensures |Split(id, "&")| > 3 ==> r.serialNumber == Split(id, "&")[3]
  {
    var items := Split(id, "&");
    if |items| > 3 then
      Ids(items[3], "0x" + ReplaceFirst(items[1], ProductKey(), ""),
          "0x" + ReplaceFirst(items[0], UsbVendorKey(), ""))
    else
      Ids(id, "0x" + Submatch(id, ProductKey()).GetOr(""), "0x" + Submatch(id, VendorKey()).GetOr(""))
  }

  // Removing a prefix the text starts with leaves the rest.
  lemma ReplaceLeading(key: string, x: string)
    requires |key| > 0
    ensures ReplaceFirst(key + x, key, "") == x
  {
    assert key <= key + x;
    assert Index(key + x, key) == Some(0);
    assert (key + x)[|key|..] == x;
  }

  // Four '&'-free words, each followed by '&', and then anything: the
  // first four pieces are the words.
  lemma SplitFourWords(w0: string, w1: string, w2: string, w3: string, rest: string)
    requires '&' !in w0 && '&' !in w1 && '&' !in w2 && '&' !in w3
    ensures Split(w0 + "&" + w1 + "&" + w2 + "&" + w3 + "&" + rest, "&")
         == [w0, w1, w2, w3] + Split(rest, "&")
  {
    var t3 := w3 + ['&'] + rest;
    var t2 := w2 + ['&'] + t3;
    var t1 := w1 + ['&'] + t2;
    assert w0 + "&" + w1 + "&" + w2 + "&" + w3 + "&" + rest == w0 + ['&'] + t1;
    SplitAfterFree(w3, '&', rest);
    SplitAfterFree(w2, '&', t3);
    SplitAfterFree(w1, '&', t2);
    SplitAfterFree(w0, '&', t1);
    ConsFour(w0, w1, w2, w3, Split(rest, "&"));
  }

  lemma ConsFour<T>(a: T, b: T, c: T, d: T, tail: seq<T>)
    ensures [a] + ([b] + ([c] + ([d] + tail))) == [a, b, c, d] + tail
  {
  }

  lemma KeysFree()
    ensures '&' !in UsbVendorKey() && '&' !in ProductKey()
  {
    assert UsbVendorKey() == ['U', 'S', 'B', '\\', 'V', 'I', 'D', '_'];
    assert ProductKey() == ['P', 'I', 'D', '_'];
  }

  // A composite USB device id USB\VID_<v>&PID_<p>&<a>&<serial>&<rest>
  // gives serial number <serial>, product 0x<p> and vendor 0x<v>.
  lemma DeviceIdsOfComposite(v: string, p: string, a: string, serial: string, rest: string)
    requires '&' !in v && '&' !in p && '&' !in a && '&' !in serial
    ensures DeviceIds(UsbVendorKey() + v + "&" + ProductKey() + p + "&" + a + "&" + serial + "&" + rest)
         == Ids(serial, "0x" + p, "0x" + v)
  {
    var v0 := UsbVendorKey() + v;
    var p0 := ProductKey() + p;
    KeysFree();
    var id := UsbVendorKey() + v + "&" + ProductKey() + p + "&" + a + "&" + serial + "&" + rest;
    assert id == v0 + "&" + p0 + "&" + a + "&" + serial + "&" + rest;
    SplitFourWords(v0, p0, a, serial, rest);
    ReplaceLeading(ProductKey(), p);
    ReplaceLeading(UsbVendorKey(), v);
  }

  // ---------------------------------------------------------------------
  // The port list

  // The properties WMI reports for one Win32_PnPEntity.
  datatype Item = Item(name: string, deviceID: string, manufacturer: string, description: string)

  // OsSerialPort as this file fills it.
  datatype Port = Port(name: string, serialNumber: string, idProduct: string, idVendor: string,
                       manufacturer: string, product: string)

  function Blank(): Port { Port("", "", "", "", "", "") }

  // The entry of one item, None where the COM name panics.
  function Entry(item: Item): (r: Option<Port>)
    ensures r.Some? <==> Contains(item.name, ComMarker())
    ensures r.Some? ==> Some(r.value.name) == ComName(item.name)
    ensures r.Some? ==> Ids(r.value.serialNumber, r.value.idProduct, r.value.idVendor) == DeviceIds(item.deviceID)
    ensures r.Some? ==> r.value.manufacturer == item.manufacturer && r.value.product == item.description
  {
    match ComName(item.name)
    case None => None
    case Some(n) =>
      var ids := DeviceIds(item.deviceID);
      Some(Port(n, ids.serialNumber, ids.idProduct, ids.idVendor, item.manufacturer, item.description))
  }

  // Every item's name carries a COM port.
  predicate AllNamed(items: seq<Item>)
  {
    forall k :: 0 <= k < |items| ==> Entry(items[k]).Some?
  }

  // getListViaWmiPnpEntity's loop over the query result: list[i] is
  // filled field by field. A panic on a name without "(COM" is
  // recovered by the function, which then returns an empty list.
  method WmiList(items: seq<Item>) returns (list: seq<Port>)
    ensures AllNamed(items) ==> |list| == |items|
    ensures AllNamed(items) ==> forall k :: 0 <= k < |items| ==> Some(list[k]) == Entry(items[k])
    ensures !AllNamed(items) ==> list == []
  {
    var a := new Port[|items|](_ => Blank());
    var i := 0;
    while i < |items|
      invariant 0 <= i <= |items|
      invariant forall k :: 0 <= k < i ==> Some(a[k]) == Entry(items[k])
    {
      var named := FillOne(a, items, i);
      if !named {
        return [];
      }
      i := i + 1;
    }
    list := a[..];
  }

  // One pass of the loop: list[i] is filled from the i-th item, or the
  // item's name panics.
  method FillOne(a: array<Port>, items: seq<Item>, i: nat) returns (named: bool)
    requires a.Length == |items| && i < |items|
    modifies a
    ensures named <==> Entry(items[i]).Some?
    ensures named ==> Some(a[i]) == Entry(items[i])
    ensures forall k :: 0 <= k < a.Length && k != i ==> a[k] == old(a[k])
  {
    var item := items[i];
    var name := ComName(item.name);
    if name.None? {
      return false;
    }
    a[i] := a[i].(name := name.value);
    var ids := DeviceIds(item.deviceID);
    a[i] := a[i].(serialNumber := ids.serialNumber, idProduct := ids.idProduct, idVendor := ids.idVendor);
    a[i] := a[i].(manufacturer := item.manufacturer);
    a[i] := a[i].(product := item.description);
    named := true;
  }
}
