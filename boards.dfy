// The board half of the boards package (boards/boards.go and
// boards/helpers.go): the boards a boards.txt declares, their variants
// (one per menu entry) and the actions (upload, bootloader, ...) of each,
// and the expansion of an action's command line from a tool's pattern.
// Boards, variants and actions are values here; the package holds them
// behind pointers and updates them in place, and no two boards, variants
// or actions share one.
module Boards {
  import opened Wrappers
  import opened GoStrings
  import opened Paths
  import Platforms
  import Bytes
  import PlatformFiles

  // `files` holds the names of the files findFiles attaches; their
  // contents are I/O and not part of this model.
  datatype Action = Action(tool: string, toolVersion: string, ext: string, command: string,
                           params: map<string, string>, options: map<string, string>, files: seq<string>)

  datatype Variant = Variant(name: string, fqbn: string, actions: map<string, Action>)

  datatype Board = Board(id: string, name: string, vid: seq<string>, pid: seq<string>, package: string,
                         architecture: string, fqbn: string, variants: map<string, Variant>,
                         defaultVariant: string)

  // A missing key reads as "", as a Go map lookup does.
  function Lookup(opts: map<string, string>, key: string): string
  {
    if key in opts then opts[key] else ""
  }

  // ---------------------------------------------------------------------
  // helpers.go

  // options.Merge: a fresh map with the keys of both, the second one's
  // values winning.
  method Merge(opts1: map<string, string>, opts2: map<string, string>) returns (opts: map<string, string>)
    ensures opts.Keys == opts1.Keys + opts2.Keys
    ensures forall k :: k in opts2 ==> opts[k] == opts2[k]
    ensures forall k :: k in opts1 && k !in opts2 ==> opts[k] == opts1[k]
  {
    opts := map[];
    var left := opts1.Keys;
    while left != {}
      invariant left <= opts1.Keys
      invariant opts.Keys == opts1.Keys - left
      invariant forall k :: k in opts ==> opts[k] == opts1[k]
      decreases left
    {
      var key :| key in left;
      opts := opts[key := opts1[key]];
      left := left - {key};
    }
    left := opts2.Keys;
    while left != {}
      invariant left <= opts2.Keys
      invariant opts.Keys == opts1.Keys + (opts2.Keys - left)
      invariant forall k :: k in opts2 && k !in left ==> opts[k] == opts2[k]
      invariant forall k :: k in opts1 && k !in opts2 ==> opts[k] == opts1[k]
      decreases left
    {
      var key :| key in left;
      opts := opts[key := opts2[key]];
      left := left - {key};
    }
  }

  // The first segment of a key is "menu".
  predicate IsMenuKey(key: string)
  {
    Split(key, ".")[0] == "menu"
  }

  // The position of the first menu key in the order visited.
  function FirstMenu(keys: seq<string>): (r: Option<nat>)
    ensures r.Some? ==> r.value < |keys| && IsMenuKey(keys[r.value])
    ensures r.Some? ==> forall j :: 0 <= j < r.value ==> !IsMenuKey(keys[j])
    ensures r.None? ==> forall j :: 0 <= j < |keys| ==> !IsMenuKey(keys[j])
  {
    if keys == [] then None
    else if IsMenuKey(keys[0]) then Some(0)
    else match FirstMenu(keys[1..])
      case None => None
      case Some(k) => Some(k + 1)
  }

  // findMenu, over the keys in the order Go visits them: the second
  // segment of the first menu key, "cpu" when there is none, and a panic
  // (None) when that key is "menu" itself.
  method FindMenu(keys: seq<string>) returns (r: Option<string>)
    ensures FirstMenu(keys).None? ==> r == Some("cpu")
    ensures FirstMenu(keys).Some? ==> var parts := Split(keys[FirstMenu(keys).value], ".");
      (r.Some? <==> |parts| >= 2) && (r.Some? ==> r.value == parts[1])
    ensures r.None? <==> FirstMenu(keys).Some? && keys[FirstMenu(keys).value] == "menu"
  {
    var i := 0;
    while i < |keys|
      invariant 0 <= i <= |keys|
      invariant forall j :: 0 <= j < i ==> !IsMenuKey(keys[j])
    {
      var parts := Split(keys[i], ".");
      if parts[0] == "menu" {
        FirstMenuIs(keys, i);
        LoneSegment(keys[i]);
        if |parts| < 2 {
          return None;
        }
        return Some(parts[1]);
      }
      i := i + 1;
    }
    return Some("cpu");
  }

  lemma FirstMenuIs(keys: seq<string>, i: nat)
    requires i < |keys| && IsMenuKey(keys[i])
    requires forall j :: 0 <= j < i ==> !IsMenuKey(keys[j])
    ensures FirstMenu(keys) == Some(i)
  {
  }

  // A menu key has one segment exactly when it is "menu".
  lemma LoneSegment(key: string)
    requires IsMenuKey(key)
    ensures |Split(key, ".")| < 2 <==> key == "menu"
  {
    if |Split(key, ".")| < 2 {
      JoinSplit(key, ".");
    }
    if key == "menu" {
      SplitFree(key, '.');
    }
  }

  // An action as populateAction creates it.
  function EmptyAction(): Action
  {
    Action("", "", "", "", map[], map[], [])
  }

  function ActionOr(v: Variant, name: string): Action
  {
    if name in v.actions then v.actions[name] else EmptyAction()
  }

  // populateAction on the action itself: option "tool" also sets the
  // tool, and an option is written only while it reads as empty.
  function SetOption(a: Action, option: string, value: string): Action
  {
    var a1 := if option == "tool" then a.(tool := value) else a;
    if Lookup(a.options, option) == "" then a1.(options := a.options[option := value]) else a1
  }

  // populateAction: the named action, created when missing.
  function PopulateAction(v: Variant, name: string, option: string, value: string): (r: Variant)
    ensures r.name == v.name && r.fqbn == v.fqbn
    ensures r.actions.Keys == v.actions.Keys + {name}
    ensures forall n :: n in v.actions && n != name ==> r.actions[n] == v.actions[n]
    ensures option in r.actions[name].options
    ensures Lookup(r.actions[name].options, option)
         == (if Lookup(ActionOr(v, name).options, option) != "" then ActionOr(v, name).options[option] else value)
    ensures r.actions[name].tool == (if option == "tool" then value else ActionOr(v, name).tool)
  {
    v.(actions := v.actions[name := SetOption(ActionOr(v, name), option, value)])
  }

  // The first value written to an option stays; writing the same option
  // twice changes nothing more.
  lemma FirstWriteWins(v: Variant, name: string, option: string, value: string, other: string)
    ensures var once := PopulateAction(v, name, option, value);
      PopulateAction(once, name, option, other).actions[name].options
      == (if Lookup(once.actions[name].options, option) != "" then once.actions[name].options
          else once.actions[name].options[option := other])
    ensures PopulateAction(PopulateAction(v, name, option, value), name, option, value)
         == PopulateAction(v, name, option, value)
  {
    var once := PopulateAction(v, name, option, value);
    var a := once.actions[name];
    if Lookup(a.options, option) == "" {
      assert value == "";
      assert a.options[option := value] == a.options;
    }
    assert once.actions[name := SetOption(a, option, value)] == once.actions;
  }

  // The variant named by a menu key, created with the fqbn
  // board:menu=name when missing.
  function VariantOr(b: Board, menu: string, name: string): Variant
  {
    if name in b.variants then b.variants[name] else Variant("", b.fqbn + ":" + menu + "=" + name, map[])
  }

  // populateVariants: board.menu.M.V names variant V, and
  // board.menu.M.V.A.O... sets option O of its action A (what follows O
  // is dropped). Five segments make the code read one past the end, a
  // panic (None).
  function PopulateVariants(parts: seq<string>, b: Board, menu: string, value: string): (r: Option<Board>)
    requires |parts| >= 4
    ensures r.None? <==> |parts| == 5
    ensures r.Some? ==> r.value.(variants := b.variants) == b
    ensures r.Some? ==> r.value.variants.Keys == b.variants.Keys + {parts[3]}
    ensures r.Some? && |parts| == 4 ==> r.value.variants[parts[3]].name == value
  {
    var name := parts[3];
    var variant := VariantOr(b, menu, name);
    if |parts| == 4 then Some(b.(variants := b.variants[name := variant.(name := value)]))
    else if |parts| < 6 then None
    else Some(b.(variants := b.variants[name := PopulateAction(variant, parts[4], parts[5], value)]))
  }

  // populate: board.name, board.vid.N and board.pid.N set the name and
  // collect the ids; menu keys of four segments or more go to the
  // variants; any other key of three segments or more is an option of an
  // action of the "default" variant (a missing one is a nil dereference:
  // None).
  function Populate(parts: seq<string>, b: Board, menu: string, value: string): (r: Option<Board>)
    requires |parts| >= 2
    ensures r.Some? ==> r.value.id == b.id && r.value.fqbn == b.fqbn && r.value.package == b.package
                        && r.value.architecture == b.architecture && r.value.defaultVariant == b.defaultVariant
    ensures r.Some? ==> b.variants.Keys <= r.value.variants.Keys
    ensures r.None? <==> (parts[1] == "menu" && |parts| == 5)
                         || (!(parts[1] in {"name", "vid", "pid", "menu"}) && |parts| >= 3 && "default" !in b.variants)
                         || (parts[1] in {"vid", "pid"} && |parts| > 3 && "default" !in b.variants)
                         || (parts[1] == "menu" && |parts| == 3 && "default" !in b.variants)
  {
    if parts[1] == "name" then Some(b.(name := value))
    else if parts[1] == "vid" && |parts| == 3 then Some(b.(vid := b.vid + [value]))
    else if parts[1] == "pid" && |parts| == 3 then Some(b.(pid := b.pid + [value]))
    else if parts[1] == "menu" && |parts| >= 4 then PopulateVariants(parts, b, menu, value)
    else if |parts| >= 3 then
      if "default" in b.variants then
        var def := b.variants["default"];
        Some(b.(variants := b.variants["default" := PopulateAction(def, parts[1], Join(parts[2..], "."), value)]))
      else None
    else Some(b)
  }

  // The three boards whose default variant normalize chooses.
  function DefaultFor(id: string): Option<string>
  {
    if id == "atmegang" then Some("atmega168")
    else if id == "mega" then Some("atmega2560")
    else if id == "pro" then Some("16MHzatmega328")
    else if id in {"bt", "diecimila", "lilypad", "mini", "nano"} then Some("atmega328")
    else None
  }

  // normalize: a board with two variants or more gets the fixed default
  // variant of its id, if it has one.
  function Normalize(b: Board): (r: Board)
    ensures r == b.(defaultVariant := r.defaultVariant)
    ensures |b.variants| < 2 || DefaultFor(b.id).None? ==> r == b
    ensures |b.variants| >= 2 && DefaultFor(b.id).Some? ==> r.defaultVariant == DefaultFor(b.id).value
  {
    if |b.variants| < 2 then b
    else match DefaultFor(b.id)
      case None => b
      case Some(d) => b.(defaultVariant := d)
  }

  lemma NormalizeIdempotent(b: Board)
    ensures Normalize(Normalize(b)) == Normalize(b)
  {
  }

  // in: membership ignoring the case of ASCII letters.
  method In(a: string, list: seq<string>) returns (found: bool)
    ensures found <==> exists i :: 0 <= i < |list| && ToLower(list[i]) == ToLower(a)
  {
    var lower := ToLower(a);
    var i := 0;
    while i < |list|
      invariant 0 <= i <= |list|
      invariant forall j :: 0 <= j < i ==> ToLower(list[j]) != lower
    {
      if ToLower(list[i]) == lower {
        return true;
      }
      i := i + 1;
    }
    return false;
  }

  // ---------------------------------------------------------------------
  // Pushing the default variant's actions into the others

  // The options after the options in S of the default action were
  // offered, each written only where the variant's option reads empty.
  function Offered(o: map<string, string>, ao: map<string, string>, s: set<string>): map<string, string>
    requires s <= ao.Keys
  {
    map k | k in o.Keys + s :: if k in s && Lookup(o, k) == "" then ao[k] else o[k]
  }

  // The action after the tool and the options in S were offered.
  function Stage(c1: Action, a: Action, s: set<string>): Action
    requires s <= a.options.Keys
  {
    c1.(tool := if "tool" in s then a.options["tool"] else c1.tool, options := Offered(c1.options, a.options, s))
  }

  // The variant's action after the default action `a` was pushed into it:
  // its tool, then each of its options.
  function Pushed(c: Action, a: Action): Action
  {
    Stage(SetOption(c, "tool", a.tool), a, a.options.Keys)
  }

  lemma StageStep(c1: Action, a: Action, s: set<string>, opt: string)
    requires s <= a.options.Keys && opt in a.options && opt !in s
    ensures SetOption(Stage(c1, a, s), opt, a.options[opt]) == Stage(c1, a, s + {opt})
  {
    var lhs := SetOption(Stage(c1, a, s), opt, a.options[opt]);
    var rhs := Stage(c1, a, s + {opt});
    OfferedStep(c1.options, a.options, s, opt);
    assert lhs.options == rhs.options;
    assert lhs.tool == rhs.tool;
  }

  // One more option offered: written where it reads empty.
  lemma OfferedStep(o: map<string, string>, ao: map<string, string>, s: set<string>, opt: string)
    requires s <= ao.Keys && opt in ao && opt !in s
    ensures var m := Offered(o, ao, s);
      (if Lookup(m, opt) == "" then m[opt := ao[opt]] else m) == Offered(o, ao, s + {opt})
  {
    var m := Offered(o, ao, s);
    assert Lookup(m, opt) == Lookup(o, opt);
    var lhs := if Lookup(m, opt) == "" then m[opt := ao[opt]] else m;
    var rhs := Offered(o, ao, s + {opt});
    assert lhs.Keys == rhs.Keys;
    forall k | k in lhs
      ensures lhs[k] == rhs[k]
    {
    }
  }

  // What pushing leaves: the options the variant had set stay, the
  // default's fill the rest, and the tool is the default's ("tool"
  // option first).
  lemma PushedKeepsAndFills(c: Action, a: Action)
    ensures Pushed(c, a).options.Keys == c.options.Keys + a.options.Keys + {"tool"}
    ensures forall k :: Lookup(c.options, k) != "" ==> Pushed(c, a).options[k] == c.options[k]
    ensures forall k :: k in a.options && k != "tool" && Lookup(c.options, k) == "" ==> Pushed(c, a).options[k] == a.options[k]
    ensures Pushed(c, a).tool == (if "tool" in a.options then a.options["tool"] else a.tool)
  {
  }

  lemma OfferedNothing(o: map<string, string>, ao: map<string, string>)
    ensures Offered(o, ao, {}) == o
  {
  }

  // populateAction for the tool, then for each option of the default
  // action, in whatever order the map yields them.
  method PushAction(v0: Variant, name: string, a: Action) returns (v: Variant)
    ensures v == v0.(actions := v0.actions[name := Pushed(ActionOr(v0, name), a)])
  {
    v := PopulateAction(v0, name, "tool", a.tool);
    var c1 := v.actions[name];
    OfferedNothing(c1.options, a.options);
    assert Stage(c1, a, {}) == c1;
    var left := a.options.Keys;
    assert a.options.Keys - left == {};
    while left != {}
      invariant left <= a.options.Keys
      invariant v == v0.(actions := v0.actions[name := Stage(c1, a, a.options.Keys - left)])
      decreases left
    {
      var opt :| opt in left;
      v := OfferOne(v0, name, c1, a, left, v, opt);
      left := left - {opt};
    }
    assert a.options.Keys - left == a.options.Keys;
  }

  // One option of the default action pushed.
  method OfferOne(ghost v0: Variant, name: string, ghost c1: Action, a: Action, ghost left: set<string>,
                  v: Variant, opt: string) returns (v': Variant)
    requires left <= a.options.Keys && opt in left
    requires v == v0.(actions := v0.actions[name := Stage(c1, a, a.options.Keys - left)])
    ensures v' == v0.(actions := v0.actions[name := Stage(c1, a, a.options.Keys - (left - {opt}))])
  {
    StageStep(c1, a, a.options.Keys - left, opt);
    DoneStep(a.options.Keys, left, opt);
    v' := PopulateAction(v, name, opt, a.options[opt]);
  }

  // The keys done grow by the one taken from those left.
  lemma DoneStep(keys: set<string>, left: set<string>, x: string)
    requires left <= keys && x in left
    ensures (keys - left) + {x} == keys - (left - {x})
  {
  }

  // A variant after the actions in S of the default variant were pushed.
  function PartlyPushed(v: Variant, def: Variant, s: set<string>): Variant
    requires s <= def.actions.Keys
  {
    v.(actions := map n | n in v.actions.Keys + s ::
                    if n in s then Pushed(ActionOr(v, n), def.actions[n]) else v.actions[n])
  }

  // A variant after every action of the default variant was pushed.
  function PushedVariant(v: Variant, def: Variant): Variant
  {
    PartlyPushed(v, def, def.actions.Keys)
  }

  lemma PushStep(v0: Variant, def: Variant, s: set<string>, name: string)
    requires s <= def.actions.Keys && name in def.actions && name !in s
    ensures var v := PartlyPushed(v0, def, s);
      v.(actions := v.actions[name := Pushed(ActionOr(v, name), def.actions[name])]) == PartlyPushed(v0, def, s + {name})
  {
    var v := PartlyPushed(v0, def, s);
    assert ActionOr(v, name) == ActionOr(v0, name);
    var lhs := v.actions[name := Pushed(ActionOr(v, name), def.actions[name])];
    var rhs := PartlyPushed(v0, def, s + {name}).actions;
    assert lhs.Keys == rhs.Keys;
    forall n | n in lhs
      ensures lhs[n] == rhs[n]
    {
    }
    assert lhs == rhs;
  }

  method PushDefaults(v0: Variant, def: Variant) returns (v: Variant)
    ensures v == PushedVariant(v0, def)
  {
    v := v0;
    assert PartlyPushed(v0, def, {}) == v0;
    var left := def.actions.Keys;
    while left != {}
      invariant left <= def.actions.Keys
      invariant v == PartlyPushed(v0, def, def.actions.Keys - left)
      decreases left
    {
      var name :| name in left;
      PushStep(v0, def, def.actions.Keys - left, name);
      DoneStep(def.actions.Keys, left, name);
      v := PushAction(v, name, def.actions[name]);
      left := left - {name};
    }
    assert def.actions.Keys - left == def.actions.Keys;
  }

  // The post-load step of ParseBoardsTXT for one board: a board with no
  // variant but "default" keeps it; otherwise "default" goes and its
  // actions are pushed into every other variant.
  function Upgraded(b: Board): Board
    requires "default" in b.variants
  {
    var def := b.variants["default"];
    var rest := b.variants - {"default"};
    if |rest| == 0 then b
    else b.(variants := map n | n in rest :: PushedVariant(rest[n], def))
  }

  method Upgrade(b0: Board) returns (b: Board)
    requires "default" in b0.variants
    ensures b == Upgraded(b0)
  {
    var def := b0.variants["default"];
    var rest := b0.variants - {"default"};
    if |rest| == 0 {
      return b0;
    }
    var variants := rest;
    var left := rest.Keys;
    while left != {}
      invariant left <= rest.Keys
      invariant variants == map n | n in rest :: if n in left then rest[n] else PushedVariant(rest[n], def)
      decreases left
    {
      var name :| name in left;
      var pushed := PushDefaults(variants[name], def);
      variants := variants[name := pushed];
      left := left - {name};
    }
    return b0.(variants := variants);
  }

  lemma UpgradeKeepsLoneDefault(b: Board)
    requires b.variants.Keys == {"default"}
    ensures Upgraded(b) == b
  {
    assert (b.variants - {"default"}).Keys == {};
  }

  // With other variants, "default" is gone and every action of it is in
  // each of them.
  lemma UpgradeDropsDefault(b: Board)
    requires "default" in b.variants && b.variants.Keys != {"default"}
    ensures Upgraded(b).variants.Keys == b.variants.Keys - {"default"}
    ensures forall n, m :: n in Upgraded(b).variants && m in b.variants["default"].actions
                           ==> m in Upgraded(b).variants[n].actions
  {
    var k :| k in b.variants && k != "default";
    assert k in (b.variants - {"default"}).Keys;
  }

  // ---------------------------------------------------------------------
  // boards.go: the list of boards

  // Boards.New: a board with only the fqbn, no ids, and a "default"
  // variant without actions.
  function NewBoard(id: string): Board
  {
    Board("", "", [], [], "", "", id, map["default" := Variant("", id, map[])], "default")
  }

  // One key of a boards.txt: keys whose first segment is "menu" or empty
  // are skipped; the first segment names the board pack:arch:id, created
  // when new; a key of two segments or more populates it.
  function Discover(temp: map<string, Board>, pack: string, arch: string, menu: string,
                    key: string, value: string): Option<map<string, Board>>
  {
    var parts := Split(key, ".");
    if parts[0] == "menu" || parts[0] == "" then Some(temp)
    else
      var fqbn := pack + ":" + arch + ":" + parts[0];
      var board := if fqbn in temp then temp[fqbn]
                   else NewBoard(fqbn).(id := parts[0], package := pack, architecture := arch);
      if |parts| < 2 then Some(temp[fqbn := board])
      else match Populate(parts, board, menu, value)
        case None => None
        case Some(b) => Some(temp[fqbn := b])
  }

  function DiscoverAll(pack: string, arch: string, menu: string, props: seq<(string, string)>): Option<map<string, Board>>
    decreases |props|
  {
    if props == [] then Some(map[])
    else match DiscoverAll(pack, arch, menu, props[..|props| - 1])
      case None => None
      case Some(temp) =>
        var last := props[|props| - 1];
        Discover(temp, pack, arch, menu, last.0, last.1)
  }

  // Every board collected is filed under its own fqbn and keeps a
  // "default" variant.
  predicate WellFiled(temp: map<string, Board>)
  {
    forall f :: f in temp ==> temp[f].fqbn == f && "default" in temp[f].variants
  }

  lemma {:induction false} DiscoverAllWellFiled(pack: string, arch: string, menu: string, props: seq<(string, string)>)
    ensures DiscoverAll(pack, arch, menu, props).Some? ==> WellFiled(DiscoverAll(pack, arch, menu, props).value)
    decreases |props|
  {
    if props != [] {
      DiscoverAllWellFiled(pack, arch, menu, props[..|props| - 1]);
    }
  }

  // A board key files its board as pack:arch:id.
  lemma DiscoverFiles(temp: map<string, Board>, pack: string, arch: string, menu: string,
                      id: string, rest: string, value: string)
    requires id != "" && id != "menu" && '.' !in id
    requires Discover(temp, pack, arch, menu, id + "." + rest, value).Some?
    ensures pack + ":" + arch + ":" + id in Discover(temp, pack, arch, menu, id + "." + rest, value).value
  {
    var key := id + "." + rest;
    IndexAfterFree(id, '.', rest);
    assert key == id + ['.'] + rest;
    SplitAfterFree(id, '.', rest);
  }

  // The post-load step: upgraded and normalized.
  function Finished(b: Board): Board
    requires "default" in b.variants
  {
    Normalize(Upgraded(b))
  }

  datatype ParseOutcome = Parsed | Failed(msg: string) | Panics

  class BoardList {
    var list: map<string, Board>

    constructor ()
      ensures list == map[]
    {
      list := map[];
    }

    // Boards.ByID
    function ByID(id: string): (r: Option<Board>)
      reads this
      ensures r.Some? <==> id in list
      ensures r.Some? ==> r.value == list[id]
    {
      if id in list then Some(list[id]) else None
    }

    // Boards.ByVidPid: a board (any, when several fit) listing both ids,
    // ignoring case; None when no board does.
    method ByVidPid(vid: string, pid: string) returns (r: Option<Board>)
      ensures r.None? <==> forall f :: f in list ==> !Lists(list[f], vid, pid)
      ensures r.Some? ==> (exists f :: f in list && list[f] == r.value) && Lists(r.value, vid, pid)
    {
      var left := list.Keys;
      while left != {}
        invariant left <= list.Keys
        invariant forall f :: f in list && f !in left ==> !Lists(list[f], vid, pid)
        decreases left
      {
        var f :| f in left;
        var board := list[f];
        var inVid := In(vid, board.vid);
        var inPid := In(pid, board.pid);
        if inVid && inPid {
          return Some(board);
        }
        left := left - {f};
      }
      return None;
    }

    // Boards.New
    method New(id: string) returns (board: Board)
      modifies this
      ensures board == NewBoard(id) && list == old(list)[id := board]
    {
      board := NewBoard(id);
      list := list[id := board];
    }

    // ParseBoardsTXT with the file's keys in the order Go visits them
    // (the same order serves findMenu); an unreadable file or a panic
    // changes nothing.
    method ParseBoardsTXT(file: string, props: Result<seq<(string, string)>>) returns (r: ParseOutcome)
      modifies this
      ensures props.Err? ==> r == Failed("parse properties of " + file + ": " + props.msg)
      ensures r == Parsed ==> props.Ok? && exists menu :: Loaded(file, props.value, menu, old(list), list)
      ensures r != Parsed ==> list == old(list)
    {
      var arch := Base(Dir(file));
      var pack := Base(Dir(Dir(file)));
      if props.Err? {
        return Failed("parse properties of " + file + ": " + props.msg);
      }
      var found := FindMenu(Keys(props.value));
      if found.None? {
        return Panics;
      }
      var menu := found.value;
      assert Menus(props.value, menu);
      var temp := DiscoverLoop(pack, arch, menu, props.value);
      if temp.None? {
        return Panics;
      }
      DiscoverAllWellFiled(pack, arch, menu, props.value);
      var finished := FinishAll(temp.value);
      list := list + finished;
      assert Loaded(file, props.value, menu, old(list), list);
      return Parsed;
    }
  }

  // What a parse leaves: the boards the entries declare, under the menu
  // findMenu settles on, each finished and filed over any board of the
  // same fqbn.
  ghost predicate Loaded(file: string, props: seq<(string, string)>, menu: string,
                         before: map<string, Board>, after: map<string, Board>)
  {
    var temp := DiscoverAll(Base(Dir(Dir(file))), Base(Dir(file)), menu, props);
    Menus(props, menu) && temp.Some? && WellFiled(temp.value)
    && after == before + map f | f in temp.value :: Finished(temp.value[f])
  }

  // The first loop of ParseBoardsTXT.
  method DiscoverLoop(pack: string, arch: string, menu: string, entries: seq<(string, string)>)
      returns (r: Option<map<string, Board>>)
    ensures r == DiscoverAll(pack, arch, menu, entries)
  {
    var temp: map<string, Board> := map[];
    var i := 0;
    while i < |entries|
      invariant 0 <= i <= |entries|
      invariant DiscoverAll(pack, arch, menu, entries[..i]) == Some(temp)
    {
      assert entries[..i + 1][..i] == entries[..i];
      var next := Discover(temp, pack, arch, menu, entries[i].0, entries[i].1);
      if next.None? {
        DiscoverNoneSticks(pack, arch, menu, entries, i + 1);
        return None;
      }
      temp := next.value;
      i := i + 1;
    }
    assert entries[..i] == entries;
    return Some(temp);
  }

  // The second loop of ParseBoardsTXT, over the boards in any order.
  method FinishAll(temp: map<string, Board>) returns (m: map<string, Board>)
    requires WellFiled(temp)
    ensures m == map f | f in temp :: Finished(temp[f])
  {
    m := map[];
    var left := temp.Keys;
    while left != {}
      invariant left <= temp.Keys
      invariant m == map f | f in temp.Keys - left :: Finished(temp[f])
      decreases left
    {
      var fqbn :| fqbn in left;
      var board := Upgrade(temp[fqbn]);
      board := Normalize(board);
      FinishStep(temp, temp.Keys - left, fqbn);
      DoneStep(temp.Keys, left, fqbn);
      m := m[fqbn := board];
      left := left - {fqbn};
    }
    FinishedAll(temp);
  }

  lemma FinishStep(temp: map<string, Board>, done: set<string>, fqbn: string)
    requires WellFiled(temp) && done <= temp.Keys && fqbn in temp
    ensures (map f | f in done :: Finished(temp[f]))[fqbn := Finished(temp[fqbn])]
         == map f | f in done + {fqbn} :: Finished(temp[f])
  {
  }

  lemma FinishedAll(temp: map<string, Board>)
    requires WellFiled(temp)
    ensures (map f | f in temp.Keys - {} :: Finished(temp[f])) == map f | f in temp :: Finished(temp[f])
  {
    assert temp.Keys - {} == temp.Keys;
  }

  // The keys of the entries, in order.
  function Keys(props: seq<(string, string)>): (r: seq<string>)
    ensures |r| == |props| && forall i :: 0 <= i < |props| ==> r[i] == props[i].0
  {
    seq(|props|, i requires 0 <= i < |props| => props[i].0)
  }

  // The menu findMenu settles on for these entries.
  predicate Menus(props: seq<(string, string)>, menu: string)
  {
    var keys := Keys(props);
    match FirstMenu(keys)
    case None => menu == "cpu"
    case Some(i) => |Split(keys[i], ".")| >= 2 && menu == Split(keys[i], ".")[1]
  }

  lemma {:induction false} DiscoverNoneSticks(pack: string, arch: string, menu: string, props: seq<(string, string)>, i: nat)
    requires i <= |props| && DiscoverAll(pack, arch, menu, props[..i]) == None
    ensures DiscoverAll(pack, arch, menu, props) == None
    decreases |props| - i
  {
    if i < |props| {
      assert props[..i + 1][..i] == props[..i];
      DiscoverNoneSticks(pack, arch, menu, props, i + 1);
    } else {
      assert props[..i] == props;
    }
  }

  // A board listing both ids, ignoring case.
  predicate Lists(b: Board, vid: string, pid: string)
  {
    (exists i :: 0 <= i < |b.vid| && ToLower(b.vid[i]) == ToLower(vid))
    && (exists i :: 0 <= i < |b.pid| && ToLower(b.pid[i]) == ToLower(pid))
  }

  // ---------------------------------------------------------------------
  // expand and replace

  // The white space of the expression's \s: ASCII space, tab, newline,
  // form feed and carriage return.
  predicate RegexSpace(c: char)
  {
    c == ' ' || c == '\t' || c == '\n' || c == '\U{000C}' || c == '\r'
  }

  // The offset in t of the first '}', when no white space comes first.
  function TokenEnd(t: string): (r: Option<nat>)
    ensures r.Some? ==> r.value < |t|
  {
    if t == [] then None
    else if t[0] == '}' then Some(0)
    else if RegexSpace(t[0]) then None
    else match TokenEnd(t[1..])
      case None => None
      case Some(k) => Some(k + 1)
  }

  // The end found is the first '}', with no white space before it.
  lemma {:induction false} TokenEndSpec(t: string)
    ensures var r := TokenEnd(t);
      r.Some? ==> (t[r.value] == '}' && forall j :: 0 <= j < r.value ==> t[j] != '}' && !RegexSpace(t[j]))
  {
    if t != [] && t[0] != '}' && !RegexSpace(t[0]) {
      TokenEndSpec(t[1..]);
    }
  }

  // The option of an action of the variant for the key, trying the
  // actions in the order given (Go visits the map in no fixed order),
  // each with the first "<action>." removed from the key. One `order`
  // stands for every lookup of an expansion, although Go may visit the
  // map in a different order at each lookup.
  function ActionOption(variant: Variant, order: seq<string>, key: string): Option<string>
    decreases |order|
  {
    if order == [] then None
    else
      var name := order[0];
      var actionKey := ReplaceFirst(key, name + ".", "");
      if name in variant.actions && actionKey in variant.actions[name].options then
        Some(variant.actions[name].options[actionKey])
      else ActionOption(variant, order[1..], key)
  }

  // An option found belongs to one of the actions tried, and none is
  // found only when no action tried has it.
  lemma {:induction false} ActionOptionSpec(variant: Variant, order: seq<string>, key: string)
    ensures var r := ActionOption(variant, order, key);
      r.Some? ==> exists i :: 0 <= i < |order| && order[i] in variant.actions
                    && ReplaceFirst(key, order[i] + ".", "") in variant.actions[order[i]].options
                    && r.value == variant.actions[order[i]].options[ReplaceFirst(key, order[i] + ".", "")]
    ensures var r := ActionOption(variant, order, key);
      r.None? ==> forall i :: 0 <= i < |order| && order[i] in variant.actions
                    ==> ReplaceFirst(key, order[i] + ".", "") !in variant.actions[order[i]].options
    decreases |order|
  {
    if order != [] {
      var name := order[0];
      var actionKey := ReplaceFirst(key, name + ".", "");
      if !(name in variant.actions && actionKey in variant.actions[name].options) {
        ActionOptionSpec(variant, order[1..], key);
        assert forall i :: 1 <= i < |order| ==> order[i] == order[1..][i - 1];
      }
    }
  }

  // The key of a token: without its first '{' and its first '}'.
  function TokenKey(value: string): string
  {
    RemoveFirst(RemoveFirst(value, '{'), '}')
  }

  // strings.Replace(s, c, "", 1) for a single character c.
  function RemoveFirst(s: string, c: char): string
  {
    if s == [] then []
    else if s[0] == c then s[1..]
    else [s[0]] + RemoveFirst(s[1..], c)
  }

  // The text before the first c is kept, and the c after it dropped.
  lemma {:induction false} RemoveFirstAt(h: string, c: char, t: string)
    requires c !in h
    ensures RemoveFirst(h + [c] + t, c) == h + t
    decreases |h|
  {
    if h == [] {
      assert h + [c] + t == [c] + t;
    } else {
      RemoveFirstAt(h[1..], c, t);
      assert (h + [c] + t)[1..] == h[1..] + [c] + t;
      assert h + t == [h[0]] + (h[1..] + t);
    }
  }

  lemma {:induction false} RemoveFirstAbsent(s: string, c: char)
    requires c !in s
    ensures RemoveFirst(s, c) == s
    decreases |s|
  {
    if s != [] {
      RemoveFirstAbsent(s[1..], c);
      assert s == [s[0]] + s[1..];
    }
  }

  // RemoveFirst is ReplaceFirst with the one-character pattern and an
  // empty replacement.
  lemma RemoveFirstReplaces(s: string, c: char)
    ensures RemoveFirst(s, c) == ReplaceFirst(s, [c], "")
  {
    if c in s {
      var i := FirstOf(s, c);
      Bytes.SplitAround(s, i);
      IndexAfterFree(s[..i], c, s[i + 1..]);
      RemoveFirstAt(s[..i], c, s[i + 1..]);
    } else {
      IndexNone(s, c);
      RemoveFirstAbsent(s, c);
    }
  }

  // The position of the first c.
  lemma {:induction false} FirstOf(s: string, c: char) returns (i: nat)
    requires c in s
    ensures i < |s| && s[i] == c && c !in s[..i]
    decreases |s|
  {
    if s[0] == c {
      i := 0;
    } else {
      var k := FirstOf(s[1..], c);
      i := k + 1;
      assert s[..i] == [s[0]] + s[1..][..k];
    }
  }

  // replace: "path" is the tool's path, then come the tool's options, then
  // the options of the variant's actions; a key nothing knows leaves the
  // token as it is.
  function Resolve(tool: Platforms.Tool, variant: Variant, order: seq<string>, value: string): string
  {
    var key := TokenKey(value);
    if key == "path" then tool.path
    else if key in tool.options then tool.options[key]
    else match ActionOption(variant, order, key)
      case Some(prop) => prop
      case None => value
  }

  // The tool's path comes first, then its options, and a token changes
  // only when one of the three sources knows its key.
  lemma ResolveSources(tool: Platforms.Tool, variant: Variant, order: seq<string>, value: string)
    ensures var r := Resolve(tool, variant, order, value);
      (TokenKey(value) == "path" ==> r == tool.path) &&
      (TokenKey(value) != "path" && TokenKey(value) in tool.options ==> r == tool.options[TokenKey(value)]) &&
      (r != value ==> TokenKey(value) == "path" || TokenKey(value) in tool.options
                      || ActionOption(variant, order, TokenKey(value)).Some?)
  {
  }

  // A token whose key is a single word is that word in braces.
  lemma TokenKeyOfWord(w: string)
    requires '{' !in w && '}' !in w
    ensures TokenKey("{" + w + "}") == w
  {
    RemoveFirstAt([], '{', w + "}");
    assert [] + ['{'] + (w + "}") == "{" + w + "}";
    RemoveFirstAt(w, '}', []);
    assert w + ['}'] + [] == w + "}";
  }

  lemma ResolvePath(tool: Platforms.Tool, variant: Variant, order: seq<string>)
    ensures Resolve(tool, variant, order, "{path}") == tool.path
  {
    TokenKeyOfWord("path");
    assert "{path}" == "{" + "path" + "}";
  }

  // A token nothing resolves is kept, so a command made of such tokens
  // expands to itself.
  lemma ResolveUnknownKept(tool: Platforms.Tool, variant: Variant, order: seq<string>, value: string)
    requires TokenKey(value) != "path" && TokenKey(value) !in tool.options
    requires ActionOption(variant, order, TokenKey(value)).None?
    ensures Resolve(tool, variant, order, value) == value
  {
  }

  // A match: '{', non-space characters other than '}', then '}'.
  predicate IsToken(t: string)
  {
    |t| >= 2 && t[0] == '{' && t[|t| - 1] == '}'
    && forall j :: 1 <= j < |t| - 1 ==> t[j] != '}' && !RegexSpace(t[j])
  }

  // One pass of ReplaceAllStringFunc with the expression {([\S{}]*?)} and
  // replace: each leftmost match (a '{', then the shortest run of
  // non-space characters that reaches a '}') resolved, the search
  // resuming after it.
  function Round(tool: Platforms.Tool, variant: Variant, order: seq<string>, s: string): string
    decreases |s|
  {
    if s == [] then []
    else if s[0] == '{' && TokenEnd(s[1..]).Some? then
      var e := TokenEnd(s[1..]).value + 2;
      Resolve(tool, variant, order, s[..e]) + Round(tool, variant, order, s[e..])
    else [s[0]] + Round(tool, variant, order, s[1..])
  }

  // A pass in which every match resolves to itself changes nothing.
  lemma {:induction false} RoundIdle(tool: Platforms.Tool, variant: Variant, order: seq<string>, s: string)
    requires forall t :: IsToken(t) ==> Resolve(tool, variant, order, t) == t
    ensures Round(tool, variant, order, s) == s
    decreases |s|
  {
    if s != [] {
      if s[0] == '{' && TokenEnd(s[1..]).Some? {
        var e := TokenEnd(s[1..]).value + 2;
        TokenEndSpec(s[1..]);
        assert IsToken(s[..e]);
        RoundIdle(tool, variant, order, s[e..]);
        assert s == s[..e] + s[e..];
      } else {
        RoundIdle(tool, variant, order, s[1..]);
        assert s == [s[0]] + s[1..];
      }
    }
  }

  lemma {:induction false} RoundNoBrace(tool: Platforms.Tool, variant: Variant, order: seq<string>, s: string)
    requires '{' !in s
    ensures Round(tool, variant, order, s) == s
    decreases |s|
  {
    if s != [] {
      RoundNoBrace(tool, variant, order, s[1..]);
      assert s == [s[0]] + s[1..];
    }
  }

  // expand's loop, passes repeated until one changes nothing; `fuel`
  // bounds the passes after the first (the source has no bound, and a
  // None is a command still changing when it runs out).
  function Expanded(tool: Platforms.Tool, variant: Variant, order: seq<string>, command: string, fuel: nat): (r: Option<string>)
    decreases fuel
  {
    var next := Round(tool, variant, order, command);
    if next == command then Some(command)
    else if fuel == 0 then None
    else Expanded(tool, variant, order, next, fuel - 1)
  }

  // An expansion that ends is a fixed point of the pass.
  lemma {:induction false} ExpandedFixed(tool: Platforms.Tool, variant: Variant, order: seq<string>, command: string, fuel: nat)
    ensures var r := Expanded(tool, variant, order, command, fuel);
      r.Some? ==> Round(tool, variant, order, r.value) == r.value
    decreases fuel
  {
    var next := Round(tool, variant, order, command);
    if next != command && fuel > 0 {
      ExpandedFixed(tool, variant, order, next, fuel - 1);
    }
  }

  lemma ExpandedStep(tool: Platforms.Tool, variant: Variant, order: seq<string>, command: string, fuel: nat)
    requires fuel > 0 && Round(tool, variant, order, command) != command
    ensures Expanded(tool, variant, order, command, fuel)
         == Expanded(tool, variant, order, Round(tool, variant, order, command), fuel - 1)
  {
  }

  // A command without '{' is its own expansion.
  lemma ExpandedNoBrace(tool: Platforms.Tool, variant: Variant, order: seq<string>, command: string, fuel: nat)
    requires '{' !in command
    ensures Expanded(tool, variant, order, command, fuel) == Some(command)
  {
    RoundNoBrace(tool, variant, order, command);
  }

  // expand: "" for a pattern the tool lacks, otherwise its command
  // expanded.
  method Expand(tool: Platforms.Tool, variant: Variant, pattern: string, order: seq<string>, fuel: nat)
      returns (r: Option<string>)
    ensures pattern !in tool.patterns ==> r == Some("")
    ensures pattern in tool.patterns ==> r == Expanded(tool, variant, order, tool.patterns[pattern].command, fuel)
  {
    if pattern !in tool.patterns {
      return Some("");
    }
    var start := tool.patterns[pattern].command;
    if start == "" {
      // The loop starts with oldCommand == "" and stops at once.
      assert Round(tool, variant, order, "") == "";
      return Some("");
    }
    // The first pass always runs; the loop holds the later ones.
    var oldCommand := start;
    var command := Round(tool, variant, order, start);
    var f := fuel;
    while command != oldCommand
      invariant command == Round(tool, variant, order, oldCommand)
      invariant Expanded(tool, variant, order, start, fuel) == Expanded(tool, variant, order, oldCommand, f)
      decreases f
    {
      if f == 0 {
        return None;
      }
      oldCommand, command := Pass(tool, variant, order, start, fuel, oldCommand, command, f);
      f := f - 1;
    }
    return Some(command);
  }

  // One more pass of expand's loop.
  method Pass(tool: Platforms.Tool, variant: Variant, order: seq<string>, ghost start: string, ghost fuel: nat,
              oldCommand: string, command: string, f: nat)
      returns (oldCommand': string, command': string)
    requires f > 0 && command != oldCommand && command == Round(tool, variant, order, oldCommand)
    requires Expanded(tool, variant, order, start, fuel) == Expanded(tool, variant, order, oldCommand, f)
    ensures oldCommand' == command && command' == Round(tool, variant, order, command)
    ensures Expanded(tool, variant, order, start, fuel) == Expanded(tool, variant, order, oldCommand', f - 1)
  {
    ExpandedStep(tool, variant, order, oldCommand, f);
    oldCommand' := command;
    command' := Round(tool, variant, order, command);
  }

  // ---------------------------------------------------------------------
  // Compute, for one action

  function ZeroEdbgFqbn(): string { "arduino:samd:arduino_zero_edbg" }

  function MZeroFqbn(): string { "arduino:samd:mzero_pro_bl_dbg" }

  // The fixed OpenOCD command line of the two debug boards, which differ
  // only in the address the sketch is flashed at.
  function OpenOcdCommand(address: string): string
  {
    "\"{runtime.tools.openocd.path}" + "/bin/openocd\" " + "{upload.verbose} -s " + "\"{runtime.tools.openocd.path}"
    + "/share/openocd/scripts/\" " + "-f \"{build.path}" + "/arduino_zero.cfg\" " + "-c \"telnet_port disabled; "
    + "program {build.path}/" + "{build.project_name}.bin " + "verify reset " + address + "; shutdown\""
  }

  function ZeroEdbgCommand(): string { OpenOcdCommand("0x00002000") }

  function MZeroCommand(): string { OpenOcdCommand("0x00004000") }

  // The pieces of a match of `{build.project_name}(\.bin|\.hex|\.bin)`:
  // "{build", one character standing for the unescaped '.', which matches
  // any character but a newline, "project_name}" and the extension.
  const BuildHead: string := "{build"
  const NameTail: string := "project_name}"
  const BinExt: string := ".bin"
  const HexExt: string := ".hex"

  // The extension filepath.Ext takes from a match starting at s[i], ""
  // when none starts there. A match is 24 characters long.
  function ExtAt(s: string, i: nat): (r: string)
    ensures r == "" || r == BinExt || r == HexExt
  {
    if i + 24 > |s| then "" else ExtOf(s[i..i + 24])
  }

  function ExtOf(t: string): (r: string)
    requires |t| == 24
    ensures r == "" || r == BinExt || r == HexExt
  {
    if t[..6] != BuildHead || t[6] == '\n' || t[7..20] != NameTail then ""
    else if t[20..] == BinExt then BinExt
    else if t[20..] == HexExt then HexExt
    else ""
  }

  // The extension of the leftmost match at or after s[i]: FindString
  // returns the leftmost match, and "" when there is none.
  function FirstExtFrom(s: string, i: nat): (r: string)
    requires i <= |s|
    ensures r == "" || r == BinExt || r == HexExt
    ensures r == "" <==> forall k :: i <= k < |s| ==> ExtAt(s, k) == ""
    ensures r != "" ==> exists k :: i <= k < |s| && ExtAt(s, k) == r && forall j :: i <= j < k ==> ExtAt(s, j) == ""
    decreases |s| - i
  {
    if i == |s| then ""
    else if ExtAt(s, i) != "" then ExtAt(s, i)
    else FirstExtFrom(s, i + 1)
  }

  function FirstExt(s: string): string
  {
    FirstExtFrom(s, 0)
  }

  // A window made of the match's pieces is a match, whatever character
  // stands in for the wildcard.
  lemma WindowMatches(c: char, ext: string)
    requires c != '\n' && (ext == BinExt || ext == HexExt)
    ensures ExtOf(BuildHead + [c] + NameTail + ext) == ext
  {
    var t := BuildHead + [c] + NameTail + ext;
    assert t[..6] == BuildHead && t[6] == c;
    assert t[7..20] == NameTail && t[20..] == ext;
  }

  // Text without '{' before the first match: its extension is the one
  // reported, so "x {build-project_name}.hex" gives ".hex".
  lemma FirstMatchAfterPlainText(a: string, c: char, ext: string, b: string)
    requires '{' !in a && c != '\n' && (ext == BinExt || ext == HexExt)
    ensures FirstExt(a + BuildHead + [c] + NameTail + ext + b) == ext
  {
    var w := BuildHead + [c] + NameTail + ext;
    var s := a + w + b;
    assert s == a + BuildHead + [c] + NameTail + ext + b;
    forall k | 0 <= k < |a|
      ensures ExtAt(s, k) == ""
    {
      assert s[k] == a[k] && BuildHead[0] == '{';
      assert s[k..k + 24][0] == s[k];
    }
    assert s[|a|..|a| + 24] == w;
    WindowMatches(c, ext);
    LeftmostWins(s, 0, |a|);
  }

  // The scan from i reports the first match at or after i.
  lemma {:induction false} LeftmostWins(s: string, i: nat, m: nat)
    requires i <= m < |s| && ExtAt(s, m) != ""
    requires forall j :: i <= j < m ==> ExtAt(s, j) == ""
    ensures FirstExtFrom(s, i) == ExtAt(s, m)
    decreases m - i
  {
    if i < m {
      LeftmostWins(s, i + 1, m);
    }
  }

  // The loop body of Compute for one action of a variant, with the tool
  // Platforms.Tool found for it (None when none was): nothing changes
  // without a tool or a pattern for the action; otherwise the tool's
  // version, the expanded command (fixed for the two debug boards'
  // upload), the extension it names and the pattern's parameters; then
  // findFiles, with `platPath` the path of the board's platform and
  // `readable` whether a file reads, rewrites the command and attaches
  // the files it names.
  function ComputeAction(variant: Variant, name: string, tool: Option<Platforms.Tool>, order: seq<string>,
                         fuel: nat, platPath: string, readable: string -> bool): (r: Option<Action>)
    requires name in variant.actions
    ensures tool.None? || name !in tool.value.patterns ==> r == Some(variant.actions[name])
    ensures r.None? <==> tool.Some? && name in tool.value.patterns
                         && Expanded(tool.value, variant, order, tool.value.patterns[name].command, fuel).None?
    ensures r.Some? ==> r.value.options == variant.actions[name].options
    ensures r.Some? && tool.Some? && name in tool.value.patterns ==>
              r.value.ext == "" || r.value.ext == BinExt || r.value.ext == HexExt
  {
    var a := variant.actions[name];
    if tool.None? || name !in tool.value.patterns then Some(a)
    else
      var t := tool.value;
      match Expanded(t, variant, order, t.patterns[name].command, fuel)
      case None => None
      case Some(cmd) =>
        var zero := variant.fqbn == ZeroEdbgFqbn() && name == "upload";
        var mzero := variant.fqbn == MZeroFqbn() && name == "upload";
        var command := if mzero then MZeroCommand() else if zero then ZeroEdbgCommand() else cmd;
        Some(a.(toolVersion := t.version, tool := if mzero then "openocd" else a.tool,
                ext := FirstExt(command), params := a.params + t.patterns[name].params,
                command := PlatformFiles.Rewritten(command, platPath, readable),
                files := PlatformFiles.Attached(command, platPath, readable)))
  }

  // The debug boards' upload runs the fixed OpenOCD command, passed
  // through findFiles like any other, and the M0's with the openocd tool,
  // whatever the pattern says.
  lemma ComputeSpecialCases(variant: Variant, tool: Platforms.Tool, order: seq<string>, fuel: nat,
                            platPath: string, readable: string -> bool)
    requires "upload" in variant.actions && "upload" in tool.patterns
    requires Expanded(tool, variant, order, tool.patterns["upload"].command, fuel).Some?
    ensures var r := ComputeAction(variant, "upload", Some(tool), order, fuel, platPath, readable);
      variant.fqbn == ZeroEdbgFqbn() ==>
        r.value.command == PlatformFiles.Rewritten(ZeroEdbgCommand(), platPath, readable)
    ensures var r := ComputeAction(variant, "upload", Some(tool), order, fuel, platPath, readable);
      variant.fqbn == MZeroFqbn() ==>
        r.value.command == PlatformFiles.Rewritten(MZeroCommand(), platPath, readable) && r.value.tool == "openocd"
  {
  }

  // Any other action gets its pattern's command, expanded and then
  // rewritten by findFiles, the files that rewrite attaches, the tool's
  // version, and the pattern's parameters over its own. The expansion is
  // a fixed point of the expanding pass, and a command that names no file
  // that reads is the expansion itself.
  lemma ComputeOrdinary(variant: Variant, name: string, tool: Platforms.Tool, order: seq<string>, fuel: nat,
                        platPath: string, readable: string -> bool)
    requires name in variant.actions && name in tool.patterns
    requires name != "upload" || (variant.fqbn != ZeroEdbgFqbn() && variant.fqbn != MZeroFqbn())
    requires Expanded(tool, variant, order, tool.patterns[name].command, fuel).Some?
    ensures var r := ComputeAction(variant, name, Some(tool), order, fuel, platPath, readable);
      var e := Expanded(tool, variant, order, tool.patterns[name].command, fuel).value;
      r.Some? && r.value.command == PlatformFiles.Rewritten(e, platPath, readable)
      && r.value.files == PlatformFiles.Attached(e, platPath, readable)
      && r.value.ext == FirstExt(e)
      && Round(tool, variant, order, e) == e
      && ((forall f :: !readable(f)) ==> r.value.command == e && r.value.files == [])
      && r.value.toolVersion == tool.version && r.value.tool == variant.actions[name].tool
      && (forall p :: p in tool.patterns[name].params ==> r.value.params[p] == tool.patterns[name].params[p])
      && (forall p :: p in variant.actions[name].params && p !in tool.patterns[name].params
                      ==> r.value.params[p] == variant.actions[name].params[p])
  {
    var e := Expanded(tool, variant, order, tool.patterns[name].command, fuel).value;
    ExpandedFixed(tool, variant, order, tool.patterns[name].command, fuel);
    if forall f :: !readable(f) {
      PlatformFiles.NothingReadsKept(e, platPath, readable);
    }
  }
}
