// The v2 tools service (v2/pkgs/tools.go, v2/pkgs/pkgs.go): finding a
// tool in a package index, deciding what Install and Remove do, the
// bookkeeping of installed tools, and the renaming of archive entries.
// Downloading, checksumming, extracting and the installed.json file are
// I/O; semver comparison, signature checking and the choice of a system
// flavour are parameters.
module Pkgs {
  import opened Wrappers
  import opened GoStrings
  import opened Paths
  import opened Utilities

  datatype System = System(host: string, url: string, checksum: string)
  datatype Tool = Tool(name: string, version: string, systems: seq<System>)
  datatype Package = Package(name: string, tools: seq<Tool>)
  datatype Index = Index(packages: seq<Package>)

  // ---------------------------------------------------------------------
  // FindTool

  // The tool FindTool starts from: a zero Tool whose version is "0.0".
  function Zero(): Tool { Tool("", "0.0", []) }

  // The tools FindTool looks at: those of the packages named pack, in
  // index order.
  function Offered(packages: seq<Package>, pack: string): seq<Tool>
    decreases |packages|
  {
    if packages == [] then []
    else
      var last := packages[|packages| - 1];
      Offered(packages[..|packages| - 1], pack) + (if last.name == pack then last.tools else [])
  }

  lemma OfferedStep(packages: seq<Package>, pack: string, i: nat)
    requires i < |packages|
    ensures Offered(packages[..i + 1], pack)
         == Offered(packages[..i], pack) + (if packages[i].name == pack then packages[i].tools else [])
  {
    assert packages[..i + 1][..i] == packages[..i];
  }

  // Exactly the tools of the packages named pack are offered.
  lemma {:induction false} OfferedTools(packages: seq<Package>, pack: string, t: Tool)
    ensures t in Offered(packages, pack) <==> exists p :: p in packages && p.name == pack && t in p.tools
    decreases |packages|
  {
    if packages != [] {
      var last := packages[|packages| - 1];
      var init := packages[..|packages| - 1];
      assert packages == init + [last];
      OfferedTools(init, pack, t);
      if exists p :: p in packages && p.name == pack && t in p.tools {
        var p :| p in packages && p.name == pack && t in p.tools;
        if p != last { assert p in init; }
      }
    }
  }

  // One tool of FindTool's inner loop. `newer(a, b)` stands for
  // semver.Make(a).Compare(semver.Make(b)) > 0, parse errors ignored.
  function Consider(best: (Tool, bool), t: Tool, name: string, version: string,
                    newer: (string, string) -> bool): (r: (Tool, bool))
    ensures r == best || (r == (t, true) && t.name == name)
    ensures version != "latest" ==> (r == (t, true) <==> t.name == name && t.version == version) || r == best
  {
    if version != "latest" then
      if t.name == name && t.version == version then (t, true) else best
    else if t.name == name && newer(t.version, best.0.version) then (t, true)
    else best
  }

  // The pick and the found flag after the given tools, from the zero tool.
  function Search(tools: seq<Tool>, name: string, version: string,
                  newer: (string, string) -> bool): (r: (Tool, bool))
    ensures !r.1 ==> r.0 == Zero()
    ensures r.1 ==> r.0 in tools && r.0.name == name
    decreases |tools|
  {
    if tools == [] then (Zero(), false)
    else Consider(Search(tools[..|tools| - 1], name, version, newer), tools[|tools| - 1], name, version, newer)
  }

  lemma SearchSnoc(tools: seq<Tool>, t: Tool, name: string, version: string,
                   newer: (string, string) -> bool)
    ensures Search(tools + [t], name, version, newer)
         == Consider(Search(tools, name, version, newer), t, name, version, newer)
  {
    assert (tools + [t])[..|tools|] == tools;
  }

  // FindTool: the packages named pack are scanned in order, each of their
  // tools considered in turn; the system is the flavour of the pick.
  // One pass of FindTool's inner loop.
  method ConsiderOne(ghost seen: seq<Tool>, tools: seq<Tool>, j: nat, name: string, version: string,
                     newer: (string, string) -> bool, tool: Tool, found: bool)
      returns (tool': Tool, found': bool)
    requires j < |tools| && (tool, found) == Search(seen + tools[..j], name, version, newer)
    ensures (tool', found') == Search(seen + tools[..j + 1], name, version, newer)
  {
    var t := tools[j];
    tool', found' := tool, found;
    if version != "latest" {
      if t.name == name && t.version == version {
        tool' := t;
        found' := true;
      }
    } else if t.name == name && newer(t.version, tool.version) {
      tool' := t;
      found' := true;
    }
    SearchSnoc(seen + tools[..j], t, name, version, newer);
    assert seen + tools[..j + 1] == (seen + tools[..j]) + [t];
  }

  method FindTool(pack: string, name: string, version: string, data: Index,
                  newer: (string, string) -> bool, flavour: Tool -> System)
    returns (tool: Tool, system: System, found: bool)
    ensures (tool, found) == Search(Offered(data.packages, pack), name, version, newer)
    ensures system == flavour(tool)
  {
    tool := Zero();
    found := false;
    var i := 0;
    while i < |data.packages|
      invariant 0 <= i <= |data.packages|
      invariant (tool, found) == Search(Offered(data.packages[..i], pack), name, version, newer)
    {
      var p := data.packages[i];
      var seen := Offered(data.packages[..i], pack);
      OfferedStep(data.packages, pack, i);
      if p.name == pack {
        var j := 0;
        assert seen + p.tools[..0] == seen;
        while j < |p.tools|
          invariant 0 <= j <= |p.tools|
          invariant (tool, found) == Search(seen + p.tools[..j], name, version, newer)
        {
          tool, found := ConsiderOne(seen, p.tools, j, name, version, newer, tool, found);
          j := j + 1;
        }
        assert p.tools[..j] == p.tools;
      } else {
        assert seen + [] == seen;
      }
      i := i + 1;
    }
    assert data.packages[..i] == data.packages;
    system := flavour(tool);
  }

  predicate Matches(t: Tool, name: string, version: string)
  {
    t.name == name && t.version == version
  }

  // For an exact version, a tool is found exactly when one of the offered
  // tools has that name and that version.
  lemma {:induction false} ExactFoundIff(tools: seq<Tool>, name: string, version: string,
                                         newer: (string, string) -> bool)
    requires version != "latest"
    ensures Search(tools, name, version, newer).1
        <==> exists i :: 0 <= i < |tools| && Matches(tools[i], name, version)
    decreases |tools|
  {
    if tools != [] {
      var init := tools[..|tools| - 1];
      ExactFoundIff(init, name, version, newer);
      if exists i :: 0 <= i < |init| && Matches(init[i], name, version) {
        var i :| 0 <= i < |init| && Matches(init[i], name, version);
        assert tools[i] == init[i];
      }
      if exists i :: 0 <= i < |tools| && Matches(tools[i], name, version) {
        var i :| 0 <= i < |tools| && Matches(tools[i], name, version);
        if i < |init| { assert init[i] == tools[i]; }
      }
    }
  }

  // For an exact version the last matching tool is the one picked.
  lemma {:induction false} ExactLastWins(tools: seq<Tool>, name: string, version: string,
                                         newer: (string, string) -> bool, i: nat)
    requires version != "latest"
    requires i < |tools| && Matches(tools[i], name, version)
    requires forall j :: i < j < |tools| ==> !Matches(tools[j], name, version)
    ensures Search(tools, name, version, newer) == (tools[i], true)
    decreases |tools|
  {
    var init := tools[..|tools| - 1];
    if i < |tools| - 1 {
      assert forall j :: i < j < |init| ==> init[j] == tools[j];
      ExactLastWins(init, name, version, newer, i);
    }
  }

  // In "latest" mode, when the comparison is transitive, a found tool's
  // version is newer than the "0.0" FindTool starts from.
  lemma {:induction false} LatestBeatsZero(tools: seq<Tool>, name: string,
                                           newer: (string, string) -> bool)
    requires forall a, b, c :: newer(a, b) && newer(b, c) ==> newer(a, c)
    ensures var r := Search(tools, name, "latest", newer);
      r.1 ==> newer(r.0.version, "0.0")
    decreases |tools|
  {
    if tools != [] {
      LatestBeatsZero(tools[..|tools| - 1], name, newer);
    }
  }

  // In "latest" mode the pick is never replaced by a tool that does not
  // compare newer than it: once no later tool does, the pick stays.
  lemma {:induction false} LatestKept(tools: seq<Tool>, more: seq<Tool>, name: string,
                                      newer: (string, string) -> bool)
    requires var r := Search(tools, name, "latest", newer);
      forall j :: 0 <= j < |more| ==> more[j].name != name || !newer(more[j].version, r.0.version)
    ensures Search(tools + more, name, "latest", newer) == Search(tools, name, "latest", newer)
    decreases |more|
  {
    if more == [] {
      assert tools + more == tools;
    } else {
      var init := more[..|more| - 1];
      assert forall j :: 0 <= j < |init| ==> init[j] == more[j];
      LatestKept(tools, init, name, newer);
      assert tools + more == (tools + init) + [more[|more| - 1]];
      SearchSnoc(tools + init, more[|more| - 1], name, "latest", newer);
    }
  }

  // ---------------------------------------------------------------------
  // rename

  // The renamer of extracted entries: the entry's first "/"-segment (its
  // root folder) is replaced by base; an entry without a root folder is
  // joined to base as it is. Paths are '/'-separated here, so ToSlash is
  // the identity.
  function Rename(base: string, path: string): string
  {
    var parts := Split(path, Slash);
    if |parts| <= 1 then JoinPath([base, path])
    else JoinPath([base, Join(parts[1..], Slash)])
  }

  lemma RenameDropsRoot(base: string, root: string, rest: string)
    requires '/' !in root
    ensures Rename(base, root + Slash + rest) == JoinPath([base, rest])
  {
    SplitAfterFree(root, '/', rest);
    assert root + Slash + rest == root + ['/'] + rest;
    JoinSplit(rest, Slash);
    assert Split(root + Slash + rest, Slash)[1..] == Split(rest, Slash);
  }

  lemma RenameFlat(base: string, path: string)
    requires '/' !in path
    ensures Rename(base, path) == JoinPath([base, path])
  {
    SplitFree(path, '/');
  }

  // ---------------------------------------------------------------------
  // Paths of installed tools

  // Names joined by filepath.Join need no cleaning.
  lemma RelativeJoin(st: seq<string>)
    requires Names(st) && |st| >= 1
    ensures JoinPath(st) == Join(st, Slash)
  {
    var s := Join(st, Slash);
    JoinFirstChar(st);
    assert s[0] != '/';
    assert JoinPath(st) == Clean(s);
    NamesFree(st);
    SplitJoin(st, '/');
    assert Split(s, Slash) == st;
    FoldNames(false, [], st);
    assert Fold(false, [], st) == st;
  }

  // The tool name and the name with its version that writeInstalled takes
  // from the last two segments of a path; None where Go indexes out of
  // range.
  function InstalledKeys(path: string): (r: Option<(string, string)>)
    ensures r.None? <==> |Split(path, Slash)| < 2
    ensures r.Some? ==> r.value.1 == r.value.0 + "-" + Split(path, Slash)[|Split(path, Slash)| - 1]
  {
    var parts := Split(path, Slash);
    if |parts| < 2 then None
    else Some((parts[|parts| - 2], parts[|parts| - 2] + "-" + parts[|parts| - 1]))
  }

  // A tool installed at packager/name/version is recorded under its name
  // and under name-version.
  lemma InstalledKeysOfTool(packager: string, name: string, version: string)
    requires IsName(packager) && IsName(name) && IsName(version)
    ensures JoinPath([packager, name, version]) == packager + Slash + name + Slash + version
    ensures InstalledKeys(JoinPath([packager, name, version])) == Some((name, name + "-" + version))
  {
    ToolJoin(packager, name, version);
    KeysOfSegments(packager, name, version);
  }

  lemma ToolJoin(packager: string, name: string, version: string)
    requires IsName(packager) && IsName(name) && IsName(version)
    ensures JoinPath([packager, name, version]) == packager + Slash + name + Slash + version
  {
    var st := [packager, name, version];
    RelativeJoin(st);
    JoinCons(packager, [name, version], Slash);
    JoinCons(name, [version], Slash);
    assert [packager] + [name, version] == st;
  }

  lemma KeysOfSegments(packager: string, name: string, version: string)
    requires '/' !in packager && '/' !in name && '/' !in version
    ensures InstalledKeys(packager + Slash + name + Slash + version) == Some((name, name + "-" + version))
  {
    SplitWords3(packager, name, version, '/');
    assert packager + Slash + name + Slash + version == packager + ['/'] + name + ['/'] + version;
  }

  datatype Write = Written | WriteFailed(msg: string) | WritePanics

  // writeInstalled's effect on the installed map: both keys map to the
  // SafeJoin path; a path with a single segment panics and an escaping one
  // is refused, the map unchanged in both cases.
  function Recorded(installed: map<string, string>, folder: string, path: string): (r: (Write, map<string, string>))
    ensures r.0 == WritePanics <==> InstalledKeys(path).None?
    ensures r.0.WriteFailed? <==> InstalledKeys(path).Some? && SafeJoin(folder, path).err.Some?
    ensures r.0 != Written ==> r.1 == installed
    ensures r.0 == Written ==>
      var k := InstalledKeys(path).value;
      r.1.Keys == installed.Keys + {k.0, k.1} &&
      r.1[k.0] == SafeJoin(folder, path).path && r.1[k.1] == SafeJoin(folder, path).path &&
      forall n :: n in installed && n != k.0 && n != k.1 ==> r.1[n] == installed[n]
  {
    match InstalledKeys(path)
    case None => (WritePanics, installed)
    case Some(k) =>
      var j := SafeJoin(folder, path);
      if j.err.Some? then (WriteFailed(j.err.value), installed)
      else (Written, installed[k.0 := j.path][k.1 := j.path])
  }

  // ---------------------------------------------------------------------
  // The service

  datatype Payload = Payload(packager: string, name: string, version: string,
                             url: Option<string>, signature: Option<string>, checksum: Option<string>)

  // What an operation comes to. Installs stands for the download, check
  // and extraction of the archive at url into path.
  datatype Operation =
    | Installs(path: string, url: string, checksum: string)
    | Done
    | Failed(msg: string)
    | NotFound(msg: string)
    | Panics

  predicate Signed(p: Payload)
  {
    p.url.Some? && p.signature.Some? && p.checksum.Some?
  }

  function NotFoundMessage(p: Payload): string
  {
    "tool not found with packager '" + p.packager + "', name '" + p.name + "', version '" + p.version + "'"
  }

  function Chosen(p: Payload, index: Index, newer: (string, string) -> bool): (Tool, bool)
  {
    Search(Offered(index.packages, p.packager), p.name, p.version, newer)
  }

  // With the "keep" behaviour an already installed tool is reused when
  // the tools folder and the recorded location both exist.
  predicate Reusable(behaviour: string, folderExists: bool, installed: map<string, string>,
                     exists_: string -> bool, t: Tool)
  {
    var key := t.name + "-" + t.version;
    behaviour == "keep" && folderExists && key in installed && exists_(installed[key])
  }

  class Tools {
    var folder: string
    var behaviour: string
    var installed: map<string, string>

    constructor(folder: string, behaviour: string)
      ensures this.folder == folder && this.behaviour == behaviour && installed == map[]
    {
      this.folder := folder;
      this.behaviour := behaviour;
      installed := map[];
    }

    method SetBehaviour(behaviour: string)
      modifies this
      ensures this.behaviour == behaviour && folder == old(folder) && installed == old(installed)
    {
      this.behaviour := behaviour;
    }

    // writeInstalled, without the write of installed.json.
    method WriteInstalled(path: string) returns (r: Write)
      modifies this
      ensures folder == old(folder) && behaviour == old(behaviour)
      ensures (r, installed) == Recorded(old(installed), folder, path)
    {
      var parts := Split(path, Slash);
      if |parts| < 2 {
        return WritePanics;
      }
      var tool := parts[|parts| - 2];
      var toolWithVersion := tool + "-" + parts[|parts| - 1];
      var toolFile := SafeJoin(folder, path);
      if toolFile.err.Some? {
        return WriteFailed(toolFile.err.value);
      }
      installed := installed[tool := toolFile.path];
      installed := installed[toolWithVersion := toolFile.path];
      r := Written;
    }

    // Install: a signed payload is installed from its own URL once the
    // signature verifies; otherwise the index is searched, a kept tool is
    // recorded again, a found one installed, and a missing one reported.
    // `verify` is the signature check's error, `index` the read of the
    // index, `folderExists` and `exists_` the file-system checks.
    method Install(p: Payload, verify: Option<string>, index: Result<Index>, folderExists: bool,
                   exists_: string -> bool, newer: (string, string) -> bool, flavour: Tool -> System)
      returns (r: Operation)
      modifies this
      ensures folder == old(folder) && behaviour == old(behaviour)
      ensures Signed(p) ==>
        installed == old(installed) &&
        r == (if verify.Some? then Failed(verify.value)
              else Installs(JoinPath([p.packager, p.name, p.version]), p.url.value, p.checksum.value))
      ensures !Signed(p) && index.Err? ==> r == Failed(index.msg) && installed == old(installed)
      ensures !Signed(p) && index.Ok? ==>
        var (t, found) := Chosen(p, index.value, newer);
        var path := JoinPath([p.packager, t.name, t.version]);
        if Reusable(behaviour, folderExists, old(installed), exists_, t) then
          var w := Recorded(old(installed), folder, path);
          installed == w.1 &&
          r == (match w.0 case Written => Done case WriteFailed(m) => Failed(m) case WritePanics => Panics)
        else
          installed == old(installed) &&
          r == (if found then Installs(path, flavour(t).url, flavour(t).checksum) else NotFound(NotFoundMessage(p)))
    {
      var path := JoinPath([p.packager, p.name, p.version]);
      if p.url.Some? && p.signature.Some? && p.checksum.Some? {
        if verify.Some? {
          return Failed(verify.value);
        }
        return Installs(path, p.url.value, p.checksum.value);
      }
      if index.Err? {
        return Failed(index.msg);
      }
      var t, system, found := FindTool(p.packager, p.name, p.version, index.value, newer, flavour);
      path := JoinPath([p.packager, t.name, t.version]);
      var key := t.name + "-" + t.version;
      if behaviour == "keep" && folderExists {
        if key in installed && exists_(installed[key]) {
          var w := WriteInstalled(path);
          match w {
            case Written => return Done;
            case WriteFailed(m) => return Failed(m);
            case WritePanics => return Panics;
          }
        }
      }
      if found {
        return Installs(path, system.url, system.checksum);
      }
      return NotFound(NotFoundMessage(p));
    }

    // Remove: the tool's folder, joined safely below the tools folder, is
    // deleted; `removeErr` is the deletion's error.
    method Remove(p: Payload, removeErr: Option<string>) returns (r: Operation)
      ensures var j := SafeJoin(folder, JoinPath([p.packager, p.name, p.version]));
        r == (if j.err.Some? then Failed(j.err.value)
              else if removeErr.Some? then Failed(removeErr.value)
              else Done)
    {
      var path := JoinPath([p.packager, p.name, p.version]);
      var j := SafeJoin(folder, path);
      if j.err.Some? {
        return Failed(j.err.value);
      }
      if removeErr.Some? {
        return Failed(removeErr.value);
      }
      return Done;
    }
  }

  // The evil names of the Remove test, given as the tool name alone,
  // lead to paths that SafeJoin refuses below any tools folder.
  lemma RemoveParentRefused(dir: seq<string>, p: Payload)
    requires Names(dir) && |dir| >= 1
    requires p.packager == "" && p.name == ".." && p.version == ""
    ensures SafeJoin(RootedDir(dir), JoinPath([p.packager, p.name, p.version])).err.Some?
  {
    var q := ".." + ['/'] + "";
    SplitAfterFree("..", '/', "");
    SplitFree("", '/');
    assert Join(["..", ""], Slash) == q;
    assert Split(q, Slash) == ["..", ""];
    assert Fold(false, [], ["..", ""]) == [".."];
    assert Clean(q) == "..";
    assert [p.packager, p.name, p.version][1..] == ["..", ""];
    assert JoinPath([p.packager, p.name, p.version]) == "..";
    ParentNameRejected(dir);
  }

  lemma RemoveRootRefused(dir: seq<string>, p: Payload)
    requires Names(dir) && |dir| >= 1
    requires p.packager == "" && p.name == "/" && p.version == ""
    ensures SafeJoin(RootedDir(dir), JoinPath([p.packager, p.name, p.version])).err.Some?
  {
    var q := "" + ['/'] + ("" + ['/'] + "");
    SplitAfterFree("", '/', "/");
    SplitAfterFree("", '/', "");
    SplitFree("", '/');
    assert Join(["/", ""], Slash) == q;
    assert Split(q, Slash) == ["", "", ""];
    assert Fold(true, [], ["", "", ""]) == [];
    assert Clean(q) == "/";
    assert [p.packager, p.name, p.version][1..] == ["/", ""];
    assert JoinPath([p.packager, p.name, p.version]) == "/";
    RootNameRejected(dir);
  }

  // A sibling path written with a trailing separator cleans to itself
  // without it.
  lemma CleanSibling(e: string)
    requires IsName(e)
    ensures JoinPath(["", ".." + Slash + e, ""]) == ".." + Slash + e
  {
    var q := ".." + ['/'] + e + ['/'] + "";
    SplitWords3("..", e, "", '/');
    assert Join([".." + Slash + e, ""], Slash) == q;
    assert Split(q, Slash) == ["..", e, ""];
    assert Step(false, [], "..") == [".."];
    assert ["..", e, ""][1..] == [e, ""] && [e, ""][1..] == [""];
    assert Fold(false, ["..", e], [""]) == ["..", e];
    assert Fold(false, [".."], [e, ""]) == ["..", e];
    assert Fold(false, [], ["..", e, ""]) == ["..", e];
    assert Join(["..", e], Slash) == ".." + Slash + e;
    assert ["", ".." + Slash + e, ""][1..] == [".." + Slash + e, ""];
  }

  lemma RemoveSiblingRefused(dir: seq<string>, p: Payload)
    requires Names(dir) && |dir| >= 1
    requires p.packager == "" && p.name == "../evil.txt" && p.version == ""
    ensures SafeJoin(RootedDir(dir), JoinPath([p.packager, p.name, p.version])).err.Some?
  {
    assert p.name == ".." + Slash + "evil.txt";
    CleanSibling("evil.txt");
    SiblingFileRejected(dir);
  }
}
