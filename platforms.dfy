// The platform half of the boards package (boards/platforms.go): the
// tools a platform declares, the patterns (command lines) and options of
// each, and how the keys of a platform.txt are sorted among them.
module Platforms {
  import opened Wrappers
  import Bytes
  import opened GoStrings
  import opened Paths

  // A command line with its parameters.
  datatype Pattern = Pattern(command: string, params: map<string, string>)

  // A program that can program boards, with a pattern per action.
  datatype Tool = Tool(name: string, version: string, packager: string, path: string,
                       patterns: map<string, Pattern>, options: map<string, string>)

  // A tool as Platform.Tool creates it: only the name set.
  function NewTool(name: string): Tool
  {
    Tool(name, "", "", "", map[], map[])
  }

  // The position of the first tool with that name.
  function FirstNamed(tools: seq<Tool>, name: string): (r: Option<nat>)
    ensures r.Some? ==> r.value < |tools| && tools[r.value].name == name
    ensures r.Some? ==> forall j :: 0 <= j < r.value ==> tools[j].name != name
    ensures r.None? ==> forall j :: 0 <= j < |tools| ==> tools[j].name != name
  {
    if tools == [] then None
    else if tools[0].name == name then Some(0)
    else match FirstNamed(tools[1..], name)
      case None => None
      case Some(k) => Some(k + 1)
  }

  // Platform.Tool on the list of tools: the first tool with that name,
  // or a new one appended at the end.
  function FindOrAdd(tools: seq<Tool>, name: string): (r: (seq<Tool>, nat))
    ensures r.1 < |r.0| && r.0[r.1].name == name
    ensures forall j :: 0 <= j < r.1 ==> r.0[j].name != name
    ensures tools <= r.0 && |r.0| <= |tools| + 1
  {
    match FirstNamed(tools, name)
    case Some(i) => (tools, i)
    case None => (tools + [NewTool(name)], |tools|)
  }

  // A second request for the same name finds the tool the first one
  // found or added, and appends nothing.
  lemma FindOrAddIdempotent(tools: seq<Tool>, name: string)
    ensures FindOrAdd(FindOrAdd(tools, name).0, name) == FindOrAdd(tools, name)
  {
    var (ts, i) := FindOrAdd(tools, name);
    FirstNamedIs(ts, name, i);
  }

  // Everything a platform holds.
  datatype PlatformData = PlatformData(name: string, path: string, architecture: string, packager: string,
                                       version: string, options: map<string, string>, tools: seq<Tool>)

  // The pattern for an action, created empty when missing.
  function PatternOf(tool: Tool, action: string): Pattern
  {
    if action in tool.patterns then tool.patterns[action] else Pattern("", map[])
  }

  // One key of platform.txt: "version" and "name" set those fields; a key
  // tools.T.rest (three segments or more) goes to tool T: T.path is its
  // path, T.P.pattern the command of pattern P, T.P.params.K a parameter
  // of P, and any other rest an option; every other key is an option of
  // the platform.
  function Apply(d: PlatformData, key: string, value: string): PlatformData
  {
    if key == "version" then d.(version := value)
    else if key == "name" then d.(name := value)
    else
      var parts := Split(key, ".");
      if parts[0] == "tools" && |parts| > 2 then ApplyTool(d, parts, value)
      else d.(options := d.options[key := value])
  }

  // A key tools.T.rest, split at its dots, applied to tool T.
  function ApplyTool(d: PlatformData, parts: seq<string>, value: string): PlatformData
    requires |parts| > 2
  {
    var (tools, i) := FindOrAdd(d.tools, parts[1]);
    d.(tools := tools[i := Updated(tools[i], parts, value)])
  }

  function Updated(tool: Tool, parts: seq<string>, value: string): Tool
    requires |parts| > 2
  {
    if |parts| == 3 && parts[2] == "path" then tool.(path := value)
    else if |parts| == 4 && parts[3] == "pattern" then
      tool.(patterns := tool.patterns[parts[2] := PatternOf(tool, parts[2]).(command := value)])
    else if |parts| == 5 && parts[3] == "params" then
      var p := PatternOf(tool, parts[2]);
      tool.(patterns := tool.patterns[parts[2] := p.(params := p.params[parts[4] := value])])
    else tool.(options := tool.options[Join(parts[2..], ".") := value])
  }

  lemma ApplyAllSnoc(d: PlatformData, props: seq<(string, string)>, n: nat)
    requires n < |props|
    ensures ApplyAll(d, props[..n + 1]) == Apply(ApplyAll(d, props[..n]), props[n].0, props[n].1)
  {
    assert props[..n + 1][..n] == props[..n];
  }

  // The keys applied in the order they are visited.
  function ApplyAll(d: PlatformData, props: seq<(string, string)>): PlatformData
    decreases |props|
  {
    if props == [] then d
    else
      var last := props[|props| - 1];
      Apply(ApplyAll(d, props[..|props| - 1]), last.0, last.1)
  }

  // The directories a platform.txt sits in: its own, the architecture
  // (its name) and the packager (the name of the one above).
  function Located(d: PlatformData, file: string): PlatformData
  {
    d.(path := Dir(file), architecture := Base(Dir(file)), packager := Base(Dir(Dir(file))))
  }

  class Platform {
    var name: string
    var path: string
    var architecture: string
    var packager: string
    var version: string
    var options: map<string, string>
    var tools: seq<Tool>

    function Data(): PlatformData
      reads this
    {
      PlatformData(name, path, architecture, packager, version, options, tools)
    }

    // A platform as platform.json describes it.
    constructor (d: PlatformData)
      ensures Data() == d
    {
      name, path, architecture, packager := d.name, d.path, d.architecture, d.packager;
      version, options, tools := d.version, d.options, d.tools;
    }

    // Platform.Tool: the tool's position, appending it when missing.
    method Tool(toolName: string) returns (i: nat)
      modifies this
      ensures (tools, i) == FindOrAdd(old(tools), toolName)
      ensures Data() == old(Data()).(tools := tools)
    {
      var k := 0;
      while k < |tools|
        invariant 0 <= k <= |tools| && tools == old(tools)
        invariant forall j :: 0 <= j < k ==> tools[j].name != toolName
      {
        if tools[k].name == toolName {
          FirstNamedIs(tools, toolName, k);
          return k;
        }
        k := k + 1;
      }
      tools := tools + [NewTool(toolName)];
      return |tools| - 1;
    }

    // ParsePlatformTXT: the directories, then every key of the file in the
    // order given (the map order Go visits them in); an unreadable file
    // leaves everything but the directories alone.
    method ParsePlatformTXT(file: string, props: Result<seq<(string, string)>>) returns (err: Option<string>)
      modifies this
      ensures props.Err? ==>
                err == Some("parse properties of platforms.txt " + file + ": " + props.msg)
                && Data() == Located(old(Data()), file)
      ensures props.Ok? ==> err.None? && Data() == ApplyAll(Located(old(Data()), file), props.value)
    {
      path := Dir(file);
      architecture := Base(Dir(file));
      packager := Base(Dir(Dir(file)));
      if props.Err? {
        return Some("parse properties of platforms.txt " + file + ": " + props.msg);
      }
      var start := Data();
      var list := props.value;
      var n := 0;
      while n < |list|
        invariant 0 <= n <= |list|
        invariant Data() == ApplyAll(start, list[..n])
      {
        ApplyAllSnoc(start, list, n);
        var (key, value) := list[n];
        SetKey(key, value);
        n := n + 1;
      }
      Bytes.SliceToEnd(list, 0);
      return None;
    }

    // One key of the file.
    method SetKey(key: string, value: string)
      modifies this
      ensures Data() == Apply(old(Data()), key, value)
    {
      if key == "version" {
        version := value;
      } else if key == "name" {
        name := value;
      } else {
        var parts := Split(key, ".");
        if parts[0] == "tools" && |parts| > 2 {
          SetToolKey(parts, value);
        } else {
          options := options[key := value];
        }
      }
    }

    // A key tools.T.rest, split at its dots.
    method SetToolKey(parts: seq<string>, value: string)
      requires |parts| > 2
      modifies this
      ensures Data() == ApplyTool(old(Data()), parts, value)
    {
      var i := Tool(parts[1]);
      var tool := tools[i];
      if |parts| == 3 && parts[2] == "path" {
        tool := tool.(path := value);
      } else if |parts| == 4 && parts[3] == "pattern" {
        var pattern := PatternOf(tool, parts[2]);
        tool := tool.(patterns := tool.patterns[parts[2] := pattern.(command := value)]);
      } else if |parts| == 5 && parts[3] == "params" {
        var pattern := PatternOf(tool, parts[2]);
        tool := tool.(patterns := tool.patterns[parts[2] := pattern.(params := pattern.params[parts[4] := value])]);
      } else {
        tool := tool.(options := tool.options[Join(parts[2..], ".") := value]);
      }
      tools := tools[i := tool];
    }
  }

  lemma FirstNamedIs(tools: seq<Tool>, name: string, k: nat)
    requires k < |tools| && tools[k].name == name
    requires forall j :: 0 <= j < k ==> tools[j].name != name
    ensures FirstNamed(tools, name) == Some(k)
  {
  }

  // ---------------------------------------------------------------------
  // How the keys are sorted

  // "version" and "name" set the platform's fields and nothing else.
  lemma VersionAndName(d: PlatformData, value: string)
    ensures Apply(d, "version", value) == d.(version := value)
    ensures Apply(d, "name", value) == d.(name := value)
  {
  }

  // A key under tools goes to ApplyTool with its dot-separated parts.
  lemma ApplyToolKey(d: PlatformData, key: string, parts: seq<string>, value: string)
    requires key != "version" && key != "name"
    requires Split(key, ".") == parts && |parts| > 2 && parts[0] == "tools"
    ensures Apply(d, key, value) == ApplyTool(d, parts, value)
  {
  }

  // tools.T.path sets the path of tool T, found or added.
  lemma ToolPath(d: PlatformData, t: string, value: string)
    requires '.' !in t
    ensures var (tools, i) := FindOrAdd(d.tools, t);
      Apply(d, "tools" + "." + t + "." + "path", value) == d.(tools := tools[i := tools[i].(path := value)])
  {
    var key := "tools" + "." + t + "." + "path";
    SplitWords3("tools", t, "path", '.');
    assert key[0] == 't';
    ApplyToolKey(d, key, ["tools", t, "path"], value);
  }

  // tools.T.P.pattern sets the command of pattern P of tool T, keeping its
  // parameters.
  lemma ToolPattern(d: PlatformData, t: string, p: string, value: string)
    requires '.' !in t && '.' !in p
    ensures var (tools, i) := FindOrAdd(d.tools, t);
      var r := Apply(d, "tools" + "." + t + "." + p + "." + "pattern", value);
      |r.tools| == |tools| && p in r.tools[i].patterns
      && r.tools[i].patterns[p] == PatternOf(tools[i], p).(command := value)
      && r == d.(tools := r.tools)
  {
    var key := "tools" + "." + t + "." + p + "." + "pattern";
    SplitWords4("tools", t, p, "pattern", '.');
    assert key[0] == 't';
    ApplyToolKey(d, key, ["tools", t, p, "pattern"], value);
  }
  // tools.T.P.params.K sets parameter K of pattern P of tool T, keeping
  // the pattern's command and its other parameters.
  lemma ToolParam(d: PlatformData, t: string, p: string, k: string, value: string)
    requires '.' !in t && '.' !in p && '.' !in k
    ensures var (tools, i) := FindOrAdd(d.tools, t);
      var r := Apply(d, "tools" + "." + t + "." + p + "." + "params" + "." + k, value);
      |r.tools| == |tools| && p in r.tools[i].patterns
      && r.tools[i].patterns[p] == PatternOf(tools[i], p).(params := PatternOf(tools[i], p).params[k := value])
      && r == d.(tools := r.tools)
  {
    var key := "tools" + "." + t + "." + p + "." + "params" + "." + k;
    SplitWords5("tools", t, p, "params", k, '.');
    assert key[0] == 't';
    ApplyToolKey(d, key, ["tools", t, p, "params", k], value);
  }


  // Any other key of three segments under tools.T is an option of T.
  lemma ToolOption(d: PlatformData, t: string, opt: string, value: string)
    requires '.' !in t && '.' !in opt && opt != "path"
    ensures var (tools, i) := FindOrAdd(d.tools, t);
      Apply(d, "tools" + "." + t + "." + opt, value) == d.(tools := tools[i := tools[i].(options := tools[i].options[opt := value])])
  {
    var key := "tools" + "." + t + "." + opt;
    SplitWords3("tools", t, opt, '.');
    assert key[0] == 't';
    ApplyToolKey(d, key, ["tools", t, opt], value);
    assert ["tools", t, opt][2..] == [opt];
  }

  // A key outside tools.T.rest (and not "version" or "name") is an option
  // of the platform.
  lemma PlatformOption(d: PlatformData, key: string, value: string)
    requires key != "version" && key != "name"
    requires Split(key, ".")[0] != "tools" || |Split(key, ".")| <= 2
    ensures Apply(d, key, value) == d.(options := d.options[key := value])
  {
  }

  // ---------------------------------------------------------------------
  // Platforms.Tool

  // A "pack:name" tool name overrides the packager.
  function Qualified(pack: string, name: string): (string, string)
  {
    var parts := Split(name, ":");
    if |parts| == 2 then (parts[0], parts[1]) else (pack, name)
  }

  lemma QualifiedOverrides(pack: string, p: string, n: string)
    requires ':' !in p && ':' !in n
    ensures Qualified(pack, p + ":" + n) == (p, n)
  {
    SplitWords2(p, n, ':');
  }

  lemma UnqualifiedKept(pack: string, name: string)
    requires ':' !in name
    ensures Qualified(pack, name) == (pack, name)
  {
    SplitFree(name, ':');
  }

  // A tool the search accepts: the name, and the packager unless empty.
  predicate Matches(t: Tool, pack: string, name: string)
  {
    (pack == "" || pack == t.packager) && t.name == name
  }

  // A platform the search looks in: the architecture and the packager.
  predicate Eligible(p: PlatformData, pack: string, arch: string)
  {
    p.architecture == arch && p.packager == pack
  }

  // Platforms.Tool over the platforms (Go visits the map in no fixed
  // order, so any eligible platform may be searched first): within a
  // platform the first matching tool, and None when none matches.
  method LookupTool(plats: map<string, Platform>, pack0: string, arch: string, name0: string) returns (r: Option<Tool>)
    ensures var (pack, name) := Qualified(pack0, name0);
      r.None? <==> forall k, j :: k in plats && Eligible(plats[k].Data(), pack, arch) && 0 <= j < |plats[k].tools|
                                  ==> !Matches(plats[k].tools[j], pack, name)
    ensures var (pack, name) := Qualified(pack0, name0);
      r.Some? ==> exists k, j :: k in plats && Eligible(plats[k].Data(), pack, arch) && 0 <= j < |plats[k].tools|
                                 && plats[k].tools[j] == r.value && Matches(r.value, pack, name)
                                 && forall i :: 0 <= i < j ==> !Matches(plats[k].tools[i], pack, name)
  {
    var (pack, name) := Qualified(pack0, name0);
    var left := plats.Keys;
    while left != {}
      invariant left <= plats.Keys
      invariant forall k, j :: k in plats && k !in left && Eligible(plats[k].Data(), pack, arch) && 0 <= j < |plats[k].tools|
                               ==> !Matches(plats[k].tools[j], pack, name)
      decreases left
    {
      var k :| k in left;
      var plat := plats[k];
      if plat.architecture == arch && plat.packager == pack {
        var j := 0;
        while j < |plat.tools|
          invariant 0 <= j <= |plat.tools|
          invariant forall i :: 0 <= i < j ==> !Matches(plat.tools[i], pack, name)
        {
          var tool := plat.tools[j];
          if !(pack != "" && pack != tool.packager) && tool.name == name {
            return Some(tool);
          }
          j := j + 1;
        }
      }
      left := left - {k};
    }
    return None;
  }
}
