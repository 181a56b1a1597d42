// The self-updater (updater/updater_default.go): the "-temp" naming of
// the executable copy, the choice start makes between the two copies,
// and the decisions of an update run. Reading and writing files, the
// network, gzip, bsdiff and SHA-256 are outside the model: their results
// are parameters.
module Updater {
  import opened Wrappers
  import opened GoStrings
  import opened Paths

  function TempSuffix(): string { "-temp" }

  // addTempSuffixToPath: ".exe" would become "-temp.exe" when the
  // extension compares equal to "exe"; any other path gets "-temp"
  // appended.
  function AddTempSuffix(path: string): string
  {
    if Ext(path) == "exe" then ReplaceAll(path, ".exe", "-temp.exe")
    else path + TempSuffix()
  }

  // filepath.Ext keeps the dot, so the comparison with "exe" never
  // holds: every path, ".exe" ones included, gets "-temp" appended.
  lemma AddTempAppends(path: string)
    ensures AddTempSuffix(path) == path + TempSuffix()
  {
    var e := Ext(path);
    assert e == "" || e[0] == '.';
    assert "exe"[0] == 'e';
  }

  // removeTempSuffixFromPath: every "-temp" is removed, so the path never
  // grows, and a path without one is left as it is.
  function RemoveTempSuffix(path: string): (r: string)
    ensures |r| <= |path|
    ensures !Contains(path, TempSuffix()) ==> r == path
  {
    ReplaceAllLength(path, TempSuffix(), "");
    ReplaceAll(path, TempSuffix(), "")
  }

  // The first occurrence of t in p + t, when p holds none and t's first
  // character occurs nowhere else in t, is the appended one.
  lemma IndexOfAppendedPattern(p: string, t: string)
    requires |t| >= 1 && !Contains(p, t)
    requires forall i :: 1 <= i < |t| ==> t[i] != t[0]
    ensures Index(p + t, t) == Some(|p|)
  {
    var s := p + t;
    assert s[|p|..] == t;
    assert OccursAt(s, t, |p|);
    forall j: nat | j < |p|
      ensures !OccursAt(s, t, j)
    {
      if j + |t| <= |p| {
        assert s[j..j + |t|] == p[j..j + |t|];
        assert !OccursAt(p, t, j);
      } else if j + |t| <= |s| {
        assert s[j..j + |t|][|p| - j] == s[|p|] == t[0];
      }
    }
  }

  lemma IndexOfAppended(p: string)
    requires !Contains(p, TempSuffix())
    ensures Index(p + TempSuffix(), TempSuffix()) == Some(|p|)
  {
    TempSuffixLeads();
    IndexOfAppendedPattern(p, TempSuffix());
  }

  lemma TempSuffixLeads()
    ensures forall i :: 1 <= i < |TempSuffix()| ==> TempSuffix()[i] != TempSuffix()[0]
  {
    var t := TempSuffix();
    assert t == ['-', 't', 'e', 'm', 'p'];
  }

  // Removing the suffix undoes adding it, for a path without "-temp".
  lemma TempRoundTrip(p: string)
    requires !Contains(p, TempSuffix())
    ensures RemoveTempSuffix(AddTempSuffix(p)) == p
  {
    AddTempAppends(p);
    var s := p + TempSuffix();
    IndexOfAppended(p);
    assert s[..|p|] == p;
    assert s[|p| + |TempSuffix()|..] == "";
    assert Split(s, TempSuffix()) == [p] + Split("", TempSuffix());
    assert Split("", TempSuffix()) == [""];
    assert Join([p, ""], "") == p;
  }

  // ---------------------------------------------------------------------
  // start

  datatype Started = Restart(path: string) | Stay | Panics

  // Where start copies the running executable: from the temporary copy
  // back to the real name, or from the real name to the temporary one.
  function CopyTarget(src: string): string
  {
    if Contains(src, TempSuffix()) then RemoveTempSuffix(src) else AddTempSuffix(src)
  }

  // start, with `copyFails` for an error of the copy (which panics): the
  // temporary copy restarts as the real executable; the real one asks for
  // no restart.
  function Start(src: string, copyFails: bool): (r: Started)
    ensures r == Panics <==> copyFails
    ensures r.Restart? <==> !copyFails && Contains(src, TempSuffix())
    ensures r.Restart? ==> r.path == CopyTarget(src)
  {
    if Contains(src, TempSuffix()) then
      if copyFails then Panics else Restart(RemoveTempSuffix(src))
    else if copyFails then Panics
    else Stay
  }

  // checkForUpdates hands back the temporary name of a real executable;
  // starting from that name restarts as the real executable, whose own
  // start copies it to that same temporary name again.
  lemma StartCycle(p: string)
    requires !Contains(p, TempSuffix())
    ensures Start(AddTempSuffix(p), false) == Restart(p)
    ensures Start(p, false) == Stay && CopyTarget(p) == AddTempSuffix(p)
  {
    IndexOfAppended(p);
    AddTempAppends(p);
    TempRoundTrip(p);
  }

  // ---------------------------------------------------------------------
  // An update run

  datatype Config = Config(currentVersion: string, apiURL: string, cmdName: string,
                           binURL: string, diffURL: string, dir: string)

  const DiffURLUndefined: string :=
    "DiffURL is not defined, I cannot fetch and apply patch, reverting to full bin"

  function HashMismatch(): string { "new file hash mismatch after patch" }

  // The address of the patch from the current version to `version`;
  // without a DiffURL, the errDiffURLUndefined error and no fetch.
  function PatchURL(u: Config, version: string, plat: string): (r: Result<string>)
    ensures r.Err? <==> u.diffURL == ""
    ensures r.Err? ==> r.msg == DiffURLUndefined
    ensures r.Ok? ==> HasPrefix(r.value, u.diffURL + u.cmdName + "/")
  {
    if u.diffURL == "" then Err(DiffURLUndefined)
    else
      var head := u.diffURL + u.cmdName + "/";
      var tail := u.currentVersion + "/" + version + "/" + plat;
      assert head <= head + tail;
      Ok(head + tail)
  }

  function BinURL(u: Config, version: string, plat: string): string
  {
    u.binURL + u.cmdName + "/" + version + "/" + plat + ".gz"
  }

  // A fetched binary is kept only when its hash matches.
  function Verified(bin: Result<seq<bv8>>, hashOk: seq<bv8> -> bool): (r: Result<seq<bv8>>)
    ensures r.Ok? <==> bin.Ok? && hashOk(bin.value)
    ensures r.Ok? ==> r == bin
    ensures bin.Err? ==> r == bin
  {
    match bin
    case Err(e) => Err(e)
    case Ok(b) => if hashOk(b) then Ok(b) else Err(HashMismatch())
  }

  // The binary an update installs: the patched one when a DiffURL is
  // set and the patch checks out, the full one otherwise.
  function Fetched(u: Config, patch: Result<seq<bv8>>, full: Result<seq<bv8>>,
                   hashOk: seq<bv8> -> bool): (r: Result<seq<bv8>>)
    ensures r.Ok? ==> hashOk(r.value)
    ensures u.diffURL == "" ==> r == Verified(full, hashOk)
  {
    // without a DiffURL the patch is never fetched (errDiffURLUndefined)
    if u.diffURL != "" && Verified(patch, hashOk).Ok? then Verified(patch, hashOk)
    else Verified(full, hashOk)
  }

  datatype Outcome = UpToDate | Failed(msg: string) | Install(target: string, bin: seq<bv8>)

  // update. `exe` is the executable's path, `openErr` the error opening
  // its temporary copy, `remote` the version the API announces, `patch`
  // the fetched and applied patch (asked for only with a DiffURL), `full`
  // the fetched full binary, `hashOk` the SHA-256 check and `applyErr`
  // the error of replacing the temporary copy.
  function Update(u: Config, exe: Result<string>, openErr: Option<string>, remote: Result<string>,
                  patch: Result<seq<bv8>>, full: Result<seq<bv8>>, hashOk: seq<bv8> -> bool,
                  applyErr: Option<string>): (r: Outcome)
    ensures exe.Ok? && openErr.None? && remote.Ok? && remote.value == u.currentVersion ==> r == UpToDate
    ensures r.Install? ==> exe.Ok? && r.target == AddTempSuffix(exe.value) && hashOk(r.bin)
    ensures r.Install? ==> remote.Ok? && remote.value != u.currentVersion
  {
    if exe.Err? then Failed(exe.msg)
    else
      var path := AddTempSuffix(exe.value);
      if openErr.Some? then Failed(openErr.value)
      else if remote.Err? then Failed(remote.msg)
      else if remote.value == u.currentVersion then UpToDate
      else
        var bin := Fetched(u, patch, full, hashOk);
        if bin.Err? then Failed(bin.msg)
        else if applyErr.Some? then Failed(applyErr.value)
        else Install(path, bin.value)
  }

  // Without a DiffURL no patch is used: the full binary decides.
  lemma NoDiffURLIgnoresPatch(u: Config, exe: Result<string>, openErr: Option<string>, remote: Result<string>,
                              p1: Result<seq<bv8>>, p2: Result<seq<bv8>>, full: Result<seq<bv8>>,
                              hashOk: seq<bv8> -> bool, applyErr: Option<string>)
    requires u.diffURL == ""
    ensures Update(u, exe, openErr, remote, p1, full, hashOk, applyErr)
         == Update(u, exe, openErr, remote, p2, full, hashOk, applyErr)
  {
  }

  // A verified patch wins over the full binary.
  lemma PatchPreferred(u: Config, exe: string, remote: string, bin: seq<bv8>, full: Result<seq<bv8>>,
                       hashOk: seq<bv8> -> bool)
    requires u.diffURL != "" && remote != u.currentVersion && hashOk(bin)
    ensures Update(u, Ok(exe), None, Ok(remote), Ok(bin), full, hashOk, None)
         == Install(AddTempSuffix(exe), bin)
  {
  }
}
