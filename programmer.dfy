// The programmer package (programmer/programmer.go): the older upload
// path. Resolve fills the command-line template, and Do either does
// nothing (a network upload) or resets the board and runs the uploader.
// The locater, the reset and the shell-word parser are parameters.
module Programmer {
  import opened Wrappers
  import opened GoStrings
  import opened Paths
  import opened Templates
  import Upload

  datatype Auth = Auth(username: string, password: string)

  datatype Extra = Extra(use1200bpsTouch: bool, waitForUploadPort: bool, network: bool, auth: Auth,
                         verbose: bool, paramsVerbose: string, paramsQuiet: string)

  // The fixed placeholders of Resolve: the build path and project name,
  // the port and its file name, then "{upload.verbose}" by verbosity.
  function Placeholders(port: string, file: string, commandline: string, extra: Extra): string
  {
    var c1 := ReplaceAll(commandline, Upload.BuildPathKey(), Dir(file));
    var c2 := ReplaceAll(c1, Upload.ProjectNameKey(), Upload.ProjectName(file));
    var c3 := ReplaceAll(c2, Upload.SerialPortKey(), port);
    var c4 := ReplaceAll(c3, Upload.SerialPortFileKey(), Base(port));
    ReplaceAll(c4, VerboseKey(), if extra.verbose then extra.paramsVerbose else extra.paramsQuiet)
  }

  function VerboseKey(): (k: string) ensures Upload.IsKey(k) { "{upload.verbose}" }

  // Resolve: the placeholders, then every token left, each replaced at
  // its first occurrence by what the locater returns, empty or not.
  function Resolve(port: string, board: string, file: string, commandline: string, extra: Extra,
                   locate: string -> Result<string>): (r: Result<string>)
    ensures r.Err? <==> exists t :: t in Tokens(Placeholders(port, file, commandline, extra)) && locate(t).Err?
  {
    var c := Placeholders(port, file, commandline, extra);
    TokensFailIff(c, locate, false);
    ResolveTokens(c, Tokens(c), locate, false)
  }

  method ResolveCmd(port: string, board: string, file: string, commandline: string, extra: Extra,
                    locate: string -> Result<string>) returns (r: Result<string>)
    ensures r == Resolve(port, board, file, commandline, extra, locate)
    ensures r.Err? <==> exists t :: t in Tokens(Placeholders(port, file, commandline, extra)) && locate(t).Err?
  {
    var c := Placeholders(port, file, commandline, extra);
    var toks := Tokens(c);
    r := ResolveLoop(c, toks, locate, false);
  }

  // A lone "{upload.verbose}" becomes the verbose or the quiet parameters,
  // as the flag says.
  lemma VerbositySubstituted(a: string, b: string, port: string, file: string, extra: Extra)
    requires '{' !in a && '{' !in b
    requires '{' !in extra.paramsVerbose && '{' !in extra.paramsQuiet
    ensures Placeholders(port, file, a + VerboseKey() + b, extra)
         == a + (if extra.verbose then extra.paramsVerbose else extra.paramsQuiet) + b
  {
    var k := VerboseKey();
    var s := a + k + b;
    var rep := if extra.verbose then extra.paramsVerbose else extra.paramsQuiet;
    assert (k + b)[1] == 'u';
    assert Upload.BuildPathKey()[1] == 'b' && Upload.ProjectNameKey()[1] == 'b';
    assert Upload.SerialPortKey()[1] == 's' && Upload.SerialPortFileKey()[1] == 's';
    Upload.ReplaceOtherKey(a, Upload.BuildPathKey(), k, b, Dir(file));
    var c1 := ReplaceAll(s, Upload.BuildPathKey(), Dir(file));
    assert c1 == s;
    Upload.ReplaceOtherKey(a, Upload.ProjectNameKey(), k, b, Upload.ProjectName(file));
    var c2 := ReplaceAll(c1, Upload.ProjectNameKey(), Upload.ProjectName(file));
    assert c2 == s;
    Upload.ReplaceOtherKey(a, Upload.SerialPortKey(), k, b, port);
    var c3 := ReplaceAll(c2, Upload.SerialPortKey(), port);
    assert c3 == s;
    Upload.ReplaceOtherKey(a, Upload.SerialPortFileKey(), k, b, Base(port));
    var c4 := ReplaceAll(c3, Upload.SerialPortFileKey(), Base(port));
    assert c4 == s;
    Upload.ReplaceLoneKey(a, k, b, rep);
  }

  // What Do comes to: nothing at all for a network upload (doNetwork is
  // empty), an error, a panic when the parser returns no words, or the
  // uploader run.
  datatype Outcome = Done | Failed(msg: string) | Panics | Runs(binary: string, args: seq<string>)

  // Do, with the reset's result and the shell-word parser as parameters.
  // doSerial assigns the reset's port to a variable it never reads again:
  // the command line is parsed as given.
  function Do(port: string, commandline: string, extra: Extra, reset: Result<string>,
              parse: string -> Result<seq<string>>): (r: Outcome)
    ensures extra.network ==> r == Done
    ensures !extra.network && extra.use1200bpsTouch && reset.Err? ==> r == Failed("Reset before upload: " + reset.msg)
    ensures r.Runs? ==> '"' !in r.binary && forall i :: 0 <= i < |r.args| ==> '"' !in r.args[i]
  {
    if extra.network then Done
    else if extra.use1200bpsTouch && reset.Err? then Failed("Reset before upload: " + reset.msg)
    else match parse(commandline)
      case Err(e) => Failed("Parse commandline: " + e)
      case Ok(z) =>
        if z == [] then Panics
        else Runs(RemoveChar(z[0], '"'), Upload.Unquoted(z[1..]))
  }

  // The port a successful reset reports does not change what runs.
  lemma ResetPortUnused(port: string, commandline: string, extra: Extra, p1: string, p2: string,
                        parse: string -> Result<seq<string>>)
    ensures Do(port, commandline, extra, Ok(p1), parse) == Do(port, commandline, extra, Ok(p2), parse)
    ensures Do(port, commandline, extra, Ok(p1), parse) == Do(port, commandline, extra.(use1200bpsTouch := false), Ok(p1), parse)
  {
  }
}
