// The string logic of the upload package (upload/upload.go): template
// resolution before an upload, the port substitutions, the network
// upload's credential defaults and ssh-then-form fallback, and the
// decisions a serial upload makes before it runs the uploader. The
// locater, the port enumerator, the 1200-bps reset, the shell-word
// parser, ssh and the HTTP form are parameters.
module Upload {
  import opened Wrappers
  import opened GoStrings
  import opened Strconv
  import opened Paths
  import opened Templates

  datatype Auth = Auth(username: string, password: string, privateKey: string, port: int)

  datatype Extra = Extra(use1200bpsTouch: bool, waitForUploadPort: bool, network: bool, auth: Auth, ssh: bool)

  // A port as the detailed enumerator lists it.
  datatype DetailedPort = DetailedPort(name: string, serialNumber: string)

  // The sketch's file name without its extension.
  function ProjectName(file: string): (r: string)
    ensures Ext(Base(file)) == "" ==> r == Base(file)
    ensures HasSuffix(Base(file), Ext(Base(file))) && r + Ext(Base(file)) == Base(file)
  {
    TrimSuffix(Base(file), Ext(Base(file)))
  }

  // The four fixed placeholders PartiallyResolve substitutes everywhere.
  // Paths are '/' paths, so filepath.ToSlash changes nothing.
  function Placeholders(file: string, platformPath: string, commandline: string, extra: Extra): string
  {
    var c1 := ReplaceAll(commandline, BuildPathKey(), Dir(file));
    var c2 := ReplaceAll(c1, ProjectNameKey(), ProjectName(file));
    var c3 := ReplaceAll(c2, PasswordKey(), extra.auth.password);
    ReplaceAll(c3, PlatformPathKey(), platformPath)
  }

  // PartiallyResolve: the placeholders, then every token left, resolved
  // through the locater; an empty location keeps the token. The board
  // plays no part, so "{fqbn}" is left to the locater like any other
  // token.
  function PartiallyResolve(board: string, file: string, platformPath: string, commandline: string, extra: Extra,
                            locate: string -> Result<string>): (r: Result<string>)
    ensures r.Err? <==> exists t :: t in Tokens(Placeholders(file, platformPath, commandline, extra)) && locate(t).Err?
  {
    var c := Placeholders(file, platformPath, commandline, extra);
    TokensFailIff(c, locate, true);
    ResolveTokens(c, Tokens(c), locate, true)
  }

  // PartiallyResolve as the source runs it: the token loop on a local.
  method PartiallyResolveCmd(board: string, file: string, platformPath: string, commandline: string, extra: Extra,
                             locate: string -> Result<string>) returns (r: Result<string>)
    ensures r == PartiallyResolve(board, file, platformPath, commandline, extra, locate)
    ensures r.Err? <==> exists t :: t in Tokens(Placeholders(file, platformPath, commandline, extra)) && locate(t).Err?
  {
    var c := Placeholders(file, platformPath, commandline, extra);
    var toks := Tokens(c);
    r := ResolveLoop(c, toks, locate, true);
  }

  // A placeholder key, as a value whose shape is known: it opens with
  // '{', closes with '}', and holds no other '{'.
  predicate IsKey(k: string)
  {
    |k| >= 2 && k[0] == '{' && k[|k| - 1] == '}' && '{' !in k[1..]
  }

  // Replacing a key in text without a '{' changes nothing.
  lemma ReplaceBraceFree(s: string, key: string, rep: string)
    requires IsKey(key) && '{' !in s
    ensures ReplaceAll(s, key, rep) == s
  {
    ContainedChars(s, key, 0);
    ReplaceAllAbsent(s, key, rep);
  }

  // The only '{' of a + key + b is the key's own: replacing the key
  // replaces that occurrence alone.
  lemma ReplaceLoneKey(a: string, key: string, b: string, rep: string)
    requires IsKey(key) && '{' !in a && '{' !in b
    ensures ReplaceAll(a + key + b, key, rep) == a + rep + b
  {
    var s := a + key + b;
    assert s[|a|..|a| + |key|] == key;
    assert OccursAt(s, key, |a|);
    var i := Index(s, key).value;
    assert s[i..i + |key|][0] == s[i];
    LoneBrace(a, key, b, i);
    assert s[..i] == a;
    assert s[i + |key|..] == b;
    SplitWithout(b, key);
    CutAt(s, key, i);
    JoinSplitOne(a, b, rep, key);
  }

  lemma SplitWithout(b: string, key: string)
    requires IsKey(key) && '{' !in b
    ensures Split(b, key) == [b]
  {
    ContainedChars(b, key, 0);
  }

  lemma JoinSplitOne(a: string, b: string, rep: string, key: string)
    requires |key| > 0
    ensures Join([a] + [b], rep) == a + rep + b
  {
  }

  // In a + other + b the only '{' is the one opening `other`.
  lemma LoneBrace(a: string, other: string, b: string, j: nat)
    requires IsKey(other) && '{' !in a && '{' !in b && j < |a + other + b|
    ensures (a + other + b)[j] == '{' ==> j == |a|
  {
    var s := a + other + b;
    if j < |a| {
      assert s[j] == a[j];
    } else if j > |a| && j < |a| + |other| {
      assert s[j] == other[1..][j - |a| - 1];
    } else if j >= |a| + |other| {
      assert s[j] == b[j - |a| - |other|];
    }
  }

  // Where a key occurs in a + other + b, it occurs at the start of other.
  lemma KeyOnlyAtBrace(a: string, key: string, other: string, b: string)
    requires IsKey(key) && IsKey(other) && '{' !in a && '{' !in b
    ensures Contains(a + other + b, key) ==> HasPrefix(other + b, key)
  {
    var s := a + other + b;
    if Contains(s, key) {
      var i := Index(s, key).value;
      assert s[i..i + |key|][0] == s[i];
      LoneBrace(a, other, b, i);
      assert (other + b)[..|key|] == s[i..i + |key|];
    }
  }

  // A different key, found nowhere in text whose one '{' starts another
  // key that differs from it before either closes.
  lemma ReplaceOtherKey(a: string, key: string, other: string, b: string, rep: string)
    requires IsKey(key) && IsKey(other) && '{' !in a && '{' !in b
    requires !HasPrefix(other + b, key)
    ensures ReplaceAll(a + other + b, key, rep) == a + other + b
  {
    KeyOnlyAtBrace(a, key, other, b);
    ReplaceAllAbsent(a + other + b, key, rep);
  }

  // fixupPort without the enumerator's part: the port and its base name.
  function PortPlaceholders(port: string, commandline: string): string
  {
    ReplaceAll(ReplaceAll(commandline, SerialPortKey(), port), SerialPortFileKey(), Base(port))
  }

  function SerialPortKey(): (k: string) ensures IsKey(k) { "{serial.port}" }
  function SerialPortFileKey(): (k: string) ensures IsKey(k) { "{serial.port.file}" }

  // The enumerator's part: every listed port of that name puts its serial
  // number in place of "{serial.port.iserial}", in list order.
  function ISerials(port: string, commandline: string, ports: seq<DetailedPort>): string
    decreases |ports|
  {
    if ports == [] then commandline
    else
      var last := ports[|ports| - 1];
      var c := ISerials(port, commandline, ports[..|ports| - 1]);
      if last.name == port then ReplaceAll(c, "{serial.port.iserial}", last.serialNumber) else c
  }

  // fixupPort; `ports` is None when the enumerator failed.
  function FixupPort(port: string, commandline: string, ports: Option<seq<DetailedPort>>): string
  {
    var c := PortPlaceholders(port, commandline);
    match ports
    case None => c
    case Some(ps) => ISerials(port, c, ps)
  }

  method FixupPortCmd(port: string, commandline: string, ports: Option<seq<DetailedPort>>) returns (c: string)
    ensures c == FixupPort(port, commandline, ports)
    ensures ports.None? || (forall p :: p in ports.value ==> p.name != port) ==> c == PortPlaceholders(port, commandline)
  {
    c := PortPlaceholders(port, commandline);
    if ports.Some? {
      var ps := ports.value;
      var i := 0;
      while i < |ps|
        invariant 0 <= i <= |ps|
        invariant c == ISerials(port, PortPlaceholders(port, commandline), ps[..i])
        invariant (forall p :: p in ps ==> p.name != port) ==> c == PortPlaceholders(port, commandline)
      {
        assert ps[..i + 1][..i] == ps[..i];
        if ps[i].name == port {
          c := ReplaceAll(c, "{serial.port.iserial}", ps[i].serialNumber);
        }
        i := i + 1;
      }
      assert ps[..i] == ps;
    }
  }

  // A lone "{serial.port}" becomes the port.
  lemma SerialPortSubstituted(a: string, port: string, b: string)
    requires '{' !in a && '{' !in b && '{' !in port
    ensures PortPlaceholders(port, a + SerialPortKey() + b) == a + port + b
  {
    ReplaceLoneKey(a, SerialPortKey(), b, port);
    ReplaceBraceFree(a + port + b, SerialPortFileKey(), Base(port));
  }

  // A lone "{serial.port.file}" becomes the port's base name; the
  // "{serial.port}" replacement, which runs first, does not touch it.
  lemma SerialPortFileSubstituted(a: string, port: string, b: string)
    requires '{' !in a && '{' !in b
    ensures PortPlaceholders(port, a + SerialPortFileKey() + b) == a + Base(port) + b
  {
    var file := SerialPortFileKey();
    var key := SerialPortKey();
    assert (file + b)[12] == '.' && key[12] == '}';
    ReplaceOtherKey(a, key, file, b, port);
    ReplaceLoneKey(a, file, b, Base(port));
  }

  // Each of the four fixed keys, as a value of known shape.
  function BuildPathKey(): (k: string) ensures IsKey(k) { "{build.path}" }
  function ProjectNameKey(): (k: string) ensures IsKey(k) { "{build.project_name}" }
  function PasswordKey(): (k: string) ensures IsKey(k) { "{network.password}" }
  function PlatformPathKey(): (k: string) ensures IsKey(k) { "{runtime.platform.path}" }

  // The three replacements after the first, on text without a '{'.
  lemma LaterPlaceholdersIdle(s: string, file: string, platformPath: string, extra: Extra)
    requires '{' !in s
    ensures ReplaceAll(ReplaceAll(ReplaceAll(s, ProjectNameKey(), ProjectName(file)), PasswordKey(), extra.auth.password),
                       PlatformPathKey(), platformPath) == s
  {
    ReplaceBraceFree(s, ProjectNameKey(), ProjectName(file));
    ReplaceBraceFree(s, PasswordKey(), extra.auth.password);
    ReplaceBraceFree(s, PlatformPathKey(), platformPath);
  }

  // A lone "{build.path}" becomes the sketch's directory.
  lemma BuildPathSubstituted(a: string, b: string, file: string, platformPath: string, extra: Extra)
    requires '{' !in a && '{' !in b && '{' !in Dir(file)
    ensures Placeholders(file, platformPath, a + BuildPathKey() + b, extra) == a + Dir(file) + b
  {
    var s := a + Dir(file) + b;
    ReplaceLoneKey(a, BuildPathKey(), b, Dir(file));
    LaterPlaceholdersIdle(s, file, platformPath, extra);
  }

  // A command line without any '{' is resolved to itself, whatever the
  // locater would say.
  lemma PlainCommandUnchanged(board: string, file: string, platformPath: string, s: string, extra: Extra,
                              locate: string -> Result<string>)
    requires '{' !in s
    ensures PartiallyResolve(board, file, platformPath, s, extra, locate) == Ok(s)
  {
    assert Placeholders(file, platformPath, s, extra) == s by {
      ReplaceBraceFree(s, BuildPathKey(), Dir(file));
      LaterPlaceholdersIdle(s, file, platformPath, extra);
    }
    assert Tokens(s) == [] by {
      NoBraceNoTokens(s);
    }
  }

  // Network's defaults: "root" for an empty user name and "arduino" for
  // an empty password; anything given is kept.
  function NetworkAuth(auth: Auth): (r: Auth)
    ensures r.username != "" && r.password != ""
    ensures auth.username != "" ==> r.username == auth.username
    ensures auth.password != "" ==> r.password == auth.password
    ensures r.privateKey == auth.privateKey && r.port == auth.port
  {
    auth.(username := if auth.username == "" then "root" else auth.username,
          password := if auth.password == "" then "arduino" else auth.password)
  }

  // The ssh address: the port's host name and the ssh port, 22 when none
  // is given.
  function SshAddress(port: string, auth: Auth): (r: string)
    ensures HasPrefix(r, port + ":")
    ensures auth.port == 0 ==> r == port + ":" + "22"
  {
    assert Digits(22) == Digits(2) + ['2'];
    port + ":" + Itoa(if auth.port == 0 then 22 else auth.port)
  }

  // Where ssh copies each file: /tmp/sketch plus the file's extension, or
  // the file's own name when the SSH flag asks for no renaming.
  function RemoteName(file: string, sshFlag: bool): (r: string)
    ensures HasPrefix(r, "/tmp/")
  {
    if sshFlag then "/tmp/" + Base(file) else "/tmp/sketch" + Ext(file)
  }

  // The command ssh runs: the given one, or the Yun's fixed one when none
  // is given.
  function SshCommand(commandline: string): (r: string)
    ensures r != ""
    ensures commandline != "" ==> r == commandline
  {
    if commandline == "" then "merge-sketch-with-bootloader.lua /tmp/sketch.hex && /usr/bin/run-avrdude /tmp/sketch.hex"
    else commandline
  }

  // Network's outcome from what ssh and the form upload report (None for
  // success): the form upload is tried only when ssh failed and the SSH
  // flag is off.
  function NetworkOutcome(sshErr: Option<string>, sshFlag: bool, formErr: Option<string>): (r: Option<string>)
  {
    if sshErr.Some? && !sshFlag then formErr else sshErr
  }

  lemma NetworkSucceedsIff(sshErr: Option<string>, sshFlag: bool, formErr: Option<string>)
    ensures NetworkOutcome(sshErr, sshFlag, formErr).None? <==> sshErr.None? || (!sshFlag && formErr.None?)
    ensures sshFlag ==> NetworkOutcome(sshErr, sshFlag, formErr) == sshErr
  {
  }

  // What a serial upload comes to: an error, a panic (the shell-word
  // parser returned no words and z[0] is out of range), or the uploader
  // run with quote-free binary and arguments.
  datatype Outcome = Failed(msg: string) | Panics | Runs(binary: string, args: seq<string>)

  // reset: the port the board came back on, or the old one when the reset
  // reports none.
  function ResetPort(port: string, reset: Result<string>): Result<string>
  {
    match reset
    case Err(e) => Err(e)
    case Ok(newPort) => Ok(if newPort != "" then newPort else port)
  }

  function Unquoted(args: seq<string>): (r: seq<string>)
    ensures |r| == |args|
    ensures forall i :: 0 <= i < |r| ==> r[i] == RemoveChar(args[i], '"')
  {
    seq(|args|, i requires 0 <= i < |args| => RemoveChar(args[i], '"'))
  }

  // Serial, with the reset's result, the enumerator's list and the
  // shell-word parser as parameters.
  function Serial(port: string, commandline: string, extra: Extra, reset: Result<string>,
                  ports: Option<seq<DetailedPort>>, parse: string -> Result<seq<string>>): (r: Outcome)
    ensures extra.use1200bpsTouch && reset.Err? ==> r == Failed("Reset before upload: " + reset.msg)
    ensures r.Runs? ==> '"' !in r.binary && forall i :: 0 <= i < |r.args| ==> '"' !in r.args[i]
  {
    var p := if extra.use1200bpsTouch then ResetPort(port, reset) else Ok(port);
    match p
    case Err(e) => Failed("Reset before upload: " + e)
    case Ok(target) =>
      var c := FixupPort(target, commandline, ports);
      match parse(c)
      case Err(e) => Failed("Parse commandline: " + e)
      case Ok(z) =>
        if z == [] then Panics
        else Runs(RemoveChar(z[0], '"'), Unquoted(z[1..]))
  }

  // The port the uploader is pointed at is the one the reset reported,
  // when it reported one.
  lemma SerialUsesResetPort(port: string, commandline: string, extra: Extra, newPort: string,
                            ports: Option<seq<DetailedPort>>, parse: string -> Result<seq<string>>)
    requires extra.use1200bpsTouch && newPort != ""
    ensures Serial(port, commandline, extra, Ok(newPort), ports, parse)
         == Serial(newPort, commandline, extra.(use1200bpsTouch := false), Ok(newPort), ports, parse)
  {
  }
}
