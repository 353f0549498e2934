/** The deployment-configuration helpers of the Elasticsearch deployment
    scripts: reading `es-config.json` with shell-style comments, choosing a
    deployment by name, and the names of the per-deployment files under
    `./deployments`. Reading the file and parsing its JSON are parameters. */
module GenUtil {
  import opened Wrappers
  import opened Text

  /** The `master` or `data` entry of a deployment: its node count and the
      optional `vm_cpu` and `vm_ram` settings. */
  datatype NodeConfig = NodeConfig(count: int, vmCpu: Option<int>, vmRam: Option<string>)

  /** One deployment of `es-config.json`; a missing `name` key is `None`. */
  datatype DeploymentConfig = DeploymentConfig(
    name: Option<string>, project: string, zone: string,
    master: NodeConfig, data: NodeConfig)

  datatype ConfigError =
    | InvalidJson                        // json.loads fails: exit 1
    | MissingName(index: nat)            // config['name'] raises KeyError
    | DeploymentNotFound(deployment: string)  // next() finds nothing: exit 1

  // ---------------------------------------------------------------------
  // Comments

  /** One line with its comment removed: the text before the first `#`, or,
      for a line without `#`, the line without trailing whitespace. */
  function StripComment(line: string): (r: string)
    ensures StartsWith(line, r)
    ensures '#' !in r
    ensures '#' in line ==> |r| < |line| && line[|r|] == '#'
    ensures '#' !in line ==> r == RStrip(line)
  {
    IndexOfChar(line, '#');
    match IndexOf(line, "#")
    case Some(i) => line[..i]
    case None => RStrip(line)
  }

  /** Removing comments keeps everything before the first `#`: a line whose
      text up to some `#` is `code` strips to exactly `code`. */
  lemma StripCommentKeepsCode(code: string, comment: string)
    requires '#' !in code
    ensures StripComment(code + "#" + comment) == code
  {
    var line := code + "#" + comment;
    assert line[|code|] == '#';
    var r := StripComment(line);
    assert r == line[..|r|];
    assert line[..|code|] == code;
  }

  /** The comment-stripping pass of `load_config`, in place over the lines. */
  method StripComments(lines: array<string>)
    modifies lines
    ensures forall i :: 0 <= i < lines.Length ==> lines[i] == StripComment(old(lines[i]))
  {
    for lineNo := 0 to lines.Length
      invariant forall i :: 0 <= i < lineNo ==> lines[i] == StripComment(old(lines[i]))
      invariant forall i :: lineNo <= i < lines.Length ==> lines[i] == old(lines[i])
    {
      var line := lines[lineNo];
      var hashLoc := IndexOf(line, "#");
      if hashLoc.Some? {
        lines[lineNo] := line[0..hashLoc.value];
      } else {
        lines[lineNo] := RStrip(line);
      }
    }
  }

  /** The text handed to the JSON parser. */
  function StrippedText(lines: seq<string>): (text: string)
    ensures '#' !in text
  {
    var stripped := seq(|lines|, i requires 0 <= i < |lines| => StripComment(lines[i]));
    JoinAvoids(stripped, "\n", '#');
    Join(stripped, "\n")
  }

  /** `next(config for config in all_config if config['name'] == deployment)`:
      the index of the first deployment of that name; looking at a
      deployment without a name before that is a KeyError. */
  function FindDeployment(configs: seq<DeploymentConfig>, deployment: string): (r: Result<nat, ConfigError>)
    ensures r.Success? ==>
      && r.value < |configs|
      && configs[r.value].name == Some(deployment)
      && forall j :: 0 <= j < r.value ==> configs[j].name.Some? && configs[j].name.value != deployment
    ensures r.Failure? && r.error.MissingName? ==>
      && r.error.index < |configs|
      && configs[r.error.index].name.None?
      && forall j :: 0 <= j < r.error.index ==> configs[j].name.Some? && configs[j].name.value != deployment
    ensures r.Failure? ==> r.error.MissingName? || r.error == DeploymentNotFound(deployment)
    ensures r == Failure(DeploymentNotFound(deployment)) <==>
      forall j :: 0 <= j < |configs| ==> configs[j].name.Some? && configs[j].name.value != deployment
    decreases |configs|
  {
    if |configs| == 0 then Failure(DeploymentNotFound(deployment))
    else if configs[0].name.None? then Failure(MissingName(0))
    else if configs[0].name.value == deployment then Success(0)
    else
      assert forall j :: 1 <= j < |configs| ==> configs[1..][j - 1] == configs[j];
      match FindDeployment(configs[1..], deployment)
      case Success(i) => Success(i + 1)
      case Failure(e) =>
        if e.MissingName? then Failure(MissingName(e.index + 1)) else Failure(e)
  }

  /** What `load_config(deployment)` returns for the file's lines. */
  function Config(lines: seq<string>, parseJson: string -> Option<seq<DeploymentConfig>>,
                  deployment: string): Result<DeploymentConfig, ConfigError>
  {
    match parseJson(StrippedText(lines))
    case None => Failure(InvalidJson)
    case Some(configs) =>
      match FindDeployment(configs, deployment)
      case Success(i) => Success(configs[i])
      case Failure(e) => Failure(e)
  }

  /** `load_config`: the file's lines go into a list, have their comments
      stripped in place, are joined and parsed, and the deployment is looked
      up. */
  method LoadConfig(fileLines: seq<string>, parseJson: string -> Option<seq<DeploymentConfig>>,
                    deployment: string) returns (r: Result<DeploymentConfig, ConfigError>)
    ensures r == Config(fileLines, parseJson, deployment)
    ensures r.Success? ==> r.value.name == Some(deployment)
  {
    var allLines := new string[|fileLines|](i requires 0 <= i < |fileLines| => fileLines[i]);
    StripComments(allLines);
    assert allLines[..] == seq(|fileLines|, i requires 0 <= i < |fileLines| => StripComment(fileLines[i]));
    var allConfig := parseJson(Join(allLines[..], "\n"));
    if allConfig.None? {
      return Failure(InvalidJson);
    }
    var found := FindDeployment(allConfig.value, deployment);
    if found.Failure? {
      return Failure(found.error);
    }
    return Success(allConfig.value[found.value]);
  }

  // ---------------------------------------------------------------------
  // Deployment files

  /** The files a deployment keeps under `./deployments`. */
  datatype DeploymentFile = ClusterYaml | RuntimeJson | TlsCrt | Netrc

  /** The dotted suffix of each file. */
  function Suffix(kind: DeploymentFile): string {
    match kind
    case ClusterYaml => ".yaml"
    case RuntimeJson => ".runtime.json"
    case TlsCrt => ".tls.crt"
    case Netrc => ".netrc"
  }

  const DeploymentsDir := "./deployments/"

  /** `get_es_config_file`, `get_es_runtime_file`, `get_es_tls_crt` and
      `get_netrc_file`: `./deployments/<name><suffix>`. */
  function DeploymentPath(name: string, kind: DeploymentFile): (p: string)
    ensures StartsWith(p, DeploymentsDir + name + ".")
    ensures p[|DeploymentsDir + name|..] == Suffix(kind)
  {
    var p := DeploymentsDir + name + Suffix(kind);
    assert p[..|DeploymentsDir + name + "."|] == DeploymentsDir + name + ".";
    p
  }

  /** Texts equal after different prefixes end the same way. */
  lemma CommonSuffix(a: string, s: string, b: string, t: string)
    requires a + s == b + t && |s| <= |t|
    ensures EndsWith(t, s)
  {
    assert (a + s)[|a + s| - |s|..] == s;
    assert (b + t)[|b + t| - |s|..] == t[|t| - |s|..];
  }

  /** No suffix ends another one, and no two have the same length. */
  lemma SuffixesUnrelated(k1: DeploymentFile, k2: DeploymentFile)
    requires k1 != k2 && |Suffix(k1)| <= |Suffix(k2)|
    ensures |Suffix(k1)| < |Suffix(k2)|
    ensures !EndsWith(Suffix(k2), Suffix(k1))
  {
    var s1, s2 := Suffix(k1), Suffix(k2);
    assert s2[|s2| - |s1|..] != s1 by {
      if |s1| == 6 {
        assert s2[|s2| - 6] != '.';
      } else if |s1| == 5 {
        assert s2[|s2| - 1] != 'l';
      } else {
        assert s2[|s2| - 8] != '.';
      }
    }
  }

  /** Different deployments or different files never share a path, so no
      file written for one deployment overwrites another's. */
  lemma DeploymentPathsDistinct(n1: string, k1: DeploymentFile, n2: string, k2: DeploymentFile)
    ensures DeploymentPath(n1, k1) == DeploymentPath(n2, k2) <==> n1 == n2 && k1 == k2
  {
    var s1, s2 := Suffix(k1), Suffix(k2);
    var a1, a2 := DeploymentsDir + n1, DeploymentsDir + n2;
    if a1 + s1 == a2 + s2 {
      if k1 == k2 {
        assert a1 == (a1 + s1)[..|a1|];
        assert a2 == (a2 + s2)[..|a2|];
        assert n1 == a1[|DeploymentsDir|..];
        assert n2 == a2[|DeploymentsDir|..];
      } else if |s1| <= |s2| {
        CommonSuffix(a1, s1, a2, s2);
        SuffixesUnrelated(k1, k2);
      } else {
        CommonSuffix(a2, s2, a1, s1);
        SuffixesUnrelated(k2, k1);
      }
    }
  }

  /** The pattern `rm_deployment_files` passes to `rm -f`. */
  function RemovalGlob(clusterName: string): string {
    DeploymentsDir + clusterName + ".*"
  }

  /** The shell's meaning of a pattern ending in one `*`: the text before the
      star, then any text without `/`. */
  predicate GlobMatches(pattern: string, path: string)
    requires EndsWith(pattern, "*")
  {
    var stem := pattern[..|pattern| - 1];
    StartsWith(path, stem) && '/' !in path[|stem|..]
  }

  /** A pattern `<stem>*` matches `<stem><rest>` when `rest` has no `/`. */
  lemma StemGlobMatches(stem: string, rest: string)
    requires '/' !in rest
    ensures EndsWith(stem + "*", "*")
    ensures GlobMatches(stem + "*", stem + rest)
  {
    var g := stem + "*";
    assert g[|g| - 1..] == "*";
    assert g[..|g| - 1] == stem;
    var p := stem + rest;
    assert p[..|stem|] == stem;
    assert p[|stem|..] == rest;
  }

  /** The glob is its stem `./deployments/<name>.` and a star. */
  lemma RemovalGlobStem(name: string)
    ensures RemovalGlob(name) == (DeploymentsDir + name + ".") + "*"
  {
  }

  lemma SuffixHasNoSlash(kind: DeploymentFile)
    ensures '/' !in Suffix(kind)
    ensures Suffix(kind)[0] == '.'
  {
  }

  /** `rm -f ./deployments/<name>.*` removes every file the deployment
      writes. */
  lemma RemovalGlobCovers(name: string, kind: DeploymentFile)
    ensures EndsWith(RemovalGlob(name), "*")
    ensures GlobMatches(RemovalGlob(name), DeploymentPath(name, kind))
  {
    var stem := DeploymentsDir + name + ".";
    RemovalGlobStem(name);
    SuffixHasNoSlash(kind);
    var rest := Suffix(kind)[1..];
    assert Suffix(kind) == "." + rest;
    assert DeploymentPath(name, kind) == stem + rest;
    StemGlobMatches(stem, rest);
  }

  /** The same glob also catches the files of a deployment whose name
      extends `name` with a dot, such as `prod.eu` for `prod`. */
  lemma RemovalGlobReachesDottedNames(name: string, more: string, kind: DeploymentFile)
    requires '/' !in more
    ensures EndsWith(RemovalGlob(name), "*")
    ensures GlobMatches(RemovalGlob(name), DeploymentPath(name + "." + more, kind))
  {
    var stem := DeploymentsDir + name + ".";
    RemovalGlobStem(name);
    SuffixHasNoSlash(kind);
    var rest := more + Suffix(kind);
    assert DeploymentPath(name + "." + more, kind) == stem + rest;
    StemGlobMatches(stem, rest);
  }

  // ---------------------------------------------------------------------
  // The netrc line

  /** What `write_netrc_file` prints: `machine <ip> login elastic password
      <password>` and a newline. */
  function NetrcLine(machine: string, password: string): string {
    "machine " + machine + " login elastic password " + password + "\n"
  }

  /** A netrc reader splitting the line (without its newline) at spaces gets
      back the six tokens, as long as the address and the password hold no
      space. */
  lemma NetrcLineTokens(machine: string, password: string)
    requires ' ' !in machine && ' ' !in password
    ensures var line := NetrcLine(machine, password);
      && EndsWith(line, "\n")
      && Split(line[..|line| - 1], " ") == ["machine", machine, "login", "elastic", "password", password]
  {
    var line := NetrcLine(machine, password);
    var parts := ["machine", machine, "login", "elastic", "password", password];
    NetrcJoin(machine, password);
    assert line == Join(parts, " ") + "\n";
    assert line[..|line| - 1] == Join(parts, " ");
    SplitJoin(parts, ' ');
  }

  lemma NetrcJoin(machine: string, password: string)
    ensures "machine " + machine + " login elastic password " + password
         == Join(["machine", machine, "login", "elastic", "password", password], " ")
  {
    var tail := ["login", "elastic", "password", password];
    var t := "login elastic password " + password;
    NetrcTail(password);
    JoinCons(machine, tail, " ");
    JoinCons("machine", [machine] + tail, " ");
    assert ["machine"] + ([machine] + tail) == ["machine", machine, "login", "elastic", "password", password];
    assert "machine " == "machine" + " ";
    LeadingSpace(" login elastic password ");
    assert " login elastic password "[1..] == "login elastic password ";
    Reassociate("machine", machine, "login elastic password ", password);
  }

  lemma LeadingSpace(w: string)
    requires |w| >= 1 && w[0] == ' '
    ensures w == " " + w[1..]
  {
  }

  lemma Reassociate(a: string, m: string, b: string, p: string)
    ensures (a + " ") + m + (" " + b) + p == a + " " + (m + " " + (b + p))
  {
  }

  /** The fixed words after the address. */
  lemma NetrcTail(password: string)
    ensures Join(["login", "elastic", "password", password], " ") == "login elastic password " + password
  {
    var parts := ["login", "elastic", "password", password];
    JoinCons("login", parts[1..], " ");
    JoinCons("elastic", parts[2..], " ");
    JoinCons("password", parts[3..], " ");
    assert Join(parts[3..], " ") == password;
  }
}
