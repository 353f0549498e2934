/** The decisions of the deployment command `es-config.py`: the memory and
    machine type of a node pool, the two pool configurations of
    `k8-create`, and the validation and dispatch of the command line.
    Number parsing (`float()`), reading the configuration file and parsing
    its JSON are parameters; the gcloud and kubectl calls the handlers make
    are left out, so the model stops at the handler that runs. */
module EsConfig {
  import opened Wrappers
  import opened Text
  import opened GenUtil

  datatype EsError =
    | InvalidRam(ram: string)           // `_vm_memory`: err_exit(1, ...)
    | RamNotANumber(text: string)       // float() raises ValueError
    | Usage                             // `_usage`: err_exit(1, ...)
    | BadConfig(error: ConfigError)     // `load_config` exits

  // ---------------------------------------------------------------------
  // Memory and machine type

  /** `_vm_memory`: `<x>GB` is `int(x * 1024)` megabytes; any other ending,
      lower-case `gb` included, exits. */
  function VmMemory(ram: string, parseFloat: string -> Option<real>): (r: Result<int, EsError>)
    ensures r == Failure(InvalidRam(ram)) <==> !EndsWith(ram, "GB")
    ensures EndsWith(ram, "GB") && parseFloat(ram[..|ram| - 2]).None? ==>
      r == Failure(RamNotANumber(ram[..|ram| - 2]))
    ensures EndsWith(ram, "GB") && parseFloat(ram[..|ram| - 2]).Some? ==>
      var x := parseFloat(ram[..|ram| - 2]).value * 1024.0;
      && r.Success?
      && (x >= 0.0 ==> r.value as real <= x < r.value as real + 1.0)
      && (x < 0.0 ==> r.value as real - 1.0 < x <= r.value as real)
  {
    if EndsWith(ram, "GB") then
      match parseFloat(ram[..|ram| - 2])
      case Some(x) => Success(Trunc(x * 1024.0))
      case None => Failure(RamNotANumber(ram[..|ram| - 2]))
    else Failure(InvalidRam(ram))
  }

  /** A whole number of quarter gigabytes gives a whole number of 256 MB
      units, the granularity custom machine types require. */
  lemma VmMemoryQuarters(ram: string, parseFloat: string -> Option<real>, k: nat)
    requires EndsWith(ram, "GB") && parseFloat(ram[..|ram| - 2]) == Some(k as real / 4.0)
    ensures VmMemory(ram, parseFloat) == Success(256 * k)
  {
    var x := k as real / 4.0;
    QuarterGigabytes(k, x);
    assert VmMemory(ram, parseFloat) == Success(Trunc(x * 1024.0));
    WholeTrunc(256 * k);
  }

  lemma QuarterGigabytes(k: nat, x: real)
    requires x == k as real / 4.0
    ensures x * 1024.0 == (256 * k) as real
  {
  }

  lemma WholeTrunc(n: int)
    ensures Trunc(n as real) == n
  {
  }

  const DefaultCpu := 2

  /** The machine-type name for `cpu` virtual CPUs and `mem` megabytes. */
  function MachineTypeName(cpu: int, mem: int): string {
    "e2-custom-" + IntToString(cpu) + "-" + IntToString(mem)
  }

  /** `_machine_type` with the `vm_ram` default `defaultRam`: `vm_cpu`
      defaults to 2 and the memory is `_vm_memory` of the RAM setting. */
  function MachineTypeWith(node: NodeConfig, defaultRam: string, parseFloat: string -> Option<real>):
    (r: Result<string, EsError>)
    ensures var ram := if node.vmRam.Some? then node.vmRam.value else defaultRam;
      && (r.Failure? <==> VmMemory(ram, parseFloat).Failure?)
      && (r.Failure? ==> r.error == VmMemory(ram, parseFloat).error)
      && (r.Success? ==> exists cpu :: r.value == MachineTypeName(cpu, VmMemory(ram, parseFloat).value)
                                    && cpu == if node.vmCpu.Some? then node.vmCpu.value else DefaultCpu)
  {
    var cpu := if node.vmCpu.Some? then node.vmCpu.value else DefaultCpu;
    match VmMemory(if node.vmRam.Some? then node.vmRam.value else defaultRam, parseFloat)
    case Failure(e) => Failure(e)
    case Success(mem) => Success(MachineTypeName(cpu, mem))
  }

  /** `_machine_type` as written: the `vm_ram` default is `'6gb'`. */
  function MachineType(node: NodeConfig, parseFloat: string -> Option<real>): Result<string, EsError> {
    MachineTypeWith(node, "6gb", parseFloat)
  }

  /** As written, a node without `vm_ram` never gets a machine type: the
      default `'6gb'` fails the case-sensitive `GB` test, whatever the other
      settings are. */
  lemma DefaultRamRejected(node: NodeConfig, parseFloat: string -> Option<real>)
    requires node.vmRam.None?
    ensures MachineType(node, parseFloat) == Failure(InvalidRam("6gb"))
  {
    assert "6gb"[1..] != "GB";
  }

  /** `_machine_type` with the evidently intended default of 6 GB. */
  function MachineTypeIntended(node: NodeConfig, parseFloat: string -> Option<real>): Result<string, EsError> {
    MachineTypeWith(node, "6GB", parseFloat)
  }

  /** With the intended default, a node without settings gets 2 CPUs and
      6144 MB. */
  lemma DefaultMachineType(node: NodeConfig, parseFloat: string -> Option<real>)
    requires node.vmCpu.None? && node.vmRam.None? && parseFloat("6") == Some(6.0)
    ensures MachineTypeIntended(node, parseFloat) == Success("e2-custom-" + "2" + "-" + "6144")
  {
    assert "6GB"[1..] == "GB" && "6GB"[..1] == "6";
    assert VmMemory("6GB", parseFloat) == Success(6144);
    assert IntToString(2) == "2";
    NatToString6144();
  }

  lemma NatToString6144()
    ensures IntToString(6144) == "6144"
  {
    assert NatToString(6) == "6";
    assert NatToString(61) == "6" + "1";
    assert NatToString(614) == "6" + "1" + "4";
    assert NatToString(6144) == "6" + "1" + "4" + "4";
  }

  /** A machine-type name splits at `-` into `e2`, `custom` and the two
      numbers, which read back as the CPU count and the memory. */
  lemma MachineTypeNameRoundTrip(cpu: nat, mem: nat)
    ensures Split(MachineTypeName(cpu, mem), "-") == ["e2", "custom", NatToString(cpu), NatToString(mem)]
    ensures ParseNat(NatToString(cpu)) == cpu && ParseNat(NatToString(mem)) == mem
  {
    var a, b := NatToString(cpu), NatToString(mem);
    NoDash(cpu);
    NoDash(mem);
    assert MachineTypeName(cpu, mem) == "e2-custom-" + a + "-" + b;
    SplitMachineTypeName(a, b);
    ParseNatToString(cpu);
    ParseNatToString(mem);
  }

  lemma SplitMachineTypeName(a: string, b: string)
    requires '-' !in a && '-' !in b
    ensures Split("e2-custom-" + a + "-" + b, "-") == ["e2", "custom", a, b]
  {
    var t := a + "-" + b;
    assert "e2-custom-" + a + "-" + b == "e2" + ['-'] + ("custom" + ['-'] + t);
    SplitAtFirst("e2", '-', "custom" + ['-'] + t);
    SplitAtFirst("custom", '-', t);
    SplitAtFirst(a, '-', b);
    SplitWithoutSep(b, '-');
  }

  lemma NoDash(n: nat)
    ensures '-' !in NatToString(n)
  {
    var s := NatToString(n);
    assert forall k :: 0 <= k < |s| ==> s[k] != '-';
  }

  // ---------------------------------------------------------------------
  // The node pools of `k8-create`

  datatype PoolConfig = PoolConfig(name: string, count: int, machineType: string, nodeType: string)

  /** The master and the data pool of a deployment, with `defaultRam` for a
      node without `vm_ram`; the master's machine type is computed first,
      so its error is the one reported. */
  function NodePoolsWith(config: DeploymentConfig, defaultRam: string, parseFloat: string -> Option<real>):
    (r: Result<(PoolConfig, PoolConfig), EsError>)
    ensures r.Failure? <==>
      MachineTypeWith(config.master, defaultRam, parseFloat).Failure?
      || MachineTypeWith(config.data, defaultRam, parseFloat).Failure?
    ensures MachineTypeWith(config.master, defaultRam, parseFloat).Failure? ==>
      r == Failure(MachineTypeWith(config.master, defaultRam, parseFloat).error)
    ensures r.Success? ==>
      && r.value.0 == PoolConfig("master-pool", config.master.count,
                                 MachineTypeWith(config.master, defaultRam, parseFloat).value, "es-master")
      && r.value.1 == PoolConfig("data-pool", config.data.count,
                                 MachineTypeWith(config.data, defaultRam, parseFloat).value, "es-data")
  {
    match MachineTypeWith(config.master, defaultRam, parseFloat)
    case Failure(e) => Failure(e)
    case Success(masterType) =>
      match MachineTypeWith(config.data, defaultRam, parseFloat)
      case Failure(e) => Failure(e)
      case Success(dataType) =>
        Success((PoolConfig("master-pool", config.master.count, masterType, "es-master"),
                 PoolConfig("data-pool", config.data.count, dataType, "es-data")))
  }

  /** The pools of `k8-create` as written: the `'6gb'` default makes every
      node without `vm_ram` fail, the master being reported first. */
  function NodePools(config: DeploymentConfig, parseFloat: string -> Option<real>):
    (r: Result<(PoolConfig, PoolConfig), EsError>)
    ensures config.master.vmRam.None? ==> r == Failure(InvalidRam("6gb"))
    ensures MachineType(config.master, parseFloat).Success? && config.data.vmRam.None? ==>
      r == Failure(InvalidRam("6gb"))
    ensures r.Success? ==> config.master.vmRam.Some? && config.data.vmRam.Some?
  {
    if config.master.vmRam.None? then
      DefaultRamRejected(config.master, parseFloat);
      NodePoolsWith(config, "6gb", parseFloat)
    else if config.data.vmRam.None? then
      DefaultRamRejected(config.data, parseFloat);
      NodePoolsWith(config, "6gb", parseFloat)
    else
      NodePoolsWith(config, "6gb", parseFloat)
  }

  /** A node configuration that sets neither `vm_cpu` nor `vm_ram`. */
  predicate OnlyCount(node: NodeConfig) {
    node.vmCpu.None? && node.vmRam.None?
  }

  /** The pools with the intended `'6GB'` default: a deployment whose nodes
      set only their counts gets two `e2-custom-2-6144` pools. */
  function NodePoolsIntended(config: DeploymentConfig, parseFloat: string -> Option<real>):
    (r: Result<(PoolConfig, PoolConfig), EsError>)
    ensures OnlyCount(config.master) && OnlyCount(config.data) && parseFloat("6") == Some(6.0) ==>
      r == Success((PoolConfig("master-pool", config.master.count, "e2-custom-2-6144", "es-master"),
                    PoolConfig("data-pool", config.data.count, "e2-custom-2-6144", "es-data")))
  {
    if OnlyCount(config.master) && OnlyCount(config.data) && parseFloat("6") == Some(6.0) then
      DefaultMachineType(config.master, parseFloat);
      DefaultMachineType(config.data, parseFloat);
      assert "e2-custom-" + "2" + "-" + "6144" == "e2-custom-2-6144";
      NodePoolsWith(config, "6GB", parseFloat)
    else
      NodePoolsWith(config, "6GB", parseFloat)
  }

  /** The two pools never share a name or a node type, and a pool's machine
      type depends only on its own node settings. */
  lemma NodePoolsDistinct(config: DeploymentConfig, defaultRam: string, parseFloat: string -> Option<real>)
    requires NodePoolsWith(config, defaultRam, parseFloat).Success?
    ensures NodePoolsWith(config, defaultRam, parseFloat).value.0.name
         != NodePoolsWith(config, defaultRam, parseFloat).value.1.name
    ensures NodePoolsWith(config, defaultRam, parseFloat).value.0.nodeType
         != NodePoolsWith(config, defaultRam, parseFloat).value.1.nodeType
    ensures config.master == config.data ==>
      NodePoolsWith(config, defaultRam, parseFloat).value.0.machineType
      == NodePoolsWith(config, defaultRam, parseFloat).value.1.machineType
  {
    assert "master-pool"[0] != "data-pool"[0];
    assert "es-master"[3] != "es-data"[3];
  }

  // ---------------------------------------------------------------------
  // The command line

  datatype Command = K8Create | K8Delete | EsDeploy | EsDelete

  function CommandName(c: Command): string {
    match c
    case K8Create => "k8-create"
    case K8Delete => "k8-delete"
    case EsDeploy => "es-deploy"
    case EsDelete => "es-delete"
  }

  /** The command a word names, if it is one of the four. */
  function ParseCommand(word: string): (r: Option<Command>)
    ensures r.Some? ==> CommandName(r.value) == word
    ensures r.None? <==> word !in {"k8-create", "k8-delete", "es-deploy", "es-delete"}
  {
    if word == "k8-create" then Some(K8Create)
    else if word == "k8-delete" then Some(K8Delete)
    else if word == "es-deploy" then Some(EsDeploy)
    else if word == "es-delete" then Some(EsDelete)
    else None
  }

  lemma CommandNameRoundTrip(c: Command)
    ensures ParseCommand(CommandName(c)) == Some(c)
  {
    match c
    case K8Create =>
    case K8Delete => assert "k8-delete"[3] != "k8-create"[3];
    case EsDeploy => assert "es-deploy"[0] != "k8-create"[0] && "es-deploy"[0] != "k8-delete"[0];
    case EsDelete =>
      assert "es-delete"[0] != "k8-create"[0] && "es-delete"[0] != "k8-delete"[0];
      assert "es-delete"[5] != "es-deploy"[5];
  }

  /** `main`'s checks: three words, the second one of the four commands;
      the third is the deployment name. */
  function ValidateArgs(argv: seq<string>): (r: Result<(Command, string), EsError>)
    ensures r.Failure? ==> r.error == Usage
    ensures r.Success? <==> |argv| == 3 && ParseCommand(argv[1]).Some?
    ensures r.Success? ==> CommandName(r.value.0) == argv[1] && r.value.1 == argv[2]
  {
    if |argv| != 3 then Failure(Usage)
    else match ParseCommand(argv[1])
      case None => Failure(Usage)
      case Some(c) => Success((c, argv[2]))
  }

  /** The handlers `main` runs for a command, in order: one `if` per
      command. */
  function HandlersRun(c: Command): seq<Command> {
    (if c == K8Create then [K8Create] else [])
    + (if c == K8Delete then [K8Delete] else [])
    + (if c == EsDeploy then [EsDeploy] else [])
    + (if c == EsDelete then [EsDelete] else [])
  }

  /** Exactly the handler of the command runs. */
  lemma ExactlyOneHandler(c: Command)
    ensures HandlersRun(c) == [c]
  {
  }

  /** `main` up to the handler: the validated command and the configuration
      of the named deployment, which the handler receives. */
  function Main(argv: seq<string>, fileLines: seq<string>,
                parseJson: string -> Option<seq<DeploymentConfig>>): (r: Result<(Command, DeploymentConfig), EsError>)
    ensures ValidateArgs(argv).Failure? ==> r == Failure(Usage)
    ensures r.Success? ==>
      && ValidateArgs(argv) == Success((r.value.0, argv[2]))
      && Config(fileLines, parseJson, argv[2]) == Success(r.value.1)
      && r.value.1.name == Some(argv[2])
    ensures ValidateArgs(argv).Success? && Config(fileLines, parseJson, argv[2]).Failure? ==>
      r == Failure(BadConfig(Config(fileLines, parseJson, argv[2]).error))
  {
    match ValidateArgs(argv)
    case Failure(e) => Failure(e)
    case Success(args) =>
      match Config(fileLines, parseJson, args.1)
      case Failure(e) => Failure(BadConfig(e))
      case Success(config) =>
        Success((args.0, config))
  }
}
