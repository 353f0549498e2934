/** The resource accounting behind the deployment status report: Kubernetes
    quantity strings turned into millicores and bytes, the unit a quantity is
    shown in, the requests summed over pods, the disks and pods that belong
    to a node pool, and the classification of a failed gcloud command.
    Number parsing (`float()`) is a parameter; printing is left out, so the
    display functions return the number and the unit that would be printed. */
module StatusUtil {
  import opened Wrappers
  import opened Text

  datatype ConversionError =
    | NotANumber(text: string)   // float() raises ValueError
    | UnknownUnit(mem: string)   // the memory suffix assertion fails

  // ---------------------------------------------------------------------
  // Quantities

  /** `_cpu_str_to_millis`: `<x>m` is `x` millicores; any other text is a
      number of cores, times 1000 and truncated to an integer. */
  function CpuStrToMillis(cpu: string, parseFloat: string -> Option<real>): (r: Result<real, ConversionError>)
    ensures EndsWith(cpu, "m") ==>
      match parseFloat(cpu[..|cpu| - 1])
      case Some(x) => r == Success(x)
      case None => r == Failure(NotANumber(cpu[..|cpu| - 1]))
    ensures !EndsWith(cpu, "m") ==>
      match parseFloat(cpu)
      case Some(x) =>
        && r.Success? && r.value == r.value.Floor as real
        && (x >= 0.0 ==> r.value <= x * 1000.0 < r.value + 1.0)
        && (x < 0.0 ==> r.value - 1.0 < x * 1000.0 <= r.value)
      case None => r == Failure(NotANumber(cpu))
  {
    if EndsWith(cpu, "m") then
      match parseFloat(cpu[..|cpu| - 1])
      case Some(x) => Success(x)
      case None => Failure(NotANumber(cpu[..|cpu| - 1]))
    else
      match parseFloat(cpu)
      case Some(x) => Success(Trunc(x * 1000.0) as real)
      case None => Failure(NotANumber(cpu))
  }

  /** 1024 to the power `e`. */
  function Pow1024(e: nat): (p: real)
    ensures p >= 1.0
    ensures e > 0 ==> p >= 1024.0
  {
    if e == 0 then 1.0 else 1024.0 * Pow1024(e - 1)
  }

  /** The memory suffixes, `MemUnits[e]` standing for 1024 to the `e`. */
  const MemUnits: seq<string> := ["", "Ki", "Mi", "Gi", "Ti"]

  /** `_mem_str_to_bytes`: a `Ki`, `Mi`, `Gi` or `Ti` suffix multiplies the
      number before it by 1024, 1024², 1024³ or 1024⁴; any other ending fails
      the assertion. */
  function MemStrToBytes(mem: string, parseFloat: string -> Option<real>): (r: Result<real, ConversionError>)
    ensures r == Failure(UnknownUnit(mem)) <==>
      !EndsWith(mem, "Ki") && !EndsWith(mem, "Mi") && !EndsWith(mem, "Gi") && !EndsWith(mem, "Ti")
    ensures EndsWith(mem, "Ki") ==> r == Scaled(mem, Pow1024(1), parseFloat)
    ensures EndsWith(mem, "Mi") ==> r == Scaled(mem, Pow1024(2), parseFloat)
    ensures EndsWith(mem, "Gi") ==> r == Scaled(mem, Pow1024(3), parseFloat)
    ensures EndsWith(mem, "Ti") ==> r == Scaled(mem, Pow1024(4), parseFloat)
  {
    assert Pow1024(1) == 1024.0 && Pow1024(2) == 1024.0 * 1024.0;
    assert Pow1024(3) == 1024.0 * 1024.0 * 1024.0 && Pow1024(4) == 1024.0 * 1024.0 * 1024.0 * 1024.0;
    if EndsWith(mem, "Ki") then Scaled(mem, 1024.0, parseFloat)
    else if EndsWith(mem, "Mi") then Scaled(mem, 1024.0 * 1024.0, parseFloat)
    else if EndsWith(mem, "Gi") then Scaled(mem, 1024.0 * 1024.0 * 1024.0, parseFloat)
    else if EndsWith(mem, "Ti") then Scaled(mem, 1024.0 * 1024.0 * 1024.0 * 1024.0, parseFloat)
    else Failure(UnknownUnit(mem))
  }

  /** The number before a two-letter suffix, times `factor`; a ValueError
      when it is not a number. */
  function Scaled(mem: string, factor: real, parseFloat: string -> Option<real>): (r: Result<real, ConversionError>)
    requires |mem| >= 2
    ensures r.Success? <==> parseFloat(mem[..|mem| - 2]).Some?
    ensures r.Success? ==> r.value == parseFloat(mem[..|mem| - 2]).value * factor
    ensures r.Failure? ==> r.error == NotANumber(mem[..|mem| - 2])
  {
    match parseFloat(mem[..|mem| - 2])
    case Some(x) => Success(x * factor)
    case None => Failure(NotANumber(mem[..|mem| - 2]))
  }

  /** What `_printable_mem` prints: `value` followed by `MemUnits[tier]`. */
  datatype MemText = MemText(value: real, tier: nat)

  /** `_printable_mem`: the largest unit of which the quantity is at least
      one, bare bytes below 1024 and `Ti` from 1024⁴ up. */
  function PrintableMem(bytes: real): (r: MemText)
    ensures r.tier <= 4
    ensures r.value * Pow1024(r.tier) == bytes
    ensures r.tier >= 1 ==> bytes >= Pow1024(r.tier)
    ensures r.tier < 4 ==> bytes < Pow1024(r.tier + 1)
  {
    assert Pow1024(1) == 1024.0 && Pow1024(2) == 1024.0 * 1024.0;
    assert Pow1024(3) == 1024.0 * 1024.0 * 1024.0 && Pow1024(4) == 1024.0 * 1024.0 * 1024.0 * 1024.0;
    if bytes / 1024.0 < 1.0 then MemText(bytes, 0)
    else if bytes / (1024.0 * 1024.0) < 1.0 then MemText(bytes / 1024.0, 1)
    else if bytes / (1024.0 * 1024.0 * 1024.0) < 1.0 then MemText(bytes / (1024.0 * 1024.0), 2)
    else if bytes / (1024.0 * 1024.0 * 1024.0 * 1024.0) < 1.0 then MemText(bytes / (1024.0 * 1024.0 * 1024.0), 3)
    else MemText(bytes / (1024.0 * 1024.0 * 1024.0 * 1024.0), 4)
  }

  lemma Pow1024Monotone(a: nat, b: nat)
    requires a <= b
    ensures Pow1024(a) <= Pow1024(b)
    decreases b
  {
    if a < b {
      Pow1024Monotone(a, b - 1);
    }
  }

  /** The tiers are disjoint and cover every quantity: a tier is the one
      chosen exactly when the quantity lies in that tier's range. */
  lemma PrintableMemTier(bytes: real, t: nat)
    requires t <= 4
    ensures PrintableMem(bytes).tier == t <==>
      (t >= 1 ==> bytes >= Pow1024(t)) && (t < 4 ==> bytes < Pow1024(t + 1))
  {
    var r := PrintableMem(bytes);
    if r.tier < t {
      Pow1024Monotone(r.tier + 1, t);
    } else if r.tier > t {
      Pow1024Monotone(t + 1, r.tier);
    }
  }

  /** The suffix `MemUnits[e]` scales by 1024 to the `e`. */
  lemma MemSuffixScales(mem: string, e: nat, parseFloat: string -> Option<real>)
    requires 1 <= e <= 4 && EndsWith(mem, MemUnits[e])
    ensures |mem| >= 2 && MemStrToBytes(mem, parseFloat) == Scaled(mem, Pow1024(e), parseFloat)
  {
    if e == 1 {
      assert EndsWith(mem, "Ki");
    } else if e == 2 {
      assert EndsWith(mem, "Mi");
    } else if e == 3 {
      assert EndsWith(mem, "Gi");
    } else {
      assert EndsWith(mem, "Ti");
    }
  }

  /** A memory quantity `<x><unit>` with `1 <= x < 1024` is shown as `x` in
      the same unit. */
  lemma MemRoundTrip(mem: string, e: nat, parseFloat: string -> Option<real>)
    requires 1 <= e <= 4 && EndsWith(mem, MemUnits[e])
    requires parseFloat(mem[..|mem| - 2]).Some?
    requires 1.0 <= parseFloat(mem[..|mem| - 2]).value < 1024.0
    ensures MemStrToBytes(mem, parseFloat).Success?
    ensures PrintableMem(MemStrToBytes(mem, parseFloat).value)
         == MemText(parseFloat(mem[..|mem| - 2]).value, e)
  {
    MemSuffixScales(mem, e, parseFloat);
    var x := parseFloat(mem[..|mem| - 2]).value;
    var f := Pow1024(e);
    MemBytes(mem, e, parseFloat, x, f);
    PrintableMemOfScaled(x, e, f);
  }

  lemma MemBytes(mem: string, e: nat, parseFloat: string -> Option<real>, x: real, f: real)
    requires 1 <= e <= 4 && EndsWith(mem, MemUnits[e]) && f == Pow1024(e)
    requires |mem| >= 2 && parseFloat(mem[..|mem| - 2]) == Some(x)
    ensures MemStrToBytes(mem, parseFloat) == Success(x * f)
  {
    MemSuffixScales(mem, e, parseFloat);
    var scaled := Scaled(mem, f, parseFloat);
    assert MemStrToBytes(mem, parseFloat) == scaled;
    assert scaled.Success? && scaled.value == x * f;
  }

  /** `x` units of tier `e`, with `1 <= x < 1024`, are shown as `x` in that tier. */
  lemma PrintableMemOfScaled(x: real, e: nat, f: real)
    requires e <= 4 && 1.0 <= x < 1024.0 && f == Pow1024(e)
    ensures PrintableMem(x * f) == MemText(x, e)
  {
    var bytes := x * f;
    ScaledWithinTier(x, f);
    assert Pow1024(e + 1) == 1024.0 * f;
    PrintableMemTier(bytes, e);
    CancelFactor(PrintableMem(bytes).value, x, f);
  }

  /** A number in `[1, 1024)` times a positive unit lies in `[unit, 1024 unit)`. */
  lemma ScaledWithinTier(x: real, f: real)
    requires f >= 1.0 && 1.0 <= x < 1024.0
    ensures f <= x * f < 1024.0 * f
  {
  }

  lemma CancelFactor(a: real, b: real, f: real)
    requires f > 0.0 && a * f == b * f
    ensures a == b
  {
  }

  /** What `_printable_cpu` prints: a whole number of millicores (`mCPU`) or
      a number of cores. */
  datatype CpuText = Millicores(count: int) | Cores(cores: real)

  /** `_printable_cpu`: below 1000 the truncated millicores, otherwise the
      quantity in cores. */
  function PrintableCpu(millis: real): (r: CpuText)
    ensures r.Millicores? <==> millis < 1000.0
    ensures r.Millicores? && millis >= 0.0 ==> r.count as real <= millis < r.count as real + 1.0
    ensures r.Millicores? && millis < 0.0 ==> r.count as real - 1.0 < millis <= r.count as real
    ensures r.Cores? ==> r.cores * 1000.0 == millis && r.cores >= 1.0
  {
    if millis < 1000.0 then Millicores(Trunc(millis)) else Cores(millis / 1000.0)
  }

  /** A whole number of millicores below 1000, written `<n>m`, is shown as
      that number. */
  lemma CpuRoundTrip(cpu: string, parseFloat: string -> Option<real>, n: nat)
    requires EndsWith(cpu, "m") && parseFloat(cpu[..|cpu| - 1]) == Some(n as real) && n < 1000
    ensures CpuStrToMillis(cpu, parseFloat) == Success(n as real)
    ensures PrintableCpu(n as real) == Millicores(n)
  {
  }

  // ---------------------------------------------------------------------
  // Requests summed over pods

  /** A container's `resources.requests`; a missing key is `None`. */
  datatype Container = Container(cpu: Option<string>, memory: Option<string>)

  /** A pod's `spec.nodeName` and `spec.containers`. */
  datatype Pod = Pod(nodeName: Option<string>, containers: seq<Container>)

  datatype Resource = Cpu | Memory

  function Request(c: Container, res: Resource): Option<string> {
    match res
    case Cpu => c.cpu
    case Memory => c.memory
  }

  /** What one container adds to the sum: nothing when its request is
      missing or empty, otherwise the converted request. */
  function ContainerAmount(c: Container, res: Resource, convert: string -> Result<real, ConversionError>): Result<real, ConversionError> {
    match Request(c, res)
    case None => Success(0.0)
    case Some(q) =>
      if q == "" then Success(0.0) else convert(q)
  }

  /** The conversion the sum of `res` applies to each request. */
  function Converter(res: Resource, parseFloat: string -> Option<real>): string -> Result<real, ConversionError> {
    match res
    case Cpu => (q: string) => CpuStrToMillis(q, parseFloat)
    case Memory => (q: string) => MemStrToBytes(q, parseFloat)
  }

  /** Adding two partial sums; the earlier failure wins. */
  function Plus(a: Result<real, ConversionError>, b: Result<real, ConversionError>): (r: Result<real, ConversionError>)
    ensures r.Success? <==> a.Success? && b.Success?
    ensures r.Success? ==> r.value == a.value + b.value
    ensures a.Failure? ==> r == a
    ensures a.Success? && b.Failure? ==> r == b
  {
    match a
    case Failure(e) => Failure(e)
    case Success(x) =>
      match b
      case Failure(e) => Failure(e)
      case Success(y) => Success(x + y)
  }

  function ContainersRequested(cs: seq<Container>, res: Resource, convert: string -> Result<real, ConversionError>): Result<real, ConversionError>
    decreases |cs|
  {
    if |cs| == 0 then Success(0.0)
    else Plus(ContainerAmount(cs[0], res, convert), ContainersRequested(cs[1..], res, convert))
  }

  /** The requested amount of `res` over `pods`: the sum of every
      container's amount, or the first conversion error. */
  function PodsRequested(pods: seq<Pod>, res: Resource, convert: string -> Result<real, ConversionError>): Result<real, ConversionError>
    decreases |pods|
  {
    if |pods| == 0 then Success(0.0)
    else Plus(ContainersRequested(pods[0].containers, res, convert), PodsRequested(pods[1..], res, convert))
  }

  /** One container: a failure is the total, a success moves into the sum. */
  lemma SumContainerStep(sum: real, cs: seq<Container>, j: nat, res: Resource,
                         convert: string -> Result<real, ConversionError>,
                         amount: Result<real, ConversionError>, goal: Result<real, ConversionError>)
    requires j < |cs| && amount == ContainerAmount(cs[j], res, convert)
    requires Plus(Success(sum), ContainersRequested(cs[j..], res, convert)) == goal
    ensures amount.Failure? ==> goal == Failure(amount.error)
    ensures amount.Success? ==> Plus(Success(sum + amount.value), ContainersRequested(cs[j + 1..], res, convert)) == goal
  {
    assert cs[j..][1..] == cs[j + 1..];
  }

  /** One pod: its containers' sum, started from the running sum, is either
      the error that is the total or the running sum for the next pod. */
  lemma SumPodStep(sum: real, pods: seq<Pod>, i: nat, res: Resource,
                   convert: string -> Result<real, ConversionError>,
                   inner: Result<real, ConversionError>, total: Result<real, ConversionError>)
    requires i < |pods|
    requires inner == Plus(Success(sum), ContainersRequested(pods[i].containers, res, convert))
    requires Plus(Success(sum), PodsRequested(pods[i..], res, convert)) == total
    ensures inner.Failure? ==> total == inner
    ensures inner.Success? ==> Plus(Success(inner.value), PodsRequested(pods[i + 1..], res, convert)) == total
  {
    assert pods[i..][1..] == pods[i + 1..];
    assert PodsRequested(pods[i..], res, convert)
        == Plus(ContainersRequested(pods[i].containers, res, convert), PodsRequested(pods[i + 1..], res, convert));
  }

  /** The inner loop of `_sum_cpu_requested` and `_sum_mem_requested`: the
      running sum `sum0` plus every container's amount, or the first
      conversion error. */
  method SumContainers(cs: seq<Container>, res: Resource, convert: string -> Result<real, ConversionError>, sum0: real)
    returns (r: Result<real, ConversionError>)
    ensures r == Plus(Success(sum0), ContainersRequested(cs, res, convert))
  {
    ghost var goal := Plus(Success(sum0), ContainersRequested(cs, res, convert));
    var sum := sum0;
    for j := 0 to |cs|
      invariant Plus(Success(sum), ContainersRequested(cs[j..], res, convert)) == goal
    {
      var amount := ContainerAmount(cs[j], res, convert);
      SumContainerStep(sum, cs, j, res, convert, amount, goal);
      if amount.Failure? {
        return Failure(amount.error);
      }
      sum := sum + amount.value;
    }
    assert cs[|cs|..] == [];
    r := Success(sum);
  }

  /** `_sum_cpu_requested` and `_sum_mem_requested`, which differ only in
      the request key `res` and the conversion, `Converter(res, parseFloat)`:
      the accumulator loop over pods, each pod's containers summed by
      `SumContainers`. */
  method SumRequested(pods: seq<Pod>, res: Resource, convert: string -> Result<real, ConversionError>)
    returns (r: Result<real, ConversionError>)
    ensures r == PodsRequested(pods, res, convert)
  {
    ghost var total := PodsRequested(pods, res, convert);
    var sum := 0.0;
    for i := 0 to |pods|
      invariant Plus(Success(sum), PodsRequested(pods[i..], res, convert)) == total
    {
      var inner := SumContainers(pods[i].containers, res, convert, sum);
      SumPodStep(sum, pods, i, res, convert, inner, total);
      if inner.Failure? {
        return inner;
      }
      sum := inner.value;
    }
    assert pods[|pods|..] == [];
    r := Success(sum);
  }

  /** The sum over two lists of pods is the sum over the first plus the sum
      over the second. */
  lemma {:induction false} PodsRequestedAppend(p1: seq<Pod>, p2: seq<Pod>, res: Resource, convert: string -> Result<real, ConversionError>)
    ensures PodsRequested(p1 + p2, res, convert)
         == Plus(PodsRequested(p1, res, convert), PodsRequested(p2, res, convert))
    decreases |p1|
  {
    if |p1| == 0 {
      assert p1 + p2 == p2;
    } else {
      assert (p1 + p2)[0] == p1[0];
      assert (p1 + p2)[1..] == p1[1..] + p2;
      PodsRequestedAppend(p1[1..], p2, res, convert);
    }
  }

  /** Containers whose request is missing or empty add nothing. */
  lemma {:induction false} NoRequestsAddNothing(cs: seq<Container>, res: Resource, convert: string -> Result<real, ConversionError>)
    requires forall j :: 0 <= j < |cs| ==> Request(cs[j], res) in {None, Some("")}
    ensures ContainersRequested(cs, res, convert) == Success(0.0)
    decreases |cs|
  {
    if |cs| > 0 {
      NoRequestsAddNothing(cs[1..], res, convert);
    }
  }

  /** A pod added to a list changes the sum by exactly its containers'
      requests; a pod without requests leaves it unchanged. */
  lemma PodWithoutRequests(pods: seq<Pod>, pod: Pod, res: Resource, convert: string -> Result<real, ConversionError>)
    requires forall j :: 0 <= j < |pod.containers| ==> Request(pod.containers[j], res) in {None, Some("")}
    ensures PodsRequested(pods + [pod], res, convert) == PodsRequested(pods, res, convert)
  {
    PodsRequestedAppend(pods, [pod], res, convert);
    NoRequestsAddNothing(pod.containers, res, convert);
    assert [pod][1..] == [];
  }

  // ---------------------------------------------------------------------
  // Filters

  /** The elements of `s` that satisfy `p`, in order. */
  function Filter<T(!new)>(s: seq<T>, p: T -> bool): (r: seq<T>)
    ensures |r| <= |s|
    ensures forall x :: x in r <==> x in s && p(x)
    ensures forall x :: multiset(r)[x] == if p(x) then multiset(s)[x] else 0
    decreases |s|
  {
    if |s| == 0 then []
    else
      assert s == [s[0]] + s[1..];
      if p(s[0]) then [s[0]] + Filter(s[1..], p)
      else Filter(s[1..], p)
  }

  /** `a` is `b` with some elements left out, order kept. */
  predicate IsSubsequence<T(==)>(a: seq<T>, b: seq<T>)
    decreases |b|
  {
    if |a| == 0 then true
    else if |b| == 0 then false
    else (a[0] == b[0] && IsSubsequence(a[1..], b[1..])) || IsSubsequence(a, b[1..])
  }

  lemma {:induction false} FilterIsSubsequence<T(!new)>(s: seq<T>, p: T -> bool)
    ensures IsSubsequence(Filter(s, p), s)
    decreases |s|
  {
    if |s| > 0 {
      FilterIsSubsequence(s[1..], p);
      if p(s[0]) {
        assert ([s[0]] + Filter(s[1..], p))[1..] == Filter(s[1..], p);
      }
    }
  }

  /** Nothing is kept when no element satisfies `p`. */
  lemma {:induction false} FilterNone<T(!new)>(s: seq<T>, p: T -> bool)
    requires forall k :: 0 <= k < |s| ==> !p(s[k])
    ensures Filter(s, p) == []
    decreases |s|
  {
    if |s| > 0 {
      FilterNone(s[1..], p);
    }
  }

  datatype Node = Node(name: string)

  /** A disk and the `users` of `disks list`. */
  datatype Disk = Disk(name: string, users: seq<string>)

  /** The VM names of a disk's users: the last path component of each. */
  function DiskVms(d: Disk): set<string> {
    set u | u in d.users :: Basename(u)
  }

  /** Some VM in `vms` uses the disk. */
  predicate UsedBy(d: Disk, vms: set<string>) {
    DiskVms(d) * vms != {}
  }

  lemma UsedByUser(d: Disk, vms: set<string>)
    ensures UsedBy(d, vms) <==> exists u :: u in d.users && Basename(u) in vms
  {
    if UsedBy(d, vms) {
      var v :| v in DiskVms(d) * vms;
      var u :| u in d.users && Basename(u) == v;
    }
    if exists u :: u in d.users && Basename(u) in vms {
      var u :| u in d.users && Basename(u) in vms;
      assert Basename(u) in DiskVms(d) * vms;
    }
  }

  /** The disks some VM in `vms` uses, in the listing's order. */
  function DisksUsedBy(disks: seq<Disk>, vms: set<string>): (r: seq<Disk>)
    ensures forall d :: d in r <==> d in disks && UsedBy(d, vms)
    ensures forall d :: multiset(r)[d] == if UsedBy(d, vms) then multiset(disks)[d] else 0
    ensures IsSubsequence(r, disks)
  {
    FilterIsSubsequence(disks, (d: Disk) => UsedBy(d, vms));
    Filter(disks, (d: Disk) => UsedBy(d, vms))
  }

  lemma UsedByOne(d: Disk, vm: string)
    ensures UsedBy(d, {vm}) <==> vm in DiskVms(d)
  {
    if vm in DiskVms(d) {
      assert vm in DiskVms(d) * {vm};
    }
  }

  lemma DisksUsedByCons(disks: seq<Disk>, i: nat, vms: set<string>)
    requires i < |disks|
    ensures DisksUsedBy(disks[i..], vms)
         == (if UsedBy(disks[i], vms) then [disks[i]] else []) + DisksUsedBy(disks[i + 1..], vms)
  {
    assert disks[i..][0] == disks[i];
    assert disks[i..][1..] == disks[i + 1..];
  }

  /** One step of the pool scan: the disk at `i` is kept exactly when some
      VM of the pool uses it. */
  lemma DisksUsedByStep(disks: seq<Disk>, i: nat, vms: set<string>, acc: seq<Disk>)
    requires i < |disks|
    requires acc + DisksUsedBy(disks[i..], vms) == DisksUsedBy(disks, vms)
    ensures (if UsedBy(disks[i], vms) then acc + [disks[i]] else acc) + DisksUsedBy(disks[i + 1..], vms)
         == DisksUsedBy(disks, vms)
  {
    var kept := if UsedBy(disks[i], vms) then [disks[i]] else [];
    DisksUsedByCons(disks, i, vms);
    AppendStep(acc, kept, DisksUsedBy(disks[i + 1..], vms), DisksUsedBy(disks, vms));
    assert (if UsedBy(disks[i], vms) then acc + [disks[i]] else acc) == acc + kept;
  }

  /** Moving the next kept part from the rest of the scan to its result. */
  lemma AppendStep<T>(acc: seq<T>, kept: seq<T>, rest: seq<T>, total: seq<T>)
    requires acc + (kept + rest) == total
    ensures (acc + kept) + rest == total
  {
    assert (acc + kept) + rest == acc + (kept + rest);
  }

  /** The disk's users include the VM `vm`. */
  predicate UsesVm(d: Disk, vm: string) {
    vm in DiskVms(d)
  }

  /** The disks a single VM uses, in the listing's order. */
  function DisksUsing(disks: seq<Disk>, vm: string): seq<Disk> {
    Filter(disks, (d: Disk) => UsesVm(d, vm))
  }

  lemma DisksUsingCons(disks: seq<Disk>, i: nat, vm: string)
    requires i < |disks|
    ensures DisksUsing(disks[i..], vm)
         == (if UsesVm(disks[i], vm) then [disks[i]] else []) + DisksUsing(disks[i + 1..], vm)
  {
    assert disks[i..][0] == disks[i];
    assert disks[i..][1..] == disks[i + 1..];
  }

  /** The disks of one VM are the disks used by the one-element set of VMs. */
  lemma {:induction false} DisksUsingIsUsedBy(disks: seq<Disk>, vm: string)
    ensures DisksUsing(disks, vm) == DisksUsedBy(disks, {vm})
    decreases |disks|
  {
    if |disks| > 0 {
      DisksUsingCons(disks, 0, vm);
      DisksUsedByCons(disks, 0, {vm});
      UsedByOne(disks[0], vm);
      DisksUsingIsUsedBy(disks[1..], vm);
    }
  }

  /** One step of the scan: the disk at `i` is kept exactly when the VM uses it. */
  lemma DisksUsingStep(disks: seq<Disk>, i: nat, vm: string, acc: seq<Disk>)
    requires i < |disks|
    requires acc + DisksUsing(disks[i..], vm) == DisksUsing(disks, vm)
    ensures (if UsesVm(disks[i], vm) then acc + [disks[i]] else acc) + DisksUsing(disks[i + 1..], vm)
         == DisksUsing(disks, vm)
  {
    var kept := if UsesVm(disks[i], vm) then [disks[i]] else [];
    DisksUsingCons(disks, i, vm);
    AppendStep(acc, kept, DisksUsing(disks[i + 1..], vm), DisksUsing(disks, vm));
    assert (if UsesVm(disks[i], vm) then acc + [disks[i]] else acc) == acc + kept;
  }

  /** `_get_disks_for_node`: the disks whose users include the node. */
  method DisksForNode(node: Node, disks: seq<Disk>) returns (nodeDisks: seq<Disk>)
    ensures nodeDisks == DisksUsing(disks, node.name)
  {
    var name := node.name;
    nodeDisks := [];
    for i := 0 to |disks|
      invariant nodeDisks + DisksUsing(disks[i..], name) == DisksUsing(disks, name)
    {
      DisksUsingStep(disks, i, name, nodeDisks);
      var diskVms := DiskVms(disks[i]);
      if name in diskVms {
        nodeDisks := nodeDisks + [disks[i]];
      }
    }
    assert disks[|disks|..] == [];
  }

  function NodeNames(nodes: seq<Node>): (names: set<string>)
    ensures forall n :: n in names <==> exists k :: 0 <= k < |nodes| && nodes[k].name == n
  {
    set k | 0 <= k < |nodes| :: nodes[k].name
  }

  /** `get_node_pool_disks`: no disks for no nodes, otherwise the disks
      some node of the pool uses. */
  method NodePoolDisks(allDisks: seq<Disk>, nodes: seq<Node>) returns (poolDisks: seq<Disk>)
    ensures poolDisks == if nodes == [] then [] else DisksUsedBy(allDisks, NodeNames(nodes))
  {
    if nodes == [] {
      return [];
    }
    var poolVms := NodeNames(nodes);
    poolDisks := [];
    for i := 0 to |allDisks|
      invariant poolDisks + DisksUsedBy(allDisks[i..], poolVms) == DisksUsedBy(allDisks, poolVms)
    {
      DisksUsedByStep(allDisks, i, poolVms, poolDisks);
      var diskVms := DiskVms(allDisks[i]);
      if diskVms * poolVms != {} {
        poolDisks := poolDisks + [allDisks[i]];
      }
    }
    assert allDisks[|allDisks|..] == [];
  }

  /** The disks of a one-node pool are the disks of that node, and the
      empty-pool guard agrees with the filter, which keeps nothing when
      there are no VMs. */
  lemma NodePoolDisksOfOneNode(allDisks: seq<Disk>, node: Node)
    ensures DisksUsedBy(allDisks, NodeNames([node])) == DisksUsing(allDisks, node.name)
    ensures DisksUsedBy(allDisks, NodeNames([])) == []
  {
    assert [node][0] == node;
    assert forall n :: n in NodeNames([node]) <==> n == node.name;
    assert NodeNames([node]) == {node.name};
    DisksUsingIsUsedBy(allDisks, node.name);
    assert NodeNames([]) == {};
    FilterNone(allDisks, (d: Disk) => UsedBy(d, {}));
  }

  /** A pod's node is one of the nodes. */
  predicate OnNodes(pod: Pod, names: set<string>) {
    pod.nodeName.Some? && pod.nodeName.value in names
  }

  /** `get_node_pool_pod_details`: the pods running on one of the nodes, in
      the listing's order. */
  function NodePoolPods(allPods: seq<Pod>, nodes: seq<Node>): (r: seq<Pod>)
    ensures forall p :: p in r <==> p in allPods && p.nodeName.Some? && p.nodeName.value in NodeNames(nodes)
    ensures forall p :: multiset(r)[p] == if OnNodes(p, NodeNames(nodes)) then multiset(allPods)[p] else 0
    ensures nodes == [] ==> r == []
    ensures IsSubsequence(r, allPods)
  {
    if nodes == [] then
      assert IsSubsequence([], allPods);
      []
    else
      var names := NodeNames(nodes);
      FilterIsSubsequence(allPods, (p: Pod) => OnNodes(p, names));
      Filter(allPods, (p: Pod) => OnNodes(p, names))
  }

  /** `_check_found`'s three outcomes. */
  datatype Lookup = Found | NotFound | ExitWith(code: int)

  const NotFoundMarkers: seq<string> := ["ResponseError: code=404", "HTTPError 404"]

  /** `_check_found`: success is found; a failure whose output reports a 404
      is not found; any other failure ends the process with its code. */
  function CheckFound(ret: int, output: string): (r: Lookup)
    ensures r == Found <==> ret == 0
    ensures r == NotFound <==> ret != 0 && exists m :: m in NotFoundMarkers && Contains(output, m)
    ensures r.ExitWith? ==> r.code == ret && ret != 0
  {
    if ret != 0 then
      if Contains(output, NotFoundMarkers[0]) || Contains(output, NotFoundMarkers[1]) then NotFound
      else ExitWith(ret)
    else Found
  }

  // ---------------------------------------------------------------------
  // Node pool details

  /** A node pool of the cluster description. */
  datatype NodePool = NodePool(name: string, instanceGroupUrls: seq<string>)

  /** `next((p for p in cluster['nodePools'] if p['name'] == pool_name), None)`. */
  function FindPool(pools: seq<NodePool>, poolName: string): (r: Option<nat>)
    ensures r.None? <==> forall k :: 0 <= k < |pools| ==> pools[k].name != poolName
    ensures r.Some? ==>
      && r.value < |pools| && pools[r.value].name == poolName
      && forall k :: 0 <= k < r.value ==> pools[k].name != poolName
    decreases |pools|
  {
    if |pools| == 0 then None
    else if pools[0].name == poolName then Some(0)
    else
      assert forall k :: 1 <= k < |pools| ==> pools[1..][k - 1] == pools[k];
      match FindPool(pools[1..], poolName)
      case None => None
      case Some(i) => Some(i + 1)
  }

  /** The pool, its managed instance group and its nodes, as far as they are
      found. */
  datatype PoolDetails = PoolDetails(pool: Option<NodePool>, mig: Option<string>, nodes: seq<Node>)

  datatype DetailsError =
    | NoInstanceGroup(pool: string)  // instanceGroupUrls[0] raises IndexError
    | DescribeExit(code: int)        // `_check_found` ends the process

  /** `get_node_pool_details`: `describeMig` stands for the gcloud call that
      describes an instance group, giving its exit code and output, which
      `_describe_managed_instance_group` passes to `_check_found`; `listNodes`
      stands for the node listing (None where kubectl fails). */
  function NodePoolDetails(pools: seq<NodePool>, poolName: string,
                           describeMig: string -> (int, string),
                           listNodes: string -> Option<seq<Node>>): (r: Result<PoolDetails, DetailsError>)
    ensures (forall k :: 0 <= k < |pools| ==> pools[k].name != poolName) ==>
      r == Success(PoolDetails(None, None, []))
    ensures r.Success? && r.value.pool.Some? ==>
      && FindPool(pools, poolName).Some?
      && r.value.pool.value == pools[FindPool(pools, poolName).value]
      && r.value.pool.value.name == poolName
    ensures r.Success? && r.value.mig.Some? ==>
      && r.value.pool.Some? && |r.value.pool.value.instanceGroupUrls| > 0
      && var (ret, output) := describeMig(r.value.pool.value.instanceGroupUrls[0]);
         CheckFound(ret, output) == Found && r.value.mig.value == output
    ensures r.Success? && r.value.nodes != [] ==> r.value.pool.Some? && r.value.mig.Some?
    ensures r.Failure? ==> FindPool(pools, poolName).Some?
    ensures r.Failure? && r.error.NoInstanceGroup? ==>
      pools[FindPool(pools, poolName).value].instanceGroupUrls == []
    ensures r.Failure? && r.error.DescribeExit? ==>
      && |pools[FindPool(pools, poolName).value].instanceGroupUrls| > 0
      && var (ret, output) := describeMig(pools[FindPool(pools, poolName).value].instanceGroupUrls[0]);
         CheckFound(ret, output) == ExitWith(ret) && r.error.code == ret != 0
    ensures FindPool(pools, poolName).Some? ==>
      var p := pools[FindPool(pools, poolName).value];
      p.instanceGroupUrls == [] ==> r == Failure(NoInstanceGroup(poolName))
    ensures FindPool(pools, poolName).Some? ==>
      var p := pools[FindPool(pools, poolName).value];
      p.instanceGroupUrls != [] ==>
        var (ret, output) := describeMig(p.instanceGroupUrls[0]);
        && (CheckFound(ret, output) == ExitWith(ret) ==> r == Failure(DescribeExit(ret)))
        && (CheckFound(ret, output) == NotFound ==> r == Success(PoolDetails(Some(p), None, [])))
        && (CheckFound(ret, output) == Found ==>
              r == Success(PoolDetails(Some(p), Some(output),
                                       if listNodes(poolName).Some? then listNodes(poolName).value else [])))
  {
    match FindPool(pools, poolName)
    case None => Success(PoolDetails(None, None, []))
    case Some(i) =>
      var pool := pools[i];
      if |pool.instanceGroupUrls| == 0 then Failure(NoInstanceGroup(poolName))
      else
        var (ret, output) := describeMig(pool.instanceGroupUrls[0]);
        match CheckFound(ret, output)
        case ExitWith(code) => Failure(DescribeExit(code))
        case NotFound => Success(PoolDetails(Some(pool), None, []))
        case Found =>
          match listNodes(poolName)
          case None => Success(PoolDetails(Some(pool), Some(output), []))
          case Some(nodes) => Success(PoolDetails(Some(pool), Some(output), nodes))
  }
}
