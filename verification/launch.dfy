/** The launch specification `start_container` hands to the container runtime
    (bot.py:47-59) and the value mapping `update_docker_compose` writes into the
    `windows` service environment of the compose file (bot.py:31-36). */
module Launch {
  import opened Options
  import Decimal

  /** The image every instance runs. */
  const Image: string := "dockurr/windows"

  /** The only port published by the runtime, bound to an ephemeral host port. */
  const RdpPort: string := "3389/tcp"

  const NamePrefix: string := "win_"

  /** The six environment variables the image reads; `Name` is the exact
      variable name the runtime and the compose file see. */
  datatype EnvVar = Username | Password | RamSize | CpuCores | DiskSize | Disk2Size
  {
    function Name(): string
    {
      match this
      case Username => "USERNAME"
      case Password => "PASSWORD"
      case RamSize => "RAM_SIZE"
      case CpuCores => "CPU_CORES"
      case DiskSize => "DISK_SIZE"
      case Disk2Size => "DISK2_SIZE"
    }
  }

  const LaunchKeys: set<string> := {"USERNAME", "PASSWORD", "RAM_SIZE", "CPU_CORES", "DISK_SIZE", "DISK2_SIZE"}

  /** Every variable has its own name, and those names are exactly `LaunchKeys`. */
  lemma NamesDistinct(a: EnvVar, b: EnvVar)
    ensures a.Name() == b.Name() ==> a == b
    ensures a.Name() in LaunchKeys
  {
  }

  /** The four resource quantities passed to `start_container`. The source
      takes them as Python integers and does not validate their sign. */
  datatype Quota = Quota(ram: int, cpu: int, disk: int, disk2: int)

  /** The quota `deploy_win` always asks for (bot.py:72). */
  const DeployQuota: Quota := Quota(4, 4, 400, 100)

  datatype LaunchSpec = LaunchSpec(image: string, name: string, env: map<EnvVar, string>, port: string)

  /** `s` begins with `prefix`, as Python's `str.startswith`. */
  predicate StartsWith(s: string, prefix: string)
  {
    |prefix| <= |s| && s[..|prefix|] == prefix
  }

  /** `name` is the prefix `win_` followed by exactly `username`. */
  predicate NamedFor(name: string, username: string)
  {
    StartsWith(name, NamePrefix) && name[|NamePrefix|..] == username
  }

  /** The name the runtime gives the container. */
  function ContainerName(username: string): (name: string)
    ensures NamedFor(name, username)
  {
    NamePrefix + username
  }

  /** Reads a size written with the gigabyte suffix; None for anything else. */
  function ParseSize(s: string): Option<int>
  {
    if |s| >= 1 && s[|s| - 1] == 'G' then Decimal.Parse(s[..|s| - 1]) else None
  }

  /** A canonical number followed by the gigabyte suffix. */
  predicate CanonicalSize(s: string)
  {
    |s| >= 1 && s[|s| - 1] == 'G' && Decimal.Canonical(s[..|s| - 1])
  }

  /** A size written with the gigabyte suffix, as `f"{n}G"`. */
  function SizeText(n: int): (s: string)
    ensures |s| >= 2 && CanonicalSize(s)
    ensures ParseSize(s) == Some(n)
  {
    var s := Decimal.Show(n) + "G";
    assert s[..|s| - 1] == Decimal.Show(n);
    Decimal.ParseShow(n);
    s
  }

  /** A size has one spelling: a canonical number followed by `G` that reads
      as `n` is exactly `SizeText(n)`. */
  lemma SizeTextUnique(s: string, n: int)
    requires CanonicalSize(s) && ParseSize(s) == Some(n)
    ensures s == SizeText(n)
  {
    Decimal.CanonicalUnique(s[..|s| - 1], n);
    assert s == s[..|s| - 1] + "G";
  }

  /** The environment of bot.py:51-58, by variable: credentials passed through,
      sizes with the gigabyte suffix, the core count as a bare decimal. */
  function LaunchEnv(username: string, password: string, q: Quota): (env: map<EnvVar, string>)
    ensures forall v: EnvVar :: v in env
    ensures env[Username] == username && env[Password] == password
    ensures ParseSize(env[RamSize]) == Some(q.ram)
    ensures ParseSize(env[DiskSize]) == Some(q.disk)
    ensures ParseSize(env[Disk2Size]) == Some(q.disk2)
    ensures Decimal.Parse(env[CpuCores]) == Some(q.cpu) && ParseSize(env[CpuCores]) == None
    ensures CanonicalSize(env[RamSize]) && CanonicalSize(env[DiskSize]) && CanonicalSize(env[Disk2Size])
    ensures Decimal.Canonical(env[CpuCores])
  {
    var env := map v: EnvVar :: EnvValue(v, username, password, q);
    var cpu := Decimal.Show(q.cpu);
    Decimal.ParseShow(q.cpu);
    assert ParseSize(cpu) == None;
    assert env[CpuCores] == cpu;
    env
  }

  function EnvValue(v: EnvVar, username: string, password: string, q: Quota): string
  {
    match v
    case Username => username
    case Password => password
    case RamSize => SizeText(q.ram)
    case CpuCores => Decimal.Show(q.cpu)
    case DiskSize => SizeText(q.disk)
    case Disk2Size => SizeText(q.disk2)
  }

  /** The same environment keyed by the variable names, as the dictionary the
      runtime and the compose file receive. */
  function EnvText(env: map<EnvVar, string>): (m: map<string, string>)
    requires forall v: EnvVar :: v in env
    ensures m.Keys == LaunchKeys
    ensures forall v: EnvVar :: v.Name() in m && m[v.Name()] == env[v]
  {
    map["USERNAME" := env[Username], "PASSWORD" := env[Password],
        "RAM_SIZE" := env[RamSize], "CPU_CORES" := env[CpuCores],
        "DISK_SIZE" := env[DiskSize], "DISK2_SIZE" := env[Disk2Size]]
  }

  /** The arguments of `containers.run` in `start_container` (bot.py:47-59). */
  function BuildLaunchSpec(username: string, password: string, q: Quota): (spec: LaunchSpec)
    ensures spec.image == Image && spec.port == RdpPort
    ensures NamedFor(spec.name, username)
    ensures forall v: EnvVar :: v in spec.env
    ensures ReadLaunchEnv(spec.env) == Some(LaunchArgs(username, password, q))
    ensures spec.env == LaunchEnv(username, password, q)
  {
    ReadLaunchEnvRoundTrip(username, password, q);
    LaunchSpec(Image, ContainerName(username), LaunchEnv(username, password, q), RdpPort)
  }

  /** What a launch specification says about the arguments it was built from. */
  datatype LaunchArgs = LaunchArgs(username: string, password: string, quota: Quota)

  /** Recovers the arguments of `start_container` from an environment;
      None when a variable is missing or unreadable. */
  function ReadLaunchEnv(env: map<EnvVar, string>): Option<LaunchArgs>
  {
    if forall v: EnvVar :: v in env then
      var ram := ParseSize(env[RamSize]);
      var cpu := Decimal.Parse(env[CpuCores]);
      var disk := ParseSize(env[DiskSize]);
      var disk2 := ParseSize(env[Disk2Size]);
      if ram.Some? && cpu.Some? && disk.Some? && disk2.Some? then
        Some(LaunchArgs(env[Username], env[Password], Quota(ram.value, cpu.value, disk.value, disk2.value)))
      else None
    else None
  }

  /** The environment loses nothing: reading it back gives the arguments it was built from. */
  lemma ReadLaunchEnvRoundTrip(username: string, password: string, q: Quota)
    ensures ReadLaunchEnv(LaunchEnv(username, password, q)) == Some(LaunchArgs(username, password, q))
  {
  }

  /** Different arguments never produce the same launch specification. */
  lemma BuildLaunchSpecInjective(u1: string, p1: string, q1: Quota, u2: string, p2: string, q2: Quota)
    ensures BuildLaunchSpec(u1, p1, q1) == BuildLaunchSpec(u2, p2, q2) ==> u1 == u2 && p1 == p2 && q1 == q2
  {
    ReadLaunchEnvRoundTrip(u1, p1, q1);
    ReadLaunchEnvRoundTrip(u2, p2, q2);
  }

  /** Distinct users get distinct container names, and a name identifies its user. */
  lemma ContainerNameInjective(u1: string, u2: string)
    requires ContainerName(u1) == ContainerName(u2)
    ensures u1 == u2
  {
    assert u1 == ContainerName(u1)[|NamePrefix|..];
  }

  /** The quota of `deploy_win` yields exactly these strings. */
  lemma DeployQuotaText(username: string, password: string)
    ensures LaunchEnv(username, password, DeployQuota)[RamSize] == "4G"
    ensures LaunchEnv(username, password, DeployQuota)[CpuCores] == "4"
    ensures LaunchEnv(username, password, DeployQuota)[DiskSize] == "400G"
    ensures LaunchEnv(username, password, DeployQuota)[Disk2Size] == "100G"
  {
  }

  /** The six item assignments of `update_docker_compose` (bot.py:31-36) on
      the `windows` service environment, given the already formatted texts. */
  function WriteLaunchVars(env: map<string, string>, username: string, password: string,
                           ram: string, cpu: string, disk: string, disk2: string): (r: map<string, string>)
    ensures r.Keys == env.Keys + LaunchKeys
    ensures forall k :: k in env && k !in LaunchKeys ==> k in r && r[k] == env[k]
    ensures r[Username.Name()] == username && r[Password.Name()] == password
    ensures r[RamSize.Name()] == ram && r[CpuCores.Name()] == cpu
    ensures r[DiskSize.Name()] == disk && r[Disk2Size.Name()] == disk2
  {
    env["USERNAME" := username]["PASSWORD" := password]
       ["RAM_SIZE" := ram]["CPU_CORES" := cpu]
       ["DISK_SIZE" := disk]["DISK2_SIZE" := disk2]
  }

  /** `update_docker_compose` (bot.py:26-36): the six variables of the `windows`
      service environment are overwritten, every other variable is kept. */
  function UpdateComposeEnv(compose: map<string, string>, username: string, password: string, q: Quota): (r: map<string, string>)
    ensures r.Keys == compose.Keys + LaunchKeys
    ensures forall k :: k in compose && k !in LaunchKeys ==> k in r && r[k] == compose[k]
  {
    WriteLaunchVars(compose, username, password,
                    SizeText(q.ram), Decimal.Show(q.cpu), SizeText(q.disk), SizeText(q.disk2))
  }

  /** One variable of the compose environment after `update_docker_compose`
      holds the value the runtime receives for it. */
  lemma ComposeValue(compose: map<string, string>, username: string, password: string, q: Quota, v: EnvVar)
    ensures v.Name() in UpdateComposeEnv(compose, username, password, q)
    ensures UpdateComposeEnv(compose, username, password, q)[v.Name()] == LaunchEnv(username, password, q)[v]
  {
  }

  /** The compose file and the runtime receive the same six values for the
      same arguments (bot.py:31-36 against bot.py:52-57). */
  lemma ComposeAgreesWithLaunch(compose: map<string, string>, username: string, password: string, q: Quota)
    ensures forall v: EnvVar :: v.Name() in UpdateComposeEnv(compose, username, password, q)
    ensures forall v: EnvVar ::
      UpdateComposeEnv(compose, username, password, q)[v.Name()] == BuildLaunchSpec(username, password, q).env[v]
  {
    forall v: EnvVar {
      ComposeValue(compose, username, password, q, v);
    }
  }

  /** The credentials `setup` writes alongside the quota (bot.py:82). */
  const DefaultCredential: string := "default"

  /** `setup` writes the given quota into the compose file under the
      default credentials (bot.py:82). */
  function SetupComposeEnv(compose: map<string, string>, q: Quota): (r: map<string, string>)
    ensures r.Keys == compose.Keys + LaunchKeys
    ensures forall v: EnvVar :: v.Name() in r && r[v.Name()] == LaunchEnv(DefaultCredential, DefaultCredential, q)[v]
    ensures forall k :: k in compose && k !in LaunchKeys ==> k in r && r[k] == compose[k]
  {
    var r := UpdateComposeEnv(compose, DefaultCredential, DefaultCredential, q);
    ComposeAgreesWithLaunch(compose, DefaultCredential, DefaultCredential, q);
    r
  }
}
