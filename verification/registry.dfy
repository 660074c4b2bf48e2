/** The registry of active containers (`active_containers`, bot.py:20), the
    `deploy_win` command that adds to it (bot.py:67-77) and the `cleanup`
    command that reclaims containers older than eight hours (bot.py:115-125).
    Time is a whole number of seconds; the container runtime is a parameter. */
module Registry {
  import opened Options
  import opened Launch

  /** Container name to the time the container was started. */
  type ActiveContainers = map<string, int>

  /** The static allow-list of Discord user ids for `deploy-win` (bot.py:17). */
  const AllowedUserIds: seq<int> := [123456789012345678]

  /** `timedelta(hours=8)` in seconds. */
  const TtlSeconds: int := 8 * 60 * 60

  /** Whether `update_docker_compose` (bot.py:26-40) completed. It runs before
      the `try` of `start_container` (bot.py:44), so a missing or malformed
      compose file raises out of the command before the runtime is called. */
  datatype ComposeWrite = Written | WriteRaised

  /** What the runtime's `containers.run` did with a launch specification:
      started it, or raised an exception whose text is `message`. */
  datatype RunOutcome = Ran | RunError(message: string)

  /** The result of `start_container`: the started container, which the
      runtime names as requested, the exception text of a failed run, or the
      exception of the compose write, which `start_container` does not catch. */
  datatype StartResult = Started(name: string) | StartFailed(message: string) | StartRaised

  /** `start_container` (bot.py:43-63): writes the compose file, then hands
      the launch specification to the runtime and converts a failure of the
      run into its message. */
  function StartContainer(username: string, password: string, q: Quota,
                          write: ComposeWrite, outcome: RunOutcome): (r: StartResult)
    ensures r.StartRaised? <==> write.WriteRaised?
    ensures r.Started? <==> write.Written? && outcome.Ran?
    ensures r.Started? ==> NamedFor(r.name, username)
    ensures r.StartFailed? ==> outcome.RunError? && r.message == outcome.message
  {
    if write.WriteRaised? then StartRaised
    else
      var spec := BuildLaunchSpec(username, password, q);
      match outcome
      case Ran => Started(spec.name)
      case RunError(message) => StartFailed(message)
  }

  /** The reply `deploy_win` sends; `NoReply` when the command raised first. */
  datatype DeployReply = NotAllowed | DeployFailed(message: string) | Deployed(name: string) | NoReply

  /** One `deploy_win` call: the registry afterwards, the launch specification
      handed to the runtime (None when the runtime was not called) and the reply. */
  datatype DeployStep = DeployStep(active: ActiveContainers, launched: Option<LaunchSpec>, reply: DeployReply)

  /** `deploy_win` (bot.py:67-77) issued by `userId` at time `now`. */
  function DeployWin(active: ActiveContainers, userId: int, username: string, password: string,
                     now: int, write: ComposeWrite, outcome: RunOutcome): (s: DeployStep)
    // an unauthorised user changes nothing and never reaches the runtime
    ensures userId !in AllowedUserIds ==> s.active == active && s.launched == None && s.reply == NotAllowed
    // a compose write that raises ends the command before the runtime is called
    ensures userId in AllowedUserIds && write.WriteRaised? ==>
      s.active == active && s.launched == None && s.reply == NoReply
    // otherwise the runtime is always asked for 4 GB RAM, 4 cores, 400 GB and 100 GB of disk
    ensures userId in AllowedUserIds && write.Written? ==>
      s.launched == Some(BuildLaunchSpec(username, password, DeployQuota))
    ensures userId in AllowedUserIds && write.Written? ==>
      && s.launched.Some?
      && s.launched.value.name == ContainerName(username)
      && ReadLaunchEnv(s.launched.value.env) == Some(LaunchArgs(username, password, Quota(4, 4, 400, 100)))
    // a failed start leaves the registry as it was
    ensures userId in AllowedUserIds && write.Written? && outcome.RunError? ==>
      s.active == active && s.reply == DeployFailed(outcome.message)
    // a successful start records exactly one entry, name to now, and nothing else
    ensures userId in AllowedUserIds && write.Written? && outcome.Ran? ==>
      && s.reply == Deployed(ContainerName(username))
      && s.active.Keys == active.Keys + {ContainerName(username)}
      && s.active[ContainerName(username)] == now
      && (forall k :: k in active && k != ContainerName(username) ==> s.active[k] == active[k])
  {
    if userId !in AllowedUserIds then
      DeployStep(active, None, NotAllowed)
    else
      var spec := BuildLaunchSpec(username, password, DeployQuota);
      ReadLaunchEnvRoundTrip(username, password, DeployQuota);
      match StartContainer(username, password, DeployQuota, write, outcome)
      case StartRaised => DeployStep(active, None, NoReply)
      case StartFailed(message) => DeployStep(active, Some(spec), DeployFailed(message))
      case Started(name) => DeployStep(active[name := now], Some(spec), Deployed(name))
  }

  /** There is no duplicate check: deploying a name that is already active
      overwrites its start time and does not grow the registry. The runtime
      refuses a name still in use, so this run succeeds only when the
      container was removed outside the bot while its entry stayed behind. */
  lemma RedeployResetsClock(active: ActiveContainers, userId: int, username: string, password: string, now: int)
    requires userId in AllowedUserIds
    requires ContainerName(username) in active
    ensures DeployWin(active, userId, username, password, now, Written, Ran).active.Keys == active.Keys
    ensures |DeployWin(active, userId, username, password, now, Written, Ran).active| == |active|
    ensures DeployWin(active, userId, username, password, now, Written, Ran).active[ContainerName(username)] == now
  {
    var s := DeployWin(active, userId, username, password, now, Written, Ran);
    assert s.active.Keys == active.Keys;
  }

  /** An entry started at `start` is older than eight hours at `now`; the
      comparison is strict, as `>` against `timedelta(hours=8)` is. */
  predicate IsExpired(start: int, now: int)
  {
    now - start > TtlSeconds
  }

  /** The names `cleanup` reclaims at `now`. */
  function ExpiredNames(active: ActiveContainers, now: int): set<string>
  {
    set k | k in active && IsExpired(active[k], now)
  }

  /** The registry `cleanup` leaves behind at `now`. */
  function Survivors(active: ActiveContainers, now: int): map<string, int>
  {
    map k | k in active && !IsExpired(active[k], now) :: active[k]
  }

  /** `cleanup` (bot.py:115-125): walks a snapshot of the registry, removes
      every container older than eight hours from the runtime and from the
      registry, and counts the removals. `reclaimed` is the set of names the
      runtime was asked to remove; removal is taken to succeed. */
  method Cleanup(active: ActiveContainers, now: int) returns (remaining: ActiveContainers, removed: nat, reclaimed: set<string>)
    ensures forall k :: k in active ==> (k in remaining <==> !IsExpired(active[k], now))
    ensures forall k :: k in remaining ==> k in active && remaining[k] == active[k]
    ensures remaining == Survivors(active, now)
    ensures reclaimed == ExpiredNames(active, now)
    ensures removed == |reclaimed| && removed == |active| - |remaining|
    ensures ExpiredNames(remaining, now) == {}
  {
    remaining, removed, reclaimed := active, 0, {};
    var todo := active.Keys;
    while todo != {}
      invariant todo <= active.Keys
      invariant forall k :: k in remaining ==> k in active && remaining[k] == active[k]
      invariant forall k :: k in active ==> (k in remaining <==> k in todo || !IsExpired(active[k], now))
      invariant forall k :: k in reclaimed <==> k in active && k !in todo && IsExpired(active[k], now)
      invariant removed == |reclaimed| && |active| == |remaining| + |reclaimed|
      decreases todo
    {
      var name :| name in todo;
      if IsExpired(active[name], now) {
        remaining := remaining - {name};
        reclaimed := reclaimed + {name};
        removed := removed + 1;
      }
      todo := todo - {name};
    }
    assert forall k :: k in remaining ==> !IsExpired(remaining[k], now);
  }

  /** Cleaning up twice at the same time removes nothing the second time and
      leaves the registry as the first run left it. */
  lemma CleanupIdempotent(active: ActiveContainers, now: int)
    ensures ExpiredNames(Survivors(active, now), now) == {}
    ensures Survivors(Survivors(active, now), now) == Survivors(active, now)
  {
  }

  /** The registry splits into what `cleanup` keeps and what it reclaims, so
      the count it reports is the number of entries that disappear. */
  lemma CleanupPartition(active: ActiveContainers, now: int)
    ensures Survivors(active, now).Keys !! ExpiredNames(active, now)
    ensures Survivors(active, now).Keys + ExpiredNames(active, now) == active.Keys
    ensures |active| == |Survivors(active, now)| + |ExpiredNames(active, now)|
  {
    var s := Survivors(active, now).Keys;
    var e := ExpiredNames(active, now);
    assert s + e == active.Keys;
    assert |active.Keys| == |s| + |e|;
  }

  /** A container registered by a successful `deploy_win` at `started` is
      still registered after a `cleanup` at `now` exactly when at most eight
      hours have passed. */
  lemma DeployedUntilExpiry(active: ActiveContainers, userId: int, username: string, password: string,
                            started: int, now: int)
    requires userId in AllowedUserIds
    ensures var after := DeployWin(active, userId, username, password, started, Written, Ran).active;
      ContainerName(username) in Survivors(after, now) <==> now - started <= TtlSeconds
  {
  }

  /** Reclamation only grows with time: whatever `cleanup` would reclaim now
      it would also reclaim later. */
  lemma ExpiryMonotone(active: ActiveContainers, now: int, later: int)
    requires now <= later
    ensures ExpiredNames(active, now) <= ExpiredNames(active, later)
  {
  }
}
