# Windows-container Discord bot: a Dafny model of its core logic

The bot starts Windows desktop containers (`dockurr/windows`) for Discord
users. It keeps an in-memory registry of the containers it started and
reclaims those older than eight hours. It also lists a user's containers,
ranks all containers by CPU usage and issues six-character promo codes.
All of this logic sits inside the command handlers of `bot.py`. This
project models it with Discord, Docker, YAML and subprocess calls
abstracted away, and proves properties of the model.

Modules, one per concern of the source:

- `Options` (`options.dfy`): the `Option` type used by the decoders.
- `Decimal` (`decimal.dfy`): Python's `str(int)` (also the `{n}` of an
  f-string) for integers of either sign, and a reader that inverts it.
- `Launch` (`launch.dfy`): the container name, the six-variable environment
  and the port spec that `start_container` hands to the runtime. It also
  models the value mapping `update_docker_compose` writes into the `windows`
  service environment, and what `setup` writes there. The environment
  variables are an enumeration `EnvVar`; `EnvVar.Name` gives the exact key
  string and `EnvText` gives the string-keyed dictionary.
- `Registry` (`registry.dfy`): `active_containers` as a
  `map<string, int>` from container name to start time in seconds.
  `deploy_win` is a transition function. `cleanup` is a method that walks
  a snapshot of the registry the way the source's loop does.
- `Listing` (`listing.dfy`): the prefix filter of `list_cmd`, and the
  stable descending sort by `cpu_usage` cut to five that `node` shows.
- `Promo` (`promo.dfy`): the promo-code alphabet and length, a validity
  predicate, and a generator that makes six arbitrary draws.

External collaborators become parameters:

- The runtime's `containers.run` is a `RunOutcome` value: the container
  started, or an exception with a message. A started container carries
  the name it was given.
- `datetime.utcnow()` is an integer `now`, in seconds.
- The runtime's container list is a sequence of `Container(name, cpuUsage)`
  in the order the runtime reports them.
- `random.choices` is an arbitrary choice of alphabet index per character.

Behaviour kept exactly as written:

- `deploy_win` always asks for 4 GB RAM, 4 cores, 400 GB and 100 GB of
  disk.
- Containers are named `win_<username>`, but `list_cmd` filters by
  `win_<discord user id>`. A user therefore sees a container only when the
  chosen username starts with their id (`Listing.DeployedNameListed`).
  User 12 also sees the containers of user 123
  (`Listing.ShorterIdSeesLongerId`).
- There is no duplicate check. Deploying a name that is already
  registered overwrites its start time (`Registry.RedeployResetsClock`).
  The runtime refuses a container name that is still in use, so this
  happens only after the container was removed outside the bot while its
  registry entry stayed behind.
- `update_docker_compose` runs before the `try` of `start_container`
  (bot.py:44). A missing or malformed compose file therefore raises out of
  `deploy_win`: the runtime is never called, no reply is sent and the
  registry is unchanged. The model carries this as the `ComposeWrite`
  parameter.
- There is no reconciliation between the registry and the runtime.

Behaviour one might expect that the code does not have:

- Ties in the CPU ranking keep the runtime's order, because Python's
  `sorted` is stable. They are not broken by instance id.
- Quotas are not validated. Any integers, negative ones included, are
  formatted and passed on.
- The code has no duplicate-instance rejection, no compensating teardown,
  no reconciliation pass, no tunnel registry and no promo-code lookup.
  None of these appear in the model.

## Model

| member | source | states |
|---|---|---|
| Decimal.ParseShow | bot.py:54-57 | reading back any integer the bot formats with `str`/f-string gives that integer, for either sign |
| Decimal.ShowInjective | bot.py:55 | two different core counts (or sizes) are never written as the same text |
| Decimal.Show | bot.py:54-57 | `str` writes a non-empty canonical spelling: a minus sign exactly for negative values, then digits with no leading zero (except "0" itself), never "-0" |
| Decimal.CanonicalUnique | bot.py:54-57 | each integer has one canonical spelling: a canonical string that reads as `n` is exactly the text `str` writes for `n` |
| Launch.ContainerName | bot.py:50 | the container name is `win_` followed by exactly the username |
| Launch.ContainerNameInjective | bot.py:50 | two different usernames never get the same container name |
| Launch.NamesDistinct | bot.py:52-57 | the six environment variables have six distinct names, all in the set USERNAME, PASSWORD, RAM_SIZE, CPU_CORES, DISK_SIZE, DISK2_SIZE |
| Launch.SizeText | bot.py:54 | a size is a canonical decimal number followed by `G`, and reads back as that value |
| Launch.SizeTextUnique | bot.py:54 | a canonical number followed by `G` that reads as `n` is exactly the text written for `n`, so the size text is pinned down |
| Launch.LaunchEnv | bot.py:51-58 | every variable is present; USERNAME and PASSWORD pass through unchanged; RAM_SIZE, DISK_SIZE and DISK2_SIZE are canonical numbers with the `G` suffix that read back as the requested sizes; CPU_CORES is the canonical bare core count and is not a suffixed size |
| Launch.EnvText | bot.py:51-58 | the string-keyed view of an environment has exactly the six variable names as keys, each holding its variable's value |
| Launch.BuildLaunchSpec | bot.py:47-59 | the runtime receives image `dockurr/windows`, the name `win_<username>`, port spec `3389/tcp`, and the environment of `Launch.LaunchEnv`, from which username, password and all four quantities read back |
| Launch.ReadLaunchEnvRoundTrip | bot.py:51-58 | the environment loses nothing: reading it back recovers username, password and all four quantities |
| Launch.BuildLaunchSpecInjective | bot.py:47-59 | different arguments never produce the same launch specification |
| Launch.DeployQuotaText | bot.py:72 | with the fixed deploy quota the environment holds `4G`, `4`, `400G` and `100G` |
| Launch.UpdateComposeEnv | bot.py:26-36 | the compose environment gains exactly the six variables and keeps every other variable with its value |
| Launch.WriteLaunchVars | bot.py:31-36 | the six item assignments set each of the six variables to its text, add no other key and keep every other variable |
| Launch.ComposeAgreesWithLaunch | bot.py:31-36 | the compose assignments (bot.py:31-36) and the runtime environment (bot.py:52-57), written out separately, give identical values for all six variables |
| Launch.SetupComposeEnv | bot.py:81-82 | `setup` writes credentials `default`/`default` and the given quota, adds no variable beyond the six and leaves the others untouched |
| Registry.StartContainer | bot.py:43-63 | a compose write that raises escapes `start_container`; otherwise a start succeeds exactly when the runtime runs the container, under the name `win_<username>`, and a failed run returns the exception text |
| Registry.DeployWin | bot.py:67-77 | an unauthorised user leaves the registry unchanged and never reaches the runtime; a raising compose write ends the command with no launch, no reply and no change; otherwise the runtime receives exactly the launch specification for the username, password and quota 4/4/400/100 (image `dockurr/windows`, port `3389/tcp`), whose environment reads back as those arguments; a failed start leaves the registry unchanged; a successful start adds exactly `name ↦ now` and changes no other entry |
| Registry.RedeployResetsClock | bot.py:76 | redeploying an already registered name, once the runtime accepts it again, overwrites its start time and does not grow the registry |
| Registry.Cleanup | bot.py:115-123 | removes exactly the entries older than eight hours (strictly), keeps every other entry with its timestamp, asks the runtime to remove exactly the removed names, returns their number, and leaves nothing that a second run would remove |
| Registry.CleanupIdempotent | bot.py:119-123 | a second cleanup at the same time removes nothing and changes nothing |
| Registry.CleanupPartition | bot.py:119-123 | kept and reclaimed entries split the registry, so the count equals the number of entries that disappear |
| Registry.DeployedUntilExpiry | bot.py:116-122 | a container registered at time t survives a cleanup at `now` exactly when `now - t` is at most eight hours |
| Registry.ExpiryMonotone | bot.py:120 | whatever cleanup reclaims at one time it also reclaims at any later time |
| Listing.ListOwned | bot.py:95 | every listed name starts with `win_<user id>`, every runtime container with that prefix is listed, and the listing is a subsequence of the runtime's names in runtime order |
| Listing.ListOwnedAppend | bot.py:95 | listing a concatenation gives the concatenation of the listings, so the result is the order-preserving filter and nothing else |
| Listing.ListOwnedSingle | bot.py:95 | one container is listed exactly when its name has the caller's prefix |
| Listing.DeployedNameListed | bot.py:95 | a container deployed for a username appears in a user's list exactly when the username starts with that user's decimal id |
| Listing.ShorterIdSeesLongerId | bot.py:95 | the listing for user 12 includes container `win_123` |
| Listing.Insert | bot.py:107 | inserting keeps the multiset of containers and keeps the sequence sorted by usage, highest first |
| Listing.SortByCpu | bot.py:107 | the sort is a permutation of the runtime list and is ordered by `cpu_usage`, non-increasing |
| Listing.SortStable | bot.py:107 | containers with equal usage keep their runtime order |
| Listing.TopByCpu | bot.py:107 | the result has five elements (fewer if there are fewer containers), is the front of the stable sort, is ordered by usage, is drawn from the runtime list, and no container left out uses more CPU than any shown |
| Listing.TopKeepsTieOrder | bot.py:107 | among equal usages, the containers shown are the first ones the runtime reported |
| Listing.TopNames | bot.py:110 | at most five names are shown, each the name of a runtime container |
| Promo.IndexOf | bot.py:88 | every code character has a position in the alphabet holding that character |
| Promo.AlphabetMembers | bot.py:88 | a character can be drawn exactly when it is an upper-case letter or a decimal digit |
| Promo.CodeFromPicks | bot.py:88 | draws from the alphabet spell a code of the same length made only of code characters |
| Promo.PicksMakeValidCode | bot.py:88 | any six draws from the alphabet spell a valid code |
| Promo.CodeFromPicksOnto | bot.py:88 | every valid code is the spelling of some six draws; since `GenerateCode` returns the spelling of whatever draws it makes, any valid code can be generated |
| Promo.PicksOfCodeFromPicks | bot.py:88 | the draws are recovered from the code they spell, so different draws give different codes |
| Promo.GenerateCode | bot.py:88 | the generated code is valid (six characters from `A-Z0-9`) and is exactly the spelling of the six draws made |

## Left out

- Discord wiring: client setup, command registration, reply messages,
  `on_ready` and `bot.run` (bot.py:11-14, bot.py:144-150) are user-interface
  and network plumbing. Replies are modelled only as the `DeployReply`
  datatype and as the name sequences `list_cmd` and `node` would join.
- Docker client and YAML file I/O: `docker.from_env`,
  `containers.run/list/get/remove`, and reading and writing
  `docker-compose.yml` are external I/O. Only the value mapping is kept.
  The compose file is not carried as state between calls. Note that
  `start_container` rewrites it before every run attempt, whether or not
  the run then succeeds.
- Removal failures in `cleanup`: an exception from `containers.get` (a
  container already removed outside the bot) or from `remove` would abort
  the source's loop part-way. The model treats both as always succeeding.
- Host metrics: the `psutil` CPU and RAM percentages in `node` are floats
  from an external library.
- Container statistics: the model takes each container's `cpu_usage` as a
  given integer and ranks by it, which is what bot.py:107 evidently
  intends. As written, bot.py:107 subscripts the result of `c.stats()`
  with `"cpu_usage"`. The Docker SDK's `stats()` streams by default, and
  even a single snapshot has no top-level `cpu_usage` key, so the ranking
  would raise whenever any container is listed. This reading of an
  external library was not executed. How the runtime produces a usage
  figure is not modelled.
- Tunnels: the `cloudflared` subprocess, the random advisory
  `tunnel_port` and the placeholder URL (bot.py:128-141) are an external
  process and randomness with no state to model.
- Promo-code table: `promo` stores into `promo_codes`, a name the module
  never defines, and no command ever redeems a code. Only the code shape
  is modelled.
- A raising compose write in `setup`: the command then ends without a
  reply. `Launch.SetupComposeEnv` models only the completed write.
- `setup` defaults: `setup` only rewrites the compose file.
  `deploy_win` never reads those values, so there is no in-memory default
  quota.
- Time resolution: `datetime` differences carry microseconds. The model
  counts whole seconds, with the same strict comparison against eight
  hours.
- Listing.TopNames: states only that the names come from the runtime list
  and number at most five. Their order and ranking are stated on
  `Listing.TopByCpu`.
