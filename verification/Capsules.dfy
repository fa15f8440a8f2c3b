/** Workspace capsules: budgets, revocation, and which capsule a call is bound to.

    Paths are canonical and abstract; times are numbers; the manager's map is the list of its capsules
    in insertion order. */
module Capsules {
  import opened Prelude
  import opened StableSort

  datatype Profile = Observe | Propose | Develop | Autopilot

  datatype Isolation = Direct | Checkpoint | Worktree

  datatype Network = NoNetwork | Restricted

  datatype Limits = Limits(maxCalls: int, maxMutations: int, maxFiles: int, maxCommand: int)

  datatype Capsule = Capsule(
    id: string, root: string, principalId: string, projectId: string, session: Option<string>, client: Option<string>,
    profile: Profile, isolation: Isolation, network: Network, scopes: set<string>, created: int, expires: int,
        revoked: Option<int>,
    limits: Limits, calls: int, mutations: int)

  datatype Principal = Principal(id: string, admin: bool, remote: bool, project: Option<string>,
                                 session: Option<string>, client: Option<string>)

  datatype Enforcement = Off | RemoteOnly | All

  datatype CapsuleError =
    | RootRefused | PrincipalMissing | BadTtl | BadLimit | ObserveMutates | NotFound
    | CallsExhausted | MutationsExhausted | BadStore | DuplicateId

  /** Path tests and project identity: allowed roots, containment, verified managed worktrees, and paths
      that lie in a managed worktree other than the root. */
  datatype Host = Host(
    allowed: string -> bool, projectOf: string -> string, within: (string, string) -> bool, managed: string -> bool,
    foreign: (string, string) -> bool)

  datatype Config = Config(enforcement: Enforcement, defaultTtl: int, maxTtl: int)

  // ---------------------------------------------------------------- creation

  function DefaultLimits(profile: Profile): Limits {
    match profile
    case Observe => Limits(500, 0, 25, 0)
    case Propose => Limits(1500, 300, 50, 2000)
    case Develop => Limits(3000, 1000, 100, 8000)
    case Autopilot => Limits(5000, 2000, 150, 8000)
  }

  function DefaultIsolation(profile: Profile): Isolation {
    match profile
    case Observe => Direct
    case Develop => Checkpoint
    case _ => Worktree
  }

  function DefaultNetwork(profile: Profile): Network {
    if profile == Observe || profile == Propose then NoNetwork else Restricted
  }

  datatype Input = Input(
    root: string, principalId: string, profile: Profile, ttl: Option<int>, session: Option<string>,
        client: Option<string>,
    isolation: Option<Isolation>, network: Option<Network>, scopes: set<string>,
    maxCalls: Option<int>, maxMutations: Option<int>, maxFiles: Option<int>, maxCommand: Option<int>)

  function OrElse(x: Option<int>, otherwise: int): int { if x.Some? then x.value else otherwise }

  function LimitsOf(input: Input): Limits {
    var d := DefaultLimits(input.profile);
    Limits(OrElse(input.maxCalls, d.maxCalls), OrElse(input.maxMutations, d.maxMutations),
           OrElse(input.maxFiles, d.maxFiles), OrElse(input.maxCommand, d.maxCommand))
  }

  predicate Nonnegative(l: Limits) { l.maxCalls >= 0 && l.maxMutations >= 0 && l.maxFiles >= 0 && l.maxCommand >= 0 }

  predicate Safe(l: Limits) {
    l.maxCalls <= MAX_SAFE && l.maxMutations <= MAX_SAFE && l.maxFiles <= MAX_SAFE && l.maxCommand <= MAX_SAFE
  }

  function Create(host: Host, cfg: Config, id: string, input: Input, now: int): Result<Capsule, CapsuleError> {
    var ttl := OrElse(input.ttl, cfg.defaultTtl);
    var limits := LimitsOf(input);
    if !host.allowed(input.root) then Err(RootRefused)
    else if input.principalId == [] then Err(PrincipalMissing)
    else if ttl < 1000 || ttl > cfg.maxTtl then Err(BadTtl)
    else if !Nonnegative(limits) then Err(BadLimit)
    else if input.profile == Observe && limits.maxMutations != 0 then Err(ObserveMutates)
    else
      Ok(Capsule(id, input.root, input.principalId, host.projectOf(input.root), input.session, input.client,
                 input.profile,
                 if input.isolation.Some? then input.isolation.value else DefaultIsolation(input.profile),
                 if input.network.Some? then input.network.value
                     else DefaultNetwork(input.profile), input.scopes, now, now + ttl, None, limits, 0, 0))
  }

  // ---------------------------------------------------------------- lookup and update by id

  predicate DistinctIds(capsules: seq<Capsule>) {
    forall i, j :: 0 <= i < j < |capsules| ==> capsules[i].id != capsules[j].id
  }

  function Find(capsules: seq<Capsule>, id: string): (r: Option<nat>)
    ensures r.Some? ==> r.value < |capsules| && capsules[r.value].id == id
    ensures r.None? ==> forall i :: 0 <= i < |capsules| ==> capsules[i].id != id
  {
    if capsules == [] then None
    else if capsules[|capsules| - 1].id == id then Some(|capsules| - 1)
    else Find(capsules[..|capsules| - 1], id)
  }

  /** Count one call against the budget. Neither revocation nor expiry is looked at here. */
  function Charge(c: Capsule, mutates: bool): Result<Capsule, CapsuleError> {
    if c.calls >= c.limits.maxCalls then Err(CallsExhausted)
    else if mutates && c.mutations >= c.limits.maxMutations then Err(MutationsExhausted)
    else Ok(c.(calls := c.calls + 1, mutations := if mutates then c.mutations + 1 else c.mutations))
  }

  function Reserve(capsules: seq<Capsule>, id: string, mutates: bool): Result<seq<Capsule>, CapsuleError> {
    match Find(capsules, id)
    case None => Err(NotFound)
    case Some(i) =>
      match Charge(capsules[i], mutates)
      case Err(e) => Err(e)
      case Ok(c) => Ok(capsules[i := c])
  }

  function Revoked(c: Capsule, now: int): Capsule { if c.revoked.Some? then c else c.(revoked := Some(now)) }

  function Revoke(capsules: seq<Capsule>, id: string, now: int): seq<Capsule> {
    match Find(capsules, id)
    case None => capsules
    case Some(i) => capsules[i := Revoked(capsules[i], now)]
  }

  // ---------------------------------------------------------------- which capsule a call is bound to

  function NewestFirst(): Compare<Capsule> { (a: Capsule, b: Capsule) => a.created >= b.created }

  function ForPrincipal(root: string, id: string): Capsule -> bool {
    (c: Capsule) => c.root == root && c.principalId == id
  }

  predicate BoundTo(want: Option<string>, have: Option<string>) { want.Some? && want.value != [] ==> have == want }

  function Bound(who: Principal, project: string): Capsule -> bool {
    (c: Capsule) => c.projectId == project && BoundTo(c.session, who.session) && BoundTo(c.client, who.client)
  }

  function Live(now: int): Capsule -> bool { (c: Capsule) => c.revoked.None? && c.expires > now }

  datatype Reason =
    | CapsuleRequired | BindingMismatch | IsRevoked | IsExpired
    | ScopeMissing | ObserveBlocks | NeedsWorktree | NeverAutonomous | CriticalBlocked
    | CallBudget | MutationBudget | PathEscapes | ForeignWorktree | TooManyFiles | CommandsDisabled | NetworkBlocked

  datatype Decision = Allow(capsule: Option<Capsule>) | Deny(reason: Reason)

  function Candidates(capsules: seq<Capsule>, who: Principal, root: string): seq<Capsule> {
    Filter(ForPrincipal(root, who.id), capsules)
  }

  function Ordered(capsules: seq<Capsule>, who: Principal, root: string, project: string): seq<Capsule> {
    Sort(NewestFirst(), Filter(Bound(who, project), Candidates(capsules, who, root)))
  }

  /** The first live capsule, newest first; failing that, the newest. */
  function Choose(ordered: seq<Capsule>, now: int): Option<Capsule> {
    var live := Filter(Live(now), ordered);
    if live != [] then Some(live[0]) else if ordered != [] then Some(ordered[0]) else None
  }

  function Resolve(host: Host, cfg: Config, capsules: seq<Capsule>, who: Principal, root: string, now: int): Decision {
    if who.admin then Allow(None)
    else if Candidates(capsules, who, root) == [] then
      if cfg.enforcement == All || (cfg.enforcement == RemoteOnly && who.remote) then Deny(CapsuleRequired)
          else Allow(None)
    else
      match Choose(Ordered(capsules, who, root, if who.project.Some? then who.project.value else host.projectOf(root)),
                   now)
      case None => Deny(BindingMismatch)
      case Some(c) => if c.revoked.Some? then Deny(IsRevoked) else if c.expires <= now then Deny(IsExpired)
          else Allow(Some(c))
  }

  // ---------------------------------------------------------------- checking a call

  /** A tool call: its name and group, whether it is critical and whether it mutates, and the different
      paths its arguments mention, canonical. */
  datatype Call = Call(name: string, group: Option<string>, critical: bool, mutates: bool, paths: seq<string>)

  /** The scopes that admit a call: its tool, its group, and all reading or all writing tools. */
  function ScopesOf(call: Call): set<string> {
    {"tool:" + call.name, "group:" + (if call.group.Some? then call.group.value else "dynamic"),
     if call.mutates then "tools:write" else "tools:read"}
  }

  /** Tools no capsule may use on its own. */
  predicate Reserved(name: string) {
    name in {"git_push", "git_reset", "marketplace_sync", "marketplace_install", "marketplace_package"}
  }

  /** Tools that run commands: refused in every capsule. */
  predicate RunsCommands(name: string) {
    name in {"shell_exec", "process_start", "project_verify", "run_test", "run_lint", "run_typecheck", "run_build",
             "run_coverage", "pkg_run", "pkg_add", "pkg_remove", "format_check", "format_apply"}
  }

  /** Further tools that use the network. */
  predicate UsesNetwork(name: string) {
    name in {"git_fetch", "git_pull", "git_push", "browser_open", "db_connect", "plugin_install", "plugin_update",
             "marketplace_sync", "marketplace_install", "distributed_worker_register"}
  }

  function CheckPaths(host: Host, root: string, paths: seq<string>): Option<Reason> {
    if paths == [] then None
    else if !host.within(root, paths[0]) then Some(PathEscapes)
    else if host.foreign(root, paths[0]) then Some(ForeignWorktree)
    else CheckPaths(host, root, paths[1..])
  }

  function CheckCapsule(host: Host, c: Capsule, call: Call): Decision {
    if c.scopes != {} && c.scopes * ScopesOf(call) == {} then Deny(ScopeMissing)
    else if c.profile == Observe && call.mutates then Deny(ObserveBlocks)
    else if (c.profile == Propose || c.profile == Autopilot) && call.mutates
        && (c.isolation != Worktree || !host.managed(c.root)) then Deny(NeedsWorktree)
    else if Reserved(call.name) then Deny(NeverAutonomous)
    else if c.profile == Autopilot && call.critical then Deny(CriticalBlocked)
    else if c.calls >= c.limits.maxCalls then Deny(CallBudget)
    else if call.mutates && c.mutations >= c.limits.maxMutations then Deny(MutationBudget)
    else
      match CheckPaths(host, c.root, call.paths)
      case Some(r) => Deny(r)
      case None =>
        if |call.paths| > c.limits.maxFiles then Deny(TooManyFiles)
        else if RunsCommands(call.name) then Deny(CommandsDisabled)
        else if c.network == NoNetwork && UsesNetwork(call.name) then Deny(NetworkBlocked)
        else Allow(Some(c))
  }

  function Check(host: Host, cfg: Config, capsules: seq<Capsule>, who: Principal, root: string, call: Call,
                 now: int): Decision {
    match Resolve(host, cfg, capsules, who, root, now)
    case Deny(r) => Deny(r)
    case Allow(c) => if c.None? then Allow(None) else CheckCapsule(host, c.value, call)
  }

  // ---------------------------------------------------------------- persist and load

  function Persisted(capsules: seq<Capsule>): seq<Capsule> { Sort(NewestFirst(), capsules) }

  predicate Loadable(host: Host, c: Capsule) {
    && host.allowed(c.root) && c.projectId == host.projectOf(c.root) && c.principalId != []
    && c.created < c.expires && Nonnegative(c.limits) && Safe(c.limits)
    && (c.profile == Observe ==> c.limits.maxMutations == 0)
    && 0 <= c.calls <= c.limits.maxCalls && 0 <= c.mutations <= c.limits.maxMutations
  }

  function Load(host: Host, stored: seq<Capsule>): Result<seq<Capsule>, CapsuleError> {
    if stored == [] then Ok([])
    else
      match Load(host, stored[..|stored| - 1])
      case Err(e) => Err(e)
      case Ok(loaded) =>
        var c := stored[|stored| - 1];
        if !Loadable(host, c) then Err(BadStore)
        else if Find(loaded, c.id).Some? then Err(DuplicateId)
        else Ok(loaded + [c])
  }
}
