/** What each capsule operation accepts and what it leaves, and exactly which calls a capsule admits. */
module CapsuleEffects {
  import opened Prelude
  import opened StableSort
  import opened Capsules
  import opened CapsuleProof

  // ---------------------------------------------------------------- which calls are admitted

  lemma {:induction false} PathsIff(host: Host, root: string, paths: seq<string>)
    ensures CheckPaths(host, root, paths).None? <==>
            forall i :: 0 <= i < |paths| ==> host.within(root, paths[i]) && !host.foreign(root, paths[i])
  {
    if paths != [] {
      PathsIff(host, root, paths[1..]);
      assert paths == [paths[0]] + paths[1..];
    }
  }

  /** The profile and the isolation admit the mutation. */
  ghost predicate MayMutate(host: Host, c: Capsule) {
    || c.profile == Develop
    || ((c.profile == Propose || c.profile == Autopilot) && c.isolation == Worktree && host.managed(c.root))
  }

  ghost predicate ScopeGrants(c: Capsule, call: Call) {
    || c.scopes == {}
    || ("tool:" + call.name) in c.scopes
    || ("group:" + (if call.group == None then "dynamic" else call.group.value)) in c.scopes
    || (if call.mutates then "tools:write" else "tools:read") in c.scopes
  }

  lemma ScopesIff(c: Capsule, call: Call)
    ensures ScopeGrants(c, call) <==> !(c.scopes != {} && c.scopes * ScopesOf(call) == {})
  {
    var scopes := ScopesOf(call);
    assert forall x :: x in c.scopes * scopes <==> x in c.scopes && x in scopes;
    if ScopeGrants(c, call) && c.scopes != {} {
      if ("tool:" + call.name) in c.scopes {
        assert ("tool:" + call.name) in c.scopes * scopes;
      } else if ("group:" + (if call.group == None then "dynamic" else call.group.value)) in c.scopes {
        assert ("group:" + (if call.group == None then "dynamic" else call.group.value)) in c.scopes * scopes;
      } else {
        assert (if call.mutates then "tools:write" else "tools:read") in c.scopes * scopes;
      }
    }
  }

  /** The capsule admits the call. */
  ghost predicate Admits(host: Host, c: Capsule, call: Call) {
    && ScopeGrants(c, call) && (call.mutates ==> MayMutate(host, c))
    && !Reserved(call.name) && !RunsCommands(call.name) && !(c.network == NoNetwork && UsesNetwork(call.name))
    && !(c.profile == Autopilot && call.critical)
    && c.calls < c.limits.maxCalls && (call.mutates ==> c.mutations < c.limits.maxMutations)
    && (forall i :: 0 <= i < |call.paths| ==>
        host.within(c.root, call.paths[i]) && !host.foreign(c.root, call.paths[i]))
    && |call.paths| <= c.limits.maxFiles
  }

  /** Under a bound capsule a call is allowed exactly when the capsule's scopes name it or are open, the
      profile and the isolation admit its mutation, its tool is neither reserved, a command nor cut off
      from the network, an autopilot's call is not critical, both budgets have room, and every path lies
      in the root and in no other worktree, within the number of files. */
  lemma CheckIff(host: Host, cfg: Config, capsules: seq<Capsule>, who: Principal, root: string, call: Call, now: int,
                 c: Capsule)
    requires Resolve(host, cfg, capsules, who, root, now) == Allow(Some(c))
    ensures var d := Check(host, cfg, capsules, who, root, call, now);
            && (d.Allow? <==> Admits(host, c, call)) && (d.Allow? ==> d.capsule == Some(c))
  {
    hide Resolve;
    hide Reserved;
    hide RunsCommands;
    hide UsesNetwork;
    hide ScopesOf;
    hide ScopeGrants;
    hide CheckPaths;
    ScopesIff(c, call);
    PathsIff(host, c.root, call.paths);
  }

  // ---------------------------------------------------------------- which capsule is bound

  /** The capsule is for this principal and root, and for the project, session and client it names. */
  ghost predicate IsFor(host: Host, c: Capsule, who: Principal, root: string) {
    && c.root == root && c.principalId == who.id
    && c.projectId == (if who.project == None then host.projectOf(root) else who.project.value)
    && (c.session == None || c.session == Some("") || who.session == c.session)
    && (c.client == None || c.client == Some("") || who.client == c.client)
  }

  ghost predicate IsLive(c: Capsule, now: int) { c.revoked == None && now < c.expires }

  lemma MatchesIs(host: Host, who: Principal, root: string, c: Capsule, now: int)
    ensures Matches(host, who, root, c) <==> IsFor(host, c, who, root)
    ensures Live(now)(c) <==> IsLive(c, now)
  {
  }

  /** No capsule for them is newer. */
  ghost predicate IsNewest(host: Host, capsules: seq<Capsule>, who: Principal, root: string, c: Capsule) {
    && c in capsules && IsFor(host, c, who, root)
    && forall b :: b in capsules && IsFor(host, b, who, root) ==> b.created <= c.created
  }

  /** The answer when no live capsule is for them. */
  ghost predicate RightlyRefused(host: Host, cfg: Config, capsules: seq<Capsule>, who: Principal, root: string,
                                 d: Decision) {
    if exists c :: c in capsules && IsFor(host, c, who, root) then
      exists c :: IsNewest(host, capsules, who, root, c) && d == Deny(if c.revoked.Some? then IsRevoked else IsExpired)
    else if exists c :: c in capsules && c.root == root && c.principalId == who.id then d == Deny(BindingMismatch)
    else if cfg.enforcement == All || (cfg.enforcement == RemoteOnly && who.remote) then d == Deny(CapsuleRequired)
    else d == Allow(None)
  }

  /** An administrator needs no capsule. For anyone else: the newest live capsule that is for them binds;
      if there are such capsules but none is live, the call is refused as revoked or expired by the newest;
      if there are only capsules for another project, session or client, as mismatched; and if there is
      none for the principal and root, the call needs one exactly under full enforcement, or under remote
      enforcement for a remote principal. */
  lemma ResolveExactly(host: Host, cfg: Config, capsules: seq<Capsule>, who: Principal, root: string, now: int)
    ensures var d := Resolve(host, cfg, capsules, who, root, now);
            && (who.admin ==> d == Allow(None))
            && (!who.admin && (exists c :: c in capsules && IsFor(host, c, who, root) && IsLive(c, now)) ==>
                  && d.Allow? && d.capsule.Some? && d.capsule.value in capsules
                  && IsFor(host, d.capsule.value, who, root) && IsLive(d.capsule.value, now)
                  && forall c :: c in capsules && IsFor(host, c, who, root) && IsLive(c, now) ==>
                     c.created <= d.capsule.value.created)
            && (!who.admin && !(exists c :: c in capsules && IsFor(host, c, who, root) && IsLive(c, now)) ==>
                  RightlyRefused(host, cfg, capsules, who, root, d))
  {
    hide Filter;
    hide Sort;
    hide Resolve;
    hide IsFor;
    hide IsLive;
    hide Matches;
    if who.admin {
      AdminResolve(host, cfg, capsules, who, root, now);
    } else {
      forall c ensures Matches(host, who, root, c) == IsFor(host, c, who, root) && Live(now)(c) == IsLive(c, now) {
        MatchesIs(host, who, root, c, now);
      }
      BindingIsNewestLive(host, cfg, capsules, who, root, now);
      if !(exists c :: c in capsules && IsFor(host, c, who, root) && IsLive(c, now)) {
        NoneLive(host, cfg, capsules, who, root, now);
      }
    }
  }

  lemma AdminResolve(host: Host, cfg: Config, capsules: seq<Capsule>, who: Principal, root: string, now: int)
    requires who.admin
    ensures Resolve(host, cfg, capsules, who, root, now) == Allow(None)
  {
  }

  /** The refusals, when no live capsule matches. */
  lemma NoneLive(host: Host, cfg: Config, capsules: seq<Capsule>, who: Principal, root: string, now: int)
    requires !who.admin && forall c :: c in capsules && IsFor(host, c, who, root) ==> !IsLive(c, now)
    ensures var d := Resolve(host, cfg, capsules, who, root, now);
            RightlyRefused(host, cfg, capsules, who, root, d)
  {
    hide Filter;
    hide Sort;
    hide Matches;
    hide IsFor;
    var matching := Matching(host, capsules, who, root);
    MatchingContents(host, capsules, who, root);
    CandidatesAre(capsules, who, root);
    ChooseLive(host, capsules, who, root, now);
    forall c ensures Matches(host, who, root, c) == IsFor(host, c, who, root) { MatchesIs(host, who, root, c, now); }
    forall c ensures c !in LiveMatching(host, capsules, who, root, now) {
      if c in LiveMatching(host, capsules, who, root, now) { LiveMatchingHas(host, capsules, who, root, now, c); }
    }
    EmptyLive(LiveMatching(host, capsules, who, root, now));
    SortNothing();
    if matching != [] {
      var k := NewestOrdered(host, capsules, who, root);
      assert matching[k] in matching;
      var newest := matching[k];
      assert IsFor(host, newest, who, root) && !IsLive(newest, now);
      assert IsNewest(host, capsules, who, root, newest);
    }
    if c :| c in capsules && IsFor(host, c, who, root) {
      assert c in matching;
    } else {
      EmptyLive(matching);
      if !(exists c :: c in capsules && c.root == root && c.principalId == who.id) {
        EmptyLive(Candidates(capsules, who, root));
      } else {
        assert exists c :: c in Candidates(capsules, who, root);
      }
    }
  }

  lemma EmptyLive(s: seq<Capsule>)
    requires forall c :: c !in s
    ensures s == []
  {
    var first := FirstOf(s);
  }

  function FirstOf(s: seq<Capsule>): (r: Option<Capsule>)
    ensures r.Some? ==> r.value in s
    ensures r.None? <==> s == []
  {
    if s == [] then None else Some(s[0])
  }

  lemma LiveMatchingHas(host: Host, capsules: seq<Capsule>, who: Principal, root: string, now: int, c: Capsule)
    requires c in LiveMatching(host, capsules, who, root, now)
    ensures c in capsules && IsFor(host, c, who, root) && IsLive(c, now)
  {
    FilterContents(Live(now), Matching(host, capsules, who, root));
    MatchingContents(host, capsules, who, root);
    MatchesIs(host, who, root, c, now);
  }

  lemma CandidatesAre(capsules: seq<Capsule>, who: Principal, root: string)
    ensures forall c :: c in Candidates(capsules, who, root) <==>
            c in capsules && c.root == root && c.principalId == who.id
  {
    FilterContents(ForPrincipal(root, who.id), capsules);
  }

  lemma NewestOrdered(host: Host, capsules: seq<Capsule>, who: Principal, root: string) returns (k: nat)
    requires Matching(host, capsules, who, root) != []
    ensures var matching := Matching(host, capsules, who, root);
            && k < |matching| && Ordered(capsules, who, root, ProjectFor(host, who, root)) != []
            && Ordered(capsules, who, root, ProjectFor(host, who, root))[0] == matching[k]
            && forall c :: c in matching ==> c.created <= matching[k].created
  {
    hide Filter;
    hide Sort;
    var matching := Matching(host, capsules, who, root);
    NewestTotal();
    k := SortFirst(NewestFirst(), matching);
    forall c | c in matching ensures c.created <= matching[k].created {
      var j :| 0 <= j < |matching| && matching[j] == c;
      assert NewestFirst()(matching[k], matching[j]);
    }
  }

  // ---------------------------------------------------------------- create and reserve

  /** Creating succeeds exactly for an allowed root, a named principal, a life from one second to the
      maximum and nonnegative limits, without mutations for an observer; the capsule is then new: unused,
      not revoked, and alive for that long. */
  lemma CreateExactly(host: Host, cfg: Config, id: string, input: Input, now: int)
    ensures var r := Create(host, cfg, id, input, now);
            var ttl := if input.ttl == None then cfg.defaultTtl else input.ttl.value;
            var limits := LimitsOf(input);
            && (r.Ok? <==>
                  && host.allowed(input.root) && input.principalId != [] && 1000 <= ttl <= cfg.maxTtl
                  && 0 <= limits.maxCalls && 0 <= limits.maxMutations && 0 <= limits.maxFiles && 0 <= limits.maxCommand
                  && (input.profile == Observe ==> limits.maxMutations == 0))
            && (r.Ok? ==>
                  && r.value.id == id && r.value.root == input.root && r.value.principalId == input.principalId
                  && r.value.projectId == host.projectOf(input.root) && r.value.session == input.session
                  && r.value.client == input.client && r.value.profile == input.profile
                     && r.value.scopes == input.scopes
                  && r.value.created == now && r.value.expires == now + ttl && r.value.revoked == None
                  && r.value.limits == limits && r.value.calls == 0 && r.value.mutations == 0
                  && (input.isolation.Some? ==> r.value.isolation == input.isolation.value)
                  && (input.network.Some? ==> r.value.network == input.network.value))
  {
  }

  /** What a profile gives where nothing is asked for. */
  lemma ProfileDefaults(host: Host, cfg: Config, id: string, input: Input, now: int)
    requires Create(host, cfg, id, input, now).Ok?
    requires input.isolation.None? && input.network.None? && input.maxCalls.None? && input.maxMutations.None?
    requires input.maxFiles.None? && input.maxCommand.None?
    ensures var c := Create(host, cfg, id, input, now).value;
            match input.profile
            case Observe => c.isolation == Direct && c.network == NoNetwork && c.limits == Limits(500, 0, 25, 0)
            case Propose => c.isolation == Worktree && c.network == NoNetwork && c.limits == Limits(1500, 300, 50, 2000)
            case Develop =>
              c.isolation == Checkpoint && c.network == Restricted && c.limits == Limits(3000, 1000, 100, 8000)
            case Autopilot =>
              c.isolation == Worktree && c.network == Restricted && c.limits == Limits(5000, 2000, 150, 8000)
  {
  }

  ghost predicate HasRoom(c: Capsule, mutates: bool) {
    c.calls < c.limits.maxCalls && (mutates ==> c.mutations < c.limits.maxMutations)
  }

  ghost function Charged(c: Capsule, mutates: bool): Capsule {
    c.(calls := c.calls + 1, mutations := c.mutations + (if mutates then 1 else 0))
  }

  /** Reserving succeeds exactly for a known capsule whose budgets have room; that capsule then has one
      more call, and one more mutation if the call mutates, and nothing else changes. */
  lemma ReserveExactly(host: Host, capsules: seq<Capsule>, id: string, mutates: bool)
    requires Inv(host, capsules)
    ensures var r := Reserve(capsules, id, mutates);
            && (r.Ok? <==> exists c :: c in capsules && c.id == id && HasRoom(c, mutates))
            && (r.Ok? ==>
                  exists i :: 0 <= i < |capsules| && capsules[i].id == id
                      && r.value == capsules[i := Charged(capsules[i], mutates)])
  {
    hide CapsuleOk;
    if c :| c in capsules && c.id == id && HasRoom(c, mutates) {
      FindMember(capsules, c);
    }
    if Find(capsules, id).Some? {
      var i := Find(capsules, id).value;
      assert capsules[i] in capsules;
    }
  }

  /** Revoking marks exactly the capsule of that name, once. */
  lemma RevokeExactly(host: Host, capsules: seq<Capsule>, id: string, now: int)
    requires Inv(host, capsules)
    ensures var r := Revoke(capsules, id, now);
            && |r| == |capsules|
            && forall i :: 0 <= i < |capsules| ==>
                 r[i] == if capsules[i].id == id && capsules[i].revoked == None then capsules[i].(revoked := Some(now))
                     else capsules[i]
  {
    hide CapsuleOk;
  }

  // ---------------------------------------------------------------- loading

  /** What a stored capsule must satisfy. */
  ghost predicate Stored(host: Host, c: Capsule) {
    && host.allowed(c.root) && c.projectId == host.projectOf(c.root) && c.principalId != "" && c.created < c.expires
    && 0 <= c.limits.maxCalls <= 9007199254740991 && 0 <= c.limits.maxMutations <= 9007199254740991
    && 0 <= c.limits.maxFiles <= 9007199254740991 && 0 <= c.limits.maxCommand <= 9007199254740991
    && (c.profile == Observe ==> c.limits.maxMutations == 0)
    && 0 <= c.calls <= c.limits.maxCalls && 0 <= c.mutations <= c.limits.maxMutations
  }

  /** Whatever is stored, loading succeeds iff the capsules have different names and each is allowed,
      belongs to its root's project, ends after it began, and is used within limits that are safe
      integers; it then gives them as they are stored. */
  lemma {:induction false} LoadIff(host: Host, stored: seq<Capsule>)
    ensures Load(host, stored).Ok? <==>
            DistinctIds(stored) && forall i :: 0 <= i < |stored| ==> Stored(host, stored[i])
    ensures Load(host, stored).Ok? ==> Load(host, stored).value == stored
  {
    hide Stored;
    hide Loadable;
    if stored != [] {
      var before, c := stored[..|stored| - 1], stored[|stored| - 1];
      LoadIff(host, before);
      StoredIs(host, c);
      assert stored == before + [c];
      if DistinctIds(stored) { assert forall i :: 0 <= i < |before| ==> before[i].id == stored[i].id; }
    }
  }

  lemma StoredIs(host: Host, c: Capsule)
    ensures Stored(host, c) <==> Loadable(host, c)
  {
  }
}
