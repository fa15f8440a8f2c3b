/** What holds of the capsules over every run, and what persisting and loading keeps. */
module CapsuleProof {
  import opened Prelude
  import opened StableSort
  import opened Capsules

  // ---------------------------------------------------------------- the invariant

  ghost predicate CapsuleOk(host: Host, c: Capsule) {
    && host.allowed(c.root) && c.projectId == host.projectOf(c.root) && c.principalId != [] && c.created < c.expires
    && Nonnegative(c.limits) && (c.profile == Observe ==> c.limits.maxMutations == 0)
    && 0 <= c.mutations <= c.calls <= c.limits.maxCalls && c.mutations <= c.limits.maxMutations
  }

  ghost predicate Inv(host: Host, capsules: seq<Capsule>) {
    DistinctIds(capsules) && forall i :: 0 <= i < |capsules| ==> CapsuleOk(host, capsules[i])
  }

  datatype Action =
    | DoCreate(id: string, input: Input, created: int)
    | DoRevoke(id: string, at: int)
    | DoReserve(id: string, mutates: bool)
    | DoReload

  /** The state after a call; new ids are new, and a reload that fails leaves the stored state. */
  function Next(host: Host, cfg: Config, capsules: seq<Capsule>, a: Action): seq<Capsule> {
    match a
    case DoCreate(id, input, created) =>
      (match Create(host, cfg, id, input, created)
       case Err(_) => capsules
       case Ok(c) => if Find(capsules, id).Some? then capsules else capsules + [c])
    case DoRevoke(id, at) => Revoke(capsules, id, at)
    case DoReserve(id, mutates) => (match Reserve(capsules, id, mutates) case Err(_) => capsules case Ok(r) => r)
    case DoReload => (match Load(host, Persisted(capsules)) case Err(_) => capsules case Ok(r) => r)
  }

  function After(host: Host, cfg: Config, run: seq<Action>): seq<Capsule> {
    if run == [] then [] else Next(host, cfg, After(host, cfg, run[..|run| - 1]), run[|run| - 1])
  }

  // ---------------------------------------------------------------- loading

  lemma NewestTotal()
    ensures Total(NewestFirst())
  {
  }

  /** The capsules stored, in any order that keeps the list's contents, have the same ids apart. */
  lemma PermutedDistinct(a: seq<Capsule>, b: seq<Capsule>)
    requires multiset(a) == multiset(b) && DistinctIds(a)
    ensures DistinctIds(b)
  {
    forall i, j | 0 <= i < j < |b| ensures b[i].id != b[j].id {
      SameMembers(a, b);
      assert b[i] in b && b[j] in b;
      var m :| 0 <= m < |a| && a[m] == b[i];
      var n :| 0 <= n < |a| && a[n] == b[j];
      if m == n {
        TwiceIn(b, i, j);
        OnceIn(a, m);
      }
    }
  }

  lemma SameMembers(a: seq<Capsule>, b: seq<Capsule>)
    requires multiset(a) == multiset(b)
    ensures forall x :: x in a <==> x in b
  {
    forall x ensures x in a <==> x in b { assert x in multiset(a) <==> x in multiset(b); }
  }

  lemma TwiceIn(b: seq<Capsule>, i: nat, j: nat)
    requires i < j < |b| && b[i] == b[j]
    ensures multiset(b)[b[i]] >= 2
  {
    assert b == b[..i] + [b[i]] + b[i + 1..j] + [b[j]] + b[j + 1..];
  }

  lemma OnceIn(a: seq<Capsule>, m: nat)
    requires m < |a| && DistinctIds(a)
    ensures multiset(a)[a[m]] == 1
  {
    assert a == a[..m] + [a[m]] + a[m + 1..];
    assert a[m] !in a[..m] && a[m] !in a[m + 1..];
  }

  lemma {:induction false} LoadsAll(host: Host, stored: seq<Capsule>)
    requires DistinctIds(stored)
    ensures Load(host, stored).Ok? <==> forall i :: 0 <= i < |stored| ==> Loadable(host, stored[i])
    ensures Load(host, stored).Ok? ==> Load(host, stored).value == stored
  {
    hide Loadable;
    if stored != [] {
      var before, c := stored[..|stored| - 1], stored[|stored| - 1];
      LoadsAll(host, before);
      assert stored == before + [c];
    }
  }

  /** Stored capsules load again exactly when every limit is a safe integer; they then come back the
      same, newest first. Creation itself accepts larger limits. */
  lemma ReloadIff(host: Host, capsules: seq<Capsule>)
    requires Inv(host, capsules)
    ensures Load(host, Persisted(capsules)).Ok? <==> forall i :: 0 <= i < |capsules| ==> Safe(capsules[i].limits)
    ensures Load(host, Persisted(capsules)).Ok? ==> Load(host, Persisted(capsules)).value == Persisted(capsules)
  {
    hide Sort;
    hide Safe;
    hide Nonnegative;
    var stored := Persisted(capsules);
    SortContents(NewestFirst(), capsules);
    PermutedDistinct(capsules, stored);
    SameMembers(capsules, stored);
    LoadsAll(host, stored);
    forall i | 0 <= i < |stored| ensures Loadable(host, stored[i]) <==> Safe(stored[i].limits) {
      assert stored[i] in stored;
      var k :| 0 <= k < |capsules| && capsules[k] == stored[i];
      assert CapsuleOk(host, capsules[k]);
    }
    if forall i :: 0 <= i < |capsules| ==> Safe(capsules[i].limits) {
      forall i | 0 <= i < |stored| ensures Safe(stored[i].limits) {
        assert stored[i] in stored;
        var k :| 0 <= k < |capsules| && capsules[k] == stored[i];
      }
    }
    if forall i :: 0 <= i < |stored| ==> Safe(stored[i].limits) {
      forall i | 0 <= i < |capsules| ensures Safe(capsules[i].limits) {
        assert capsules[i] in capsules;
        var k :| 0 <= k < |stored| && stored[k] == capsules[i];
      }
    }
  }

  /** A capsule that creation accepts and that then cannot be loaded again. */
  lemma UnsafeLimitBlocksReload(host: Host, root: string, who: string)
    requires host.allowed(root) && who != []
    ensures var input := Input(root, who, Develop, None, None, None, None, None, {}, Some(MAX_SAFE + 1), None, None,
                               None);
            var made := Create(host, Config(All, 1000, 1000), [], input, 0);
            made.Ok? && Load(host, Persisted([made.value])).Err?
  {
    var input := Input(root, who, Develop, None, None, None, None, None, {}, Some(MAX_SAFE + 1), None, None, None);
    var c := Create(host, Config(All, 1000, 1000), [], input, 0).value;
    assert [c][0].limits.maxCalls > MAX_SAFE;
    ReloadIff(host, [c]);
  }

  // ---------------------------------------------------------------- every run

  lemma ReplaceKeepsInv(host: Host, capsules: seq<Capsule>, i: nat, c: Capsule)
    requires Inv(host, capsules) && i < |capsules| && c.id == capsules[i].id && CapsuleOk(host, c)
    ensures Inv(host, capsules[i := c])
  {
    hide CapsuleOk;
  }

  lemma PersistedKeepsInv(host: Host, capsules: seq<Capsule>)
    requires Inv(host, capsules)
    ensures Inv(host, Persisted(capsules))
  {
    hide CapsuleOk;
    hide Sort;
    var stored := Persisted(capsules);
    SortContents(NewestFirst(), capsules);
    PermutedDistinct(capsules, stored);
    SameMembers(capsules, stored);
    forall i | 0 <= i < |stored| ensures CapsuleOk(host, stored[i]) { assert stored[i] in stored; }
  }

  lemma NextKeepsInv(host: Host, cfg: Config, capsules: seq<Capsule>, a: Action)
    requires Inv(host, capsules)
    ensures Inv(host, Next(host, cfg, capsules, a))
  {
    match a
    case DoCreate(id, input, created) => CreateKeepsInv(host, cfg, capsules, id, input, created);
    case DoRevoke(id, at) =>
      if Find(capsules, id).Some? {
        var i := Find(capsules, id).value;
        ReplaceKeepsInv(host, capsules, i, Revoked(capsules[i], at));
      }
    case DoReserve(id, mutates) =>
      if Reserve(capsules, id, mutates).Ok? {
        var i := Find(capsules, id).value;
        ReplaceKeepsInv(host, capsules, i, Charge(capsules[i], mutates).value);
      }
    case DoReload =>
      ReloadIff(host, capsules);
      PersistedKeepsInv(host, capsules);
  }

  lemma CreateKeepsInv(host: Host, cfg: Config, capsules: seq<Capsule>, id: string, input: Input, created: int)
    requires Inv(host, capsules)
    ensures Inv(host, Next(host, cfg, capsules, DoCreate(id, input, created)))
  {
    hide Nonnegative;
    var made := Create(host, cfg, id, input, created);
    if made.Ok? {
      FreshIsOk(host, cfg, id, input, created);
    }
  }

  lemma FreshIsOk(host: Host, cfg: Config, id: string, input: Input, created: int)
    requires Create(host, cfg, id, input, created).Ok?
    ensures CapsuleOk(host, Create(host, cfg, id, input, created).value)
            && Create(host, cfg, id, input, created).value.id == id
  {
  }

  /** In every reachable state every capsule has mutations <= calls <= maxCalls and mutations <=
      maxMutations; an observing capsule never has a mutation. */
  lemma {:induction false} BudgetsHold(host: Host, cfg: Config, run: seq<Action>)
    ensures Inv(host, After(host, cfg, run))
    ensures forall c <- After(host, cfg, run) ::
              0 <= c.mutations <= c.calls <= c.limits.maxCalls && c.mutations <= c.limits.maxMutations
                  && (c.profile == Observe ==> c.mutations == 0)
  {
    if run != [] {
      hide Next;
      var before := After(host, cfg, run[..|run| - 1]);
      BudgetsHold(host, cfg, run[..|run| - 1]);
      NextKeepsInv(host, cfg, before, run[|run| - 1]);
    }
  }

  // ---------------------------------------------------------------- how a capsule may change

  /** Only usage grows and a revocation, once made, stays. */
  ghost predicate Evolves(c: Capsule, d: Capsule) {
    && d == c.(calls := d.calls, mutations := d.mutations, revoked := d.revoked)
    && c.calls <= d.calls && c.mutations <= d.mutations && (c.revoked.Some? ==> d.revoked == c.revoked)
  }

  lemma EvolvesOn(c: Capsule, d: Capsule, e: Capsule)
    requires Evolves(c, d) && Evolves(d, e)
    ensures Evolves(c, e)
  {
  }

  ghost predicate Kept(c: Capsule, capsules: seq<Capsule>) { exists d :: d in capsules && Evolves(c, d) }

  lemma ReplaceKeeps(capsules: seq<Capsule>, i: nat, d: Capsule, c: Capsule)
    requires i < |capsules| && Evolves(capsules[i], d) && c in capsules
    ensures Kept(c, capsules[i := d])
  {
    var k :| 0 <= k < |capsules| && capsules[k] == c;
    if k == i {
      assert capsules[i := d][i] == d;
    } else {
      assert capsules[i := d][k] == c && Evolves(c, c);
    }
  }

  lemma NextKeeps(host: Host, cfg: Config, capsules: seq<Capsule>, a: Action, c: Capsule)
    requires Inv(host, capsules) && c in capsules
    ensures Kept(c, Next(host, cfg, capsules, a))
  {
    hide Kept;
    match a
    case DoCreate(id, input, created) => KeptHere(c, capsules); KeptLonger(c, capsules, Next(host, cfg, capsules, a));
    case DoRevoke(id, at) =>
      KeptHere(c, capsules);
      if Find(capsules, id).Some? {
        var i := Find(capsules, id).value;
        ReplaceKeeps(capsules, i, Revoked(capsules[i], at), c);
      }
    case DoReserve(id, mutates) =>
      KeptHere(c, capsules);
      if Reserve(capsules, id, mutates).Ok? {
        var i := Find(capsules, id).value;
        ReplaceKeeps(capsules, i, Charge(capsules[i], mutates).value, c);
      }
    case DoReload =>
      KeptHere(c, capsules);
      ReloadIff(host, capsules);
      SortContents(NewestFirst(), capsules);
      SameMembers(capsules, Persisted(capsules));
      KeptHere(c, Persisted(capsules));
  }

  lemma KeptHere(c: Capsule, capsules: seq<Capsule>)
    ensures c in capsules ==> Kept(c, capsules)
  {
    assert Evolves(c, c);
  }

  lemma KeptLonger(c: Capsule, capsules: seq<Capsule>, more: seq<Capsule>)
    requires Kept(c, capsules) && capsules <= more
    ensures Kept(c, more)
  {
    var d :| d in capsules && Evolves(c, d);
    assert d in more;
  }

  /** A capsule is never lost, its terms never change, its usage never falls, and a revocation is
      permanent, over every continuation of every run. */
  lemma {:induction false} CapsulesOnlyEvolve(host: Host, cfg: Config, run: seq<Action>, more: seq<Action>, c: Capsule)
    requires c in After(host, cfg, run)
    ensures Kept(c, After(host, cfg, run + more))
  {
    hide Next;
    if more == [] {
      assert run + more == run;
      KeptHere(c, After(host, cfg, run));
    } else {
      var n := |more| - 1;
      CapsulesOnlyEvolve(host, cfg, run, more[..n], c);
      assert (run + more)[..|run + more| - 1] == run + more[..n];
      var before := After(host, cfg, run + more[..n]);
      var d :| d in before && Evolves(c, d);
      BudgetsHold(host, cfg, run + more[..n]);
      NextKeeps(host, cfg, before, (run + more)[|run + more| - 1], d);
      var e :| e in After(host, cfg, run + more) && Evolves(d, e);
      EvolvesOn(c, d, e);
    }
  }

  // ---------------------------------------------------------------- binding

  function ProjectFor(host: Host, who: Principal, root: string): string {
    if who.project.Some? then who.project.value else host.projectOf(root)
  }

  /** The capsules a principal's call could be bound to. */
  ghost predicate Matches(host: Host, who: Principal, root: string, c: Capsule) {
    ForPrincipal(root, who.id)(c) && Bound(who, ProjectFor(host, who, root))(c)
  }

  ghost function Matching(host: Host, capsules: seq<Capsule>, who: Principal, root: string): seq<Capsule> {
    Filter(Bound(who, ProjectFor(host, who, root)), Candidates(capsules, who, root))
  }

  lemma MatchingContents(host: Host, capsules: seq<Capsule>, who: Principal, root: string)
    ensures forall c :: c in Matching(host, capsules, who, root) <==> c in capsules && Matches(host, who, root, c)
    ensures Candidates(capsules, who, root) == [] ==> Matching(host, capsules, who, root) == []
  {
    FilterContents(ForPrincipal(root, who.id), capsules);
    FilterContents(Bound(who, ProjectFor(host, who, root)), Candidates(capsules, who, root));
  }

  /** The live matching capsules, newest first. */
  ghost function LiveMatching(host: Host, capsules: seq<Capsule>, who: Principal, root: string,
                              now: int): seq<Capsule> {
    Filter(Live(now), Matching(host, capsules, who, root))
  }

  lemma ChooseLive(host: Host, capsules: seq<Capsule>, who: Principal, root: string, now: int)
    ensures var ordered := Ordered(capsules, who, root, ProjectFor(host, who, root));
            && Filter(Live(now), ordered) == Sort(NewestFirst(), LiveMatching(host, capsules, who, root, now))
            && (ordered == [] <==> Matching(host, capsules, who, root) == [])
            && (forall c <- ordered :: c in Matching(host, capsules, who, root))
  {
    hide Filter;
    hide Sort;
    NewestTotal();
    SortFilter(NewestFirst(), Live(now), Matching(host, capsules, who, root));
    SortContents(NewestFirst(), Matching(host, capsules, who, root));
    SameMembers(Matching(host, capsules, who, root), Ordered(capsules, who, root, ProjectFor(host, who, root)));
  }

  /** A call is bound to a capsule exactly when some live capsule matches it, and then to the newest
      such capsule, whatever newer ones are revoked or expired. */
  lemma BindingIsNewestLive(host: Host, cfg: Config, capsules: seq<Capsule>, who: Principal, root: string, now: int)
    requires !who.admin
    ensures var d := Resolve(host, cfg, capsules, who, root, now);
            && (d.Allow? && d.capsule.Some? <==>
                exists c :: c in capsules && Matches(host, who, root, c) && Live(now)(c))
            && (d.Allow? && d.capsule.Some? ==>
                  && d.capsule.value in capsules && Matches(host, who, root, d.capsule.value)
                     && Live(now)(d.capsule.value)
                  && forall c <- capsules :: Matches(host, who, root, c) && Live(now)(c) ==>
                     d.capsule.value.created >= c.created)
  {
    hide Filter;
    hide Sort;
    hide Matches;
    hide Ordered;
    var live := LiveMatching(host, capsules, who, root, now);
    MatchingContents(host, capsules, who, root);
    FilterContents(Live(now), Matching(host, capsules, who, root));
    ChooseLive(host, capsules, who, root, now);
    if live != [] {
      NewestTotal();
      var k := SortFirst(NewestFirst(), live);
      assert live[k] in live;
      forall c | c in live ensures live[k].created >= c.created {
        var j :| 0 <= j < |live| && live[j] == c;
        assert NewestFirst()(live[k], live[j]);
      }
    } else {
      NoLive(host, cfg, capsules, who, root, now);
    }
  }

  lemma NoLive(host: Host, cfg: Config, capsules: seq<Capsule>, who: Principal, root: string, now: int)
    requires !who.admin && LiveMatching(host, capsules, who, root, now) == []
    ensures !(Resolve(host, cfg, capsules, who, root, now).Allow?
              && Resolve(host, cfg, capsules, who, root, now).capsule.Some?)
    ensures forall c :: c in capsules && Matches(host, who, root, c) ==> !Live(now)(c)
  {
    hide Filter;
    hide Sort;
    hide Matches;
    MatchingContents(host, capsules, who, root);
    FilterContents(Live(now), Matching(host, capsules, who, root));
    ChooseLive(host, capsules, who, root, now);
    var ordered := Ordered(capsules, who, root, ProjectFor(host, who, root));
    if ordered != [] { assert ordered[0] in ordered; }
    SortNothing();
  }

  lemma SortNothing()
    ensures Sort(NewestFirst(), []) == []
  {
  }

  /** Persisting and loading changes the order of the capsules but no binding decision. */
  lemma PersistKeepsBinding(host: Host, cfg: Config, capsules: seq<Capsule>, who: Principal, root: string, now: int)
    ensures Resolve(host, cfg, Persisted(capsules), who, root, now) == Resolve(host, cfg, capsules, who, root, now)
  {
    hide Filter;
    hide Sort;
    hide Choose;
    var project := ProjectFor(host, who, root);
    var p, q := ForPrincipal(root, who.id), Bound(who, project);
    NewestTotal();
    SortFilter(NewestFirst(), p, capsules);
    SortFilter(NewestFirst(), q, Filter(p, capsules));
    SortSorted(NewestFirst(), Filter(q, Filter(p, capsules)));
    SortOfSorted(NewestFirst(), Sort(NewestFirst(), Filter(q, Filter(p, capsules))));
    SortedEmpty(Filter(p, capsules));
  }

  lemma SortedEmpty(s: seq<Capsule>)
    ensures Sort(NewestFirst(), s) == [] <==> s == []
  {
  }

  /** So a check made after a restart decides as it did before. */
  lemma RestartKeepsChecks(host: Host, cfg: Config, capsules: seq<Capsule>, who: Principal, root: string, call: Call,
                           now: int)
    requires Inv(host, capsules) && Load(host, Persisted(capsules)).Ok?
    ensures Check(host, cfg, Load(host, Persisted(capsules)).value, who, root, call, now)
            == Check(host, cfg, capsules, who, root, call, now)
  {
    hide Resolve;
    hide CheckCapsule;
    hide Load;
    ReloadIff(host, capsules);
    PersistKeepsBinding(host, cfg, capsules, who, root, now);
  }

  lemma FindMember(capsules: seq<Capsule>, c: Capsule)
    requires DistinctIds(capsules) && c in capsules
    ensures Find(capsules, c.id).Some? && capsules[Find(capsules, c.id).value] == c
  {
    var k :| 0 <= k < |capsules| && capsules[k] == c;
  }

  /** A check that allows a call under a capsule leaves room for it: reserving succeeds in that state. */
  lemma CheckedCallReserves(host: Host, cfg: Config, capsules: seq<Capsule>, who: Principal, root: string, call: Call,
                            now: int)
    requires Inv(host, capsules)
    ensures var d := Check(host, cfg, capsules, who, root, call, now);
            d.Allow? && d.capsule.Some? ==>
              && d.capsule.value in capsules && d.capsule.value.revoked.None? && d.capsule.value.expires > now
              && Reserve(capsules, d.capsule.value.id, call.mutates).Ok?
  {
    hide Filter;
    hide Sort;
    hide CheckPaths;
    hide Ordered;
    hide Matches;
    hide Candidates;
    var d := Check(host, cfg, capsules, who, root, call, now);
    if d.Allow? && d.capsule.Some? {
      BindingIsNewestLive(host, cfg, capsules, who, root, now);
      FindMember(capsules, d.capsule.value);
    }
  }

  // ---------------------------------------------------------------- the manager object

  /** Read the store entry by entry, refusing an invalid one or a repeated id. */
  method ReadStore(host: Host, stored: seq<Capsule>) returns (r: Result<seq<Capsule>, CapsuleError>)
    ensures r == Load(host, stored)
  {
    hide Loadable;
    var loaded: seq<Capsule> := [];
    var seen: set<string> := {};
    assert stored[..0] == [];
    for i := 0 to |stored|
      invariant Load(host, stored[..i]) == Ok(loaded)
      invariant forall id :: id in seen <==> Find(loaded, id).Some?
    {
      assert stored[..i + 1][..i] == stored[..i];
      if !Loadable(host, stored[i]) {
        LoadStops(host, stored, i + 1);
        return Err(BadStore);
      }
      if stored[i].id in seen {
        LoadStops(host, stored, i + 1);
        return Err(DuplicateId);
      }
      seen := seen + {stored[i].id};
      FindSnoc(loaded, stored[i]);
      loaded := loaded + [stored[i]];
    }
    assert stored[..|stored|] == stored;
    return Ok(loaded);
  }

  lemma FindSnoc(capsules: seq<Capsule>, c: Capsule)
    ensures forall id :: Find(capsules + [c], id).Some? <==> id == c.id || Find(capsules, id).Some?
  {
    assert (capsules + [c])[..|capsules|] == capsules;
  }

  class WorkspaceCapsuleManager {
    const host: Host
    const cfg: Config
    var capsules: seq<Capsule>
    var stored: seq<Capsule>

    ghost predicate Valid()
      reads this
    {
      Inv(host, capsules) && stored == Persisted(capsules)
    }

    constructor (host: Host, cfg: Config)
      ensures Valid() && capsules == [] && this.host == host && this.cfg == cfg
    {
      this.host := host;
      this.cfg := cfg;
      capsules := [];
      stored := [];
    }

    method Reload() returns (r: Result<bool, CapsuleError>)
      requires Valid()
      modifies this
      ensures Valid() && stored == old(stored) && capsules == Next(host, cfg, old(capsules), DoReload)
      ensures r.Ok? <==> forall i :: 0 <= i < |old(capsules)| ==> Safe(old(capsules)[i].limits)
    {
      hide Load;
      hide Sort;
      hide CapsuleOk;
      hide Safe;
      ReloadIff(host, capsules);
      PersistedKeepsInv(host, capsules);
      StoredStays(capsules);
      var loaded := ReadStore(host, stored);
      if loaded.Err? { return Err(loaded.error); }
      capsules := loaded.value;
      return Ok(true);
    }

    method CreateCapsule(id: string, input: Input, now: int) returns (r: Result<Capsule, CapsuleError>)
      requires Valid() && Find(capsules, id).None?
      modifies this
      ensures Valid() && capsules == Next(host, cfg, old(capsules), DoCreate(id, input, now))
      ensures r == Create(host, cfg, id, input, now)
    {
      hide Sort;
      NextKeepsInv(host, cfg, capsules, DoCreate(id, input, now));
      r := Create(host, cfg, id, input, now);
      if r.Ok? {
        capsules := capsules + [r.value];
        stored := Persisted(capsules);
      }
    }

    method RevokeCapsule(id: string, now: int) returns (r: Option<Capsule>)
      requires Valid()
      modifies this
      ensures Valid() && capsules == Next(host, cfg, old(capsules), DoRevoke(id, now))
      ensures r.Some? <==> Find(old(capsules), id).Some?
      ensures r.Some? ==> r.value in capsules && r.value.id == id && r.value.revoked.Some?
    {
      hide Sort;
      NextKeepsInv(host, cfg, capsules, DoRevoke(id, now));
      var at := Find(capsules, id);
      if at.None? { return None; }
      var c := capsules[at.value];
      if c.revoked.None? {
        c := c.(revoked := Some(now));
        capsules := capsules[at.value := c];
        stored := Persisted(capsules);
      } else {
        assert capsules[at.value := c] == capsules;
      }
      assert capsules[at.value] == c;
      return Some(c);
    }

    method ReserveCall(id: string, mutates: bool) returns (r: Result<Capsule, CapsuleError>)
      requires Valid()
      modifies this
      ensures Valid() && capsules == Next(host, cfg, old(capsules), DoReserve(id, mutates))
      ensures r.Ok? <==> Reserve(old(capsules), id, mutates).Ok?
      ensures r.Ok? ==> r.value in capsules && r.value.id == id
    {
      hide Sort;
      NextKeepsInv(host, cfg, capsules, DoReserve(id, mutates));
      var at := Find(capsules, id);
      if at.None? { return Err(NotFound); }
      var c := capsules[at.value];
      if c.calls >= c.limits.maxCalls { return Err(CallsExhausted); }
      if mutates && c.mutations >= c.limits.maxMutations { return Err(MutationsExhausted); }
      c := c.(calls := c.calls + 1);
      if mutates { c := c.(mutations := c.mutations + 1); }
      capsules := capsules[at.value := c];
      stored := Persisted(capsules);
      assert capsules[at.value] == c;
      return Ok(c);
    }
  }

  lemma StoredStays(capsules: seq<Capsule>)
    ensures Persisted(Persisted(capsules)) == Persisted(capsules)
  {
    hide Sort;
    NewestTotal();
    SortSorted(NewestFirst(), capsules);
    SortOfSorted(NewestFirst(), Persisted(capsules));
  }

  lemma {:induction false} LoadStops(host: Host, stored: seq<Capsule>, n: nat)
    requires n <= |stored| && Load(host, stored[..n]).Err?
    ensures Load(host, stored) == Load(host, stored[..n])
    decreases |stored| - n
  {
    hide Loadable;
    if n < |stored| {
      assert stored[..n + 1][..n] == stored[..n];
      LoadStops(host, stored, n + 1);
    } else {
      assert stored[..n] == stored;
    }
  }
}
