/** Themes that overwrite first-party templates: two conditions on the templates alone under which
    the order of the input does not matter, and a clash that makes it matter. */
module ThemeClash {
  import opened Common
  import opened Templates
  import opened ThemeLoader
  import opened ThemeOrder

  // ── No clash, no fork stays open ───────────────────────────────────────────

  lemma {:induction false} PathHolds(base: Env, themes: set<Theme>, s: Load, path: seq<Theme>)
    requires Grouped(base, themes) && s.committed <= themes && Holds(s.env, base, s.committed)
    requires Leads(themes, s, path)
    ensures After(s, path).committed <= themes && Holds(After(s, path).env, base, After(s, path).committed)
    decreases |path|
  {
    if path != [] {
      hide Grouped, Holds, AddRawTemplates;
      HoldsStep(base, themes, s.committed, s.env, path[0]);
      PathHolds(base, themes, Commit(s, path[0]), path[1..]);
    }
  }

  lemma LoadsAfter(env: Env, first: Env, second: Env)
    requires first.Keys !! env.Keys && second.Keys !! env.Keys && first.Keys !! second.Keys
    requires AddRawTemplates(env, first).Some? && AddRawTemplates(env, second).Some?
    ensures AddRawTemplates(env + first, second).Some?
  {
    assert Sound(env + first);
    hide Sound, AddRawTemplates;
    AddMonotone(env, env + first, second);
  }

  lemma MergeCommutes(env: Env, first: Env, second: Env)
    requires first.Keys !! second.Keys
    ensures (env + first) + second == (env + second) + first
  {
  }

  /** Of two themes that load next and clash with nothing, either still loads after the other. */
  lemma StillLoads(base: Env, themes: set<Theme>, s: Load, t: Theme, u: Theme)
    requires Grouped(base, themes) && s.committed <= themes && Holds(s.env, base, s.committed)
    requires Next(themes, s, t) && Next(themes, s, u) && t != u
    ensures Next(themes, Commit(s, t), u)
    ensures Commit(Commit(s, t), u) == Commit(Commit(s, u), t)
  {
    hide Holds, AddRawTemplates;
    Clashless(base, themes, s.committed, s.env, t);
    Clashless(base, themes, s.committed, s.env, u);
    TwoThemes(base, themes, t, u);
    hide Grouped;
    LoadsAfter(s.env, t.files, u.files);
    MergeCommutes(s.env, t.files, u.files);
    assert s.committed + {t} + {u} == s.committed + {u} + {t};
  }

  lemma TwoThemes(base: Env, themes: set<Theme>, t: Theme, u: Theme)
    requires Grouped(base, themes) && t in themes && u in themes && t != u
    ensures t.files.Keys !! u.files.Keys
  {
    forall n <- t.files.Keys ensures n !in u.files.Keys {
      assert FirstSegment(n) == t.slug != u.slug;
    }
  }

  /** Where no theme clashes with a first-party template every fork closes, so the order does not
      matter. */
  lemma NoClashConfluent(base: Env, themes: set<Theme>)
    requires Grouped(base, themes)
    ensures Confluent(themes, Load({}, base)) && OrderIrrelevant(themes, Load({}, base))
  {
    var start := Load({}, base);
    assert Holds(base, base, {});
    forall s, t, u | Reaches(themes, start, s) && Next(themes, s, t) && Next(themes, s, u)
      ensures Joinable(themes, Commit(s, t), Commit(s, u))
    {
      var path :| Leads(themes, start, path) && After(start, path) == s;
      PathHolds(base, themes, start, path);
      CloseFork(base, themes, s, t, u);
    }
    OrderIrrelevantIff(themes, base);
  }

  lemma CloseFork(base: Env, themes: set<Theme>, s: Load, t: Theme, u: Theme)
    requires Grouped(base, themes) && s.committed <= themes && Holds(s.env, base, s.committed)
    requires Next(themes, s, t) && Next(themes, s, u)
    ensures Joinable(themes, Commit(s, t), Commit(s, u))
  {
    hide Grouped, Holds, Next, Reaches;
    if t == u {
      ReachesSelf(themes, Commit(s, t));
    } else {
      StillLoads(base, themes, s, t, u);
      StillLoads(base, themes, s, u, t);
      ReachesNext(themes, Commit(s, t), u);
      ReachesNext(themes, Commit(s, u), t);
    }
  }

  // ── With a clash ───────────────────────────────────────────────────────────

  lemma TwoTemplates(env: Env, a: string, b: string)
    requires a != b && env.Keys == {a, b}
    requires forall n <- env.Keys :: env[n].parses && env[n].imports <= env.Keys
    requires env[a].parent == None || env[a].parent == Some(b)
    requires env[b].parent == None || env[b].parent == Some(a)
    ensures Sound(env) <==> env[a].parent.None? || env[b].parent.None?
  {
    assert |env| == |env.Keys| == 2;
    assert ChainEnds(env, a, 2) <==> env[a].parent.None? || env[b].parent.None?;
    assert ChainEnds(env, b, 2) <==> env[a].parent.None? || env[b].parent.None?;
  }

  lemma RetryTwo(s: Load, t: Theme, u: Theme)
    requires Loads(s, t)
    ensures Loads(Commit(s, t), u) ==> Retry(s, [t, u]) == Commit(Commit(s, t), u)
    ensures !Loads(Commit(s, t), u) ==> Retry(s, [t, u]) == Commit(s, t)
  {
    var next := Commit(s, t);
    RetryOnce(s, [t, u]);
    RetryOnce(next, [u]);
    hide Loads, Retry;
    assert [t, u][1..] == [u] && [u][1..] == [];
    assert Pass(s, [t, u]) == Pass(next, [u]) && Deferred(s, [t, u]) == Deferred(next, [u]);
    if Loads(next, u) {
      NothingLeft(Commit(next, u));
    } else {
      assert Deferred(next, [u]) == [u] && Pass(next, [u]) == next;
    }
  }

  lemma TwoOrders(t: Theme, u: Theme)
    requires t != u
    ensures Order({t, u}, [t, u]) && Order({t, u}, [u, t])
  {
  }

  /** Without the clash condition the order does matter: of any two first-party templates grouped
      under different slugs, one theme overwrites each by extending the other. Either theme loads
      alone and shuts the other out. */
  lemma OrderMattersOnClash(a: string, b: string) returns (base: Env, left: Theme, right: Theme)
    requires FirstSegment(a) != FirstSegment(b)
    ensures Sound(base) && left.slug == FirstSegment(a) && left.files.Keys == {a}
    ensures right.slug == FirstSegment(b) && right.files.Keys == {b}
    ensures AddRawTemplates(base, left.files).Some? && AddRawTemplates(base, right.files).Some?
    ensures AddRawTemplates(base + left.files, right.files).None?
    ensures AddRawTemplates(base + right.files, left.files).None?
    ensures !OrderIrrelevant({left, right}, Load({}, base))
  {
    var root := Template(true, None, {});
    base := map[a := root, b := root];
    left := Theme(FirstSegment(a), map[a := Template(true, Some(b), {})]);
    right := Theme(FirstSegment(b), map[b := Template(true, Some(a), {})]);
    hide FirstSegment, Sound, Retry;
    TwoTemplates(base, a, b);
    TwoTemplates(base + left.files, a, b);
    TwoTemplates(base + right.files, a, b);
    TwoTemplates((base + left.files) + right.files, a, b);
    TwoTemplates((base + right.files) + left.files, a, b);
    var start := Load({}, base);
    TwoOrders(left, right);
    RetryTwo(start, left, right);
    RetryTwo(start, right, left);
    assert left in Retry(start, [left, right]).committed && left !in Retry(start, [right, left]).committed;
  }

  // ── Where no inheritance can cycle ─────────────────────────────────────────

  function Rank(rank: map<string, nat>, name: string): nat { if name in rank then rank[name] else 0 }

  /** Every template extends one of a lower rank. */
  ghost predicate Descends(rank: map<string, nat>, env: Env) {
    forall n <- env.Keys :: env[n].parent.Some? ==> Rank(rank, env[n].parent.value) < Rank(rank, n)
  }

  /** The inheritance edges of the first-party templates and of all themes together have no cycle. */
  ghost predicate Acyclic(base: Env, themes: set<Theme>) {
    exists rank :: Descends(rank, base) && forall t <- themes :: Descends(rank, t.files)
  }

  /** Slugs differ, so no two themes have a template of the same name. */
  ghost predicate Apart(themes: set<Theme>) {
    forall t <- themes, u <- themes :: t != u ==> t.files.Keys !! u.files.Keys
  }

  lemma {:induction false} LeavesAlone(env: Env, name: string, fuel: nat)
    requires LeavesBatch(env, {}, name, fuel)
    ensures ChainEnds(env, name, fuel)
    decreases fuel
  {
    if env[name].parent.Some? { LeavesAlone(env, env[name].parent.value, fuel - 1); }
  }

  lemma {:induction false} RankedChainEnds(env: Env, rank: map<string, nat>, name: string)
    requires Descends(rank, env) && name in env
    requires forall n <- env.Keys :: env[n].parent.Some? ==> env[n].parent.value in env
    ensures ChainEnds(env, name, Rank(rank, name))
    decreases Rank(rank, name)
  {
    if env[name].parent.Some? {
      var p := env[name].parent.value;
      RankedChainEnds(env, rank, p);
      ChainMonotone(env, env, p, Rank(rank, p), Rank(rank, name) - 1);
    }
  }

  /** With ranks, targets that exist are all that a sound environment takes. */
  lemma RankedIsSound(env: Env, rank: map<string, nat>)
    requires Descends(rank, env)
    requires forall n <- env.Keys :: env[n].parses && env[n].imports <= env.Keys
    requires forall n <- env.Keys :: env[n].parent.Some? ==> env[n].parent.value in env
    ensures Sound(env)
  {
    forall n <- env.Keys ensures ChainEnds(env, n, |env|) {
      RankedChainEnds(env, rank, n);
      EndsThenLeaves(env, env, {}, n, Rank(rank, n));
      LeavesWithinSize(env, {}, n, Rank(rank, n));
      LeavesAlone(env, n, |env| - 1);
      ChainMonotone(env, env, n, |env| - 1, |env|);
    }
  }

  lemma ParentsExist(env: Env)
    requires Sound(env)
    ensures forall n <- env.Keys :: env[n].parses && env[n].imports <= env.Keys
    ensures forall n <- env.Keys :: env[n].parent.Some? ==> env[n].parent.value in env
  {
    forall n <- env.Keys | env[n].parent.Some? ensures env[n].parent.value in env {
      assert ChainEnds(env, env[n].parent.value, |env| - 1);
    }
  }

  lemma DescendsMerge(rank: map<string, nat>, env: Env, batch: Env)
    requires Descends(rank, env) && Descends(rank, batch)
    ensures Descends(rank, env + batch)
  {
  }

  /** With ranks, two batches that load one by one also load together. */
  lemma RankedLoadsAfter(rank: map<string, nat>, env: Env, first: Env, second: Env)
    requires Descends(rank, env) && Descends(rank, first) && Descends(rank, second) && first.Keys !! second.Keys
    requires AddRawTemplates(env, first).Some? && AddRawTemplates(env, second).Some?
    ensures AddRawTemplates(env + first, second).Some?
  {
    ParentsExist(env + first);
    ParentsExist(env + second);
    var all := (env + first) + second;
    DescendsMerge(rank, env, first);
    DescendsMerge(rank, env + first, second);
    hide Sound, Descends;
    forall n <- all.Keys
      ensures all[n].parses && all[n].imports <= all.Keys && (all[n].parent.Some? ==> all[n].parent.value in all)
    {
      if n in second {
        assert all[n] == (env + second)[n];
      } else {
        assert all[n] == (env + first)[n];
      }
    }
    RankedIsSound(all, rank);
  }

  lemma {:induction false} PathDescends(rank: map<string, nat>, themes: set<Theme>, s: Load, path: seq<Theme>)
    requires Descends(rank, s.env) && forall t <- themes :: Descends(rank, t.files)
    requires Leads(themes, s, path)
    ensures Descends(rank, After(s, path).env)
    decreases |path|
  {
    if path != [] {
      DescendsMerge(rank, s.env, path[0].files);
      hide Descends, Loads;
      PathDescends(rank, themes, Commit(s, path[0]), path[1..]);
    }
  }

  lemma RankedCloseFork(rank: map<string, nat>, themes: set<Theme>, s: Load, t: Theme, u: Theme)
    requires Descends(rank, s.env) && (forall t <- themes :: Descends(rank, t.files)) && Apart(themes)
    requires Next(themes, s, t) && Next(themes, s, u)
    ensures Joinable(themes, Commit(s, t), Commit(s, u))
  {
    hide Descends, AddRawTemplates, Reaches;
    if t == u {
      ReachesSelf(themes, Commit(s, t));
    } else {
      RankedLoadsAfter(rank, s.env, t.files, u.files);
      RankedLoadsAfter(rank, s.env, u.files, t.files);
      MergeCommutes(s.env, t.files, u.files);
      ReachesNext(themes, Commit(s, t), u);
      ReachesNext(themes, Commit(s, u), t);
      assert s.committed + {t} + {u} == s.committed + {u} + {t};
    }
  }

  /** Where the inheritance edges of all templates together have no cycle, clash or not, every fork
      closes and the order does not matter. */
  lemma AcyclicConfluent(base: Env, themes: set<Theme>)
    requires Acyclic(base, themes) && Apart(themes)
    ensures Confluent(themes, Load({}, base)) && OrderIrrelevant(themes, Load({}, base))
  {
    var rank :| Descends(rank, base) && forall t <- themes :: Descends(rank, t.files);
    var start := Load({}, base);
    hide Descends;
    forall s, t, u | Reaches(themes, start, s) && Next(themes, s, t) && Next(themes, s, u)
      ensures Joinable(themes, Commit(s, t), Commit(s, u))
    {
      var path :| Leads(themes, start, path) && After(start, path) == s;
      PathDescends(rank, themes, start, path);
      RankedCloseFork(rank, themes, s, t, u);
    }
    OrderIrrelevantIff(themes, base);
  }

  lemma FlatDescends(env: Env)
    requires forall n <- env.Keys :: env[n].parent.None?
    ensures Descends(map[], env)
  {
  }

  lemma BothLoad(base: Env, a: string, b: string, left: Theme, right: Theme)
    requires a != b && base == map[a := Template(true, None, {}), b := Template(true, None, {})]
    requires left.files == map[a := Template(true, None, {b})] && right.files == map[b := Template(true, None, {a})]
    ensures Sound(base)
    ensures Retry(Load({}, base), [left, right]).committed == {left, right}
  {
    hide Sound, Retry;
    TwoTemplates(base, a, b);
    TwoTemplates(base + left.files, a, b);
    TwoTemplates((base + left.files) + right.files, a, b);
    RetryTwo(Load({}, base), left, right);
    assert {} + {left} + {right} == {left, right};
  }

  /** So a clash alone does not make the order matter: where the two overwriting templates extend
      nothing, both themes load in either order. */
  lemma OrderNeedNotMatterOnClash(a: string, b: string) returns (base: Env, left: Theme, right: Theme)
    requires FirstSegment(a) != FirstSegment(b)
    ensures Sound(base) && left.slug == FirstSegment(a) && left.files.Keys == {a}
    ensures right.slug == FirstSegment(b) && right.files.Keys == {b} && base.Keys == {a, b}
    ensures OrderIrrelevant({left, right}, Load({}, base))
    ensures Retry(Load({}, base), [left, right]).committed == {left, right}
  {
    var root := Template(true, None, {});
    base := map[a := root, b := root];
    left := Theme(FirstSegment(a), map[a := Template(true, None, {b})]);
    right := Theme(FirstSegment(b), map[b := Template(true, None, {a})]);
    hide FirstSegment, Sound, Retry, Descends, Confluent, OrderIrrelevant;
    FlatDescends(base);
    FlatDescends(left.files);
    FlatDescends(right.files);
    AcyclicConfluent(base, {left, right});
    BothLoad(base, a, b, left, right);
  }
}
