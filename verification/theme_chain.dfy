/** Which theme supplies a page: the walk from the active theme up its parents, and the first
    template of that walk that was actually loaded. */
module ThemeChain {
  import opened Common
  import opened Templates
  import opened ThemeLoader

  const DEFAULT_THEME_SLUG := "default"

  /** The theme table maps a slug to its parent's slug. The walk stops at the default theme, at a
      slug without a row and at a theme that is its own parent. */
  function Parent(table: map<string, string>, slug: string): Option<string> {
    if slug != DEFAULT_THEME_SLUG && slug in table && table[slug] != slug then Some(table[slug]) else None
  }

  function Last<T>(s: seq<T>): T
    requires s != []
  {
    s[|s| - 1]
  }

  predicate NoRepeats(s: seq<string>) {
    forall i, j :: 0 <= i < j < |s| ==> s[i] != s[j]
  }

  /** Starts at `slug` and goes from each theme to its parent. */
  predicate IsWalk(table: map<string, string>, slug: string, walk: seq<string>) {
    && walk != [] && walk[0] == slug
    && forall i :: 0 <= i < |walk| - 1 ==> Parent(table, walk[i]) == Some(walk[i + 1])
  }

  /** The theme `steps` parents above `slug`, if the walk gets that far. */
  ghost function Ancestor(table: map<string, string>, slug: string, steps: nat): Option<string> {
    if steps == 0 then Some(slug) else
    match Ancestor(table, slug, steps - 1)
    case None => None
    case Some(s) => Parent(table, s)
  }

  ghost predicate WalkStops(table: map<string, string>, slug: string) {
    exists k: nat :: Ancestor(table, slug, k) == None
  }

  /** The walk goes up the parents until there is none, and the chain closes it with the default
      theme; or until a parent already visited, and the chain is just the walk. */
  predicate IsChain(table: map<string, string>, slug: string, walk: seq<string>, chain: seq<string>) {
    && IsWalk(table, slug, walk)
    && match Parent(table, Last(walk))
       case None => chain == walk + (if Last(walk) == DEFAULT_THEME_SLUG then [] else [DEFAULT_THEME_SLUG])
       case Some(p) => chain == walk && p in walk && p != Last(walk)
  }

  /** A chain follows the theme table row by row, and stops only at the default theme, at a theme that
      has no row or is its own parent, or before one visited already. */
  lemma ChainFollowsTable(table: map<string, string>, slug: string, walk: seq<string>, chain: seq<string>)
    requires IsChain(table, slug, walk, chain)
    ensures walk[0] == slug
    ensures forall i :: 0 <= i < |walk| - 1 ==> walk[i] != "default" && walk[i] in table && table[walk[i]] == walk[i + 1]
    ensures var last := Last(walk);
            var goesOn := last != "default" && last in table && table[last] != last;
            && (goesOn ==> table[last] in walk)
            && chain == if goesOn || last == "default" then walk else walk + ["default"]
  {
    forall i | 0 <= i < |walk| - 1 ensures walk[i] != "default" && walk[i] in table && table[walk[i]] == walk[i + 1] {
      assert Parent(table, walk[i]) == Some(walk[i + 1]);
    }
    assert walk + [] == walk;
  }

  method ResolveChain(table: map<string, string>, slug: string)
      returns (chain: seq<string>, ghost walk: seq<string>)
    ensures IsChain(table, slug, walk, chain) && NoRepeats(chain)
  {
    chain, walk := [], [];
    var current := slug;
    var seen: set<string> := {};
    ghost var reachable := table.Values + {slug};
    while true
      invariant forall s :: s in seen <==> s in chain
      invariant seen <= reachable && current in reachable
      invariant NoRepeats(chain) && DEFAULT_THEME_SLUG !in chain
      invariant if chain == [] then current == slug
                else IsWalk(table, slug, chain) && Parent(table, Last(chain)) == Some(current)
      decreases reachable - seen
    {
      if current in seen {
        walk := chain;
        break;
      }
      seen := seen + {current};
      chain := chain + [current];
      if current == DEFAULT_THEME_SLUG {
        walk := chain;
        break;
      }
      if current in table && table[current] != current {
        current := table[current];
      } else {
        walk := chain;
        if Last(chain) != DEFAULT_THEME_SLUG {
          chain := chain + [DEFAULT_THEME_SLUG];
        }
        break;
      }
    }
  }

  lemma {:induction false} WalkCycles(table: map<string, string>, slug: string, walk: seq<string>, steps: nat)
    requires IsWalk(table, slug, walk)
    requires Parent(table, Last(walk)).Some? && Parent(table, Last(walk)).value in walk
    ensures Ancestor(table, slug, steps).Some? && Ancestor(table, slug, steps).value in walk
  {
    if steps > 0 {
      WalkCycles(table, slug, walk, steps - 1);
      var i :| 0 <= i < |walk| && walk[i] == Ancestor(table, slug, steps - 1).value;
      if i < |walk| - 1 {
        assert Parent(table, walk[i]) == Some(walk[i + 1]);
      }
    }
  }

  lemma {:induction false} WalkReaches(table: map<string, string>, slug: string, walk: seq<string>, i: nat)
    requires IsWalk(table, slug, walk) && i < |walk|
    ensures Ancestor(table, slug, i) == Some(walk[i])
  {
    if i > 0 {
      WalkReaches(table, slug, walk, i - 1);
      assert Parent(table, walk[i - 1]) == Some(walk[i]);
    }
  }

  /** The chain ends in the default theme exactly when the walk up the parents comes to an end;
      otherwise it has entered a cycle and the default theme is not in the chain at all. */
  lemma DefaultLastIffWalkStops(table: map<string, string>, slug: string, chain: seq<string>, walk: seq<string>)
    requires IsChain(table, slug, walk, chain)
    ensures Last(chain) == DEFAULT_THEME_SLUG <==> WalkStops(table, slug)
    ensures DEFAULT_THEME_SLUG in chain <==> Last(chain) == DEFAULT_THEME_SLUG
  {
    WalkReaches(table, slug, walk, |walk| - 1);
    if Parent(table, Last(walk)).None? {
      assert Ancestor(table, slug, |walk|) == None;
      assert Last(chain) == DEFAULT_THEME_SLUG;
    } else {
      forall k: nat ensures Ancestor(table, slug, k).Some? {
        WalkCycles(table, slug, walk, k);
      }
      forall i | 0 <= i < |walk| ensures walk[i] != DEFAULT_THEME_SLUG {
        assert i < |walk| - 1 ==> Parent(table, walk[i]) == Some(walk[i + 1]);
      }
    }
  }

  // ── From a chain to a template ─────────────────────────────────────────────

  function PageTemplate(slug: string, page: string): string {
    slug + "/templates/" + page
  }

  /** The number of leading candidates that are not registered. */
  function MissingPrefix(env: Env, candidates: seq<string>): (n: nat)
    ensures n <= |candidates| && (n < |candidates| ==> candidates[n] in env)
    ensures forall j :: 0 <= j < n ==> candidates[j] !in env
  {
    if candidates == [] || candidates[0] in env then 0 else 1 + MissingPrefix(env, candidates[1..])
  }

  /** The first candidate that is registered. */
  function FirstExisting(env: Env, candidates: seq<string>): Option<string> {
    var n := MissingPrefix(env, candidates);
    if n < |candidates| then Some(candidates[n]) else None
  }

  /** What a page renders: the first existing candidate of the chain, or else the default theme's. */
  function TemplateFor(env: Env, chain: seq<string>, page: string): string {
    match FirstExisting(env, seq(|chain|, i requires 0 <= i < |chain| => PageTemplate(chain[i], page)))
    case Some(name) => name
    case None => PageTemplate(DEFAULT_THEME_SLUG, page)
  }

  lemma {:induction false} SegmentOfPage(slug: string, rest: string)
    requires '/' !in slug
    ensures FirstSegment(slug + "/" + rest) == slug
  {
    if slug != [] {
      SegmentOfPage(slug[1..], rest);
      assert (slug + "/" + rest)[1..] == slug[1..] + "/" + rest;
    }
  }

  /** The theme with this slug supplies the page: a first-party file, or a committed theme's own. */
  ghost predicate Supplies(base: Env, committed: set<Theme>, slug: string, page: string) {
    PageTemplate(slug, page) in base
    || exists t <- committed :: t.slug == slug && PageTemplate(slug, page) in t.files
  }

  lemma RegisteredIffSupplied(base: Env, themes: set<Theme>, committed: set<Theme>, env: Env, slug: string, page: string)
    requires Grouped(base, themes) && committed <= themes && Holds(env, base, committed)
    requires '/' !in slug
    ensures PageTemplate(slug, page) in env <==> Supplies(base, committed, slug, page)
  {
    var name := PageTemplate(slug, page);
    assert FirstSegment(name) == slug by {
      SegmentOfPage(slug, "templates/" + page);
      assert name == slug + "/" + ("templates/" + page);
    }
    hide PageTemplate, FirstSegment;
    if name in env && name !in base {
      var t :| t in committed && name in t.files;
      assert t in themes && FirstSegment(name) == t.slug;
    }
    if t :| t in committed && t.slug == slug && name in t.files {
      assert Extends(t.files, env);
    }
  }

  /** A page the default theme has always renders, whatever the chain; and it renders the template
      of the nearest theme of the chain that supplies it, if any theme of the chain does. */
  lemma NearestThemeRenders(base: Env, themes: set<Theme>, committed: set<Theme>, env: Env,
                            chain: seq<string>, page: string)
    requires Grouped(base, themes) && Saturated(base, themes, committed, env)
    requires forall s <- chain :: '/' !in s
    requires PageTemplate(DEFAULT_THEME_SLUG, page) in base
    ensures TemplateFor(env, chain, page) in env
    ensures (exists s <- chain :: Supplies(base, committed, s, page)) ==>
      exists i :: 0 <= i < |chain| && TemplateFor(env, chain, page) == PageTemplate(chain[i], page)
                  && Supplies(base, committed, chain[i], page)
                  && forall j :: 0 <= j < i ==> !Supplies(base, committed, chain[j], page)
    ensures !(exists s <- chain :: Supplies(base, committed, s, page)) ==>
      TemplateFor(env, chain, page) == PageTemplate(DEFAULT_THEME_SLUG, page)
  {
    hide Grouped, Saturated, Supplies, PageTemplate;
    var names := seq(|chain|, i requires 0 <= i < |chain| => PageTemplate(chain[i], page));
    forall i | 0 <= i < |chain|
      ensures names[i] in env <==> Supplies(base, committed, chain[i], page)
    {
      assert chain[i] in chain;
      RegisteredIffSuppliedIn(base, themes, committed, env, chain[i], page);
    }
    DefaultIsRegistered(base, themes, committed, env, page);
    if s :| s in chain && Supplies(base, committed, s, page) {
      var k :| 0 <= k < |chain| && chain[k] == s;
      assert names[k] in env;
      var i := MissingPrefix(env, names);
      assert TemplateFor(env, chain, page) == PageTemplate(chain[i], page);
      assert forall j :: 0 <= j < i ==> names[j] !in env;
    }
  }

  lemma RegisteredIffSuppliedIn(base: Env, themes: set<Theme>, committed: set<Theme>, env: Env, slug: string, page: string)
    requires Grouped(base, themes) && Saturated(base, themes, committed, env) && '/' !in slug
    ensures PageTemplate(slug, page) in env <==> Supplies(base, committed, slug, page)
  {
    hide Grouped, Holds, Sound, Supplies, AddRawTemplates;
    RegisteredIffSupplied(base, themes, committed, env, slug, page);
  }

  lemma DefaultIsRegistered(base: Env, themes: set<Theme>, committed: set<Theme>, env: Env, page: string)
    requires Saturated(base, themes, committed, env) && PageTemplate(DEFAULT_THEME_SLUG, page) in base
    ensures PageTemplate(DEFAULT_THEME_SLUG, page) in env
  {
    hide Sound, AddRawTemplates;
  }
}
