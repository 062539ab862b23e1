/** Loading every theme into one template environment.

    First-party templates fail closed; user-installed themes are committed one whole batch at a
    time, and retried in passes until a pass commits nothing. */
module ThemeLoader {
  import opened Common
  import opened Templates
  import opened FirstPartyTemplates

  datatype Theme = Theme(slug: string, files: Env)

  /** What a template name starts with, up to the first slash: the slug its file was grouped under. */
  function FirstSegment(name: string): string {
    if name == [] || name[0] == '/' then [] else [name[0]] + FirstSegment(name[1..])
  }

  // ── Sets of committed themes ───────────────────────────────────────────────

  /** Themes as the directory walk groups them: slugs differ and each template name starts with the
      slug of its theme; and no theme brings a template of the same name as a first-party one. */
  ghost predicate Grouped(base: Env, themes: set<Theme>) {
    && (forall t <- themes, u <- themes :: t.slug == u.slug ==> t == u)
    && (forall t <- themes, n <- t.files.Keys :: FirstSegment(n) == t.slug)
    && (forall t <- themes :: t.files.Keys !! base.Keys)
  }

  /** `env` holds the first-party templates and those of exactly the themes in `committed`. */
  ghost predicate Holds(env: Env, base: Env, committed: set<Theme>) {
    && Extends(base, env)
    && (forall t <- committed :: Extends(t.files, env))
    && (forall n <- env.Keys :: n in base || exists t <- committed :: n in t.files)
  }

  /** A set of themes that is consistent as it stands and to which no other theme can be added. */
  ghost predicate Saturated(base: Env, themes: set<Theme>, committed: set<Theme>, env: Env) {
    && committed <= themes
    && Holds(env, base, committed)
    && Sound(env)
    && forall t <- themes - committed :: AddRawTemplates(env, t.files).None?
  }

  ghost function NamesOf(themes: set<Theme>): set<string> {
    set t, n | t in themes && n in t.files.Keys :: n
  }

  /** Holds every theme whose templates parse and whose targets are first-party, in its own batch or
      in a theme of the set, without a cycle in the batch. */
  ghost predicate Closed(base: Env, themes: set<Theme>, c: set<Theme>) {
    forall t <- themes :: Loadable(t.files, base.Keys + NamesOf(c)) ==> t in c
  }

  /** Included in every closed set. */
  ghost predicate BelowAll(base: Env, themes: set<Theme>, committed: set<Theme>) {
    forall c :: Closed(base, themes, c) ==> committed <= c
  }

  /** What the retry loop over `themes` is to come to: saturated, and below every closed set. */
  ghost predicate Outcome(base: Env, themes: set<Theme>, committed: set<Theme>, env: Env) {
    Saturated(base, themes, committed, env) && BelowAll(base, themes, committed)
  }

  lemma Clashless(base: Env, themes: set<Theme>, committed: set<Theme>, env: Env, t: Theme)
    requires Grouped(base, themes) && committed <= themes && Holds(env, base, committed)
    requires t in themes && t !in committed
    ensures t.files.Keys !! env.Keys
  {
    forall n <- t.files.Keys ensures n !in env {
      assert FirstSegment(n) == t.slug;
      assert n !in base;
      forall u <- committed ensures n !in u.files {
        assert u in themes && u.slug != t.slug;
      }
    }
  }

  /** What the environment of a set holds, the environment of a larger set holds too. */
  lemma HoldsExtends(base: Env, small: set<Theme>, env: Env, large: set<Theme>, top: Env)
    requires small <= large && Holds(env, base, small) && Holds(top, base, large)
    ensures Extends(env, top)
  {
    forall n <- env.Keys ensures n in top && top[n] == env[n] {
      if n !in base {
        var u :| u in small && n in u.files;
        assert u in large;
      }
    }
  }

  /** Two environments of the same set are the same environment. */
  lemma HoldsUnique(base: Env, committed: set<Theme>, env: Env, other: Env)
    requires Holds(env, base, committed) && Holds(other, base, committed)
    ensures env == other
  {
    HoldsExtends(base, committed, env, committed, other);
    HoldsExtends(base, committed, other, committed, env);
  }

  lemma HoldsNames(base: Env, committed: set<Theme>, env: Env)
    requires Holds(env, base, committed)
    ensures env.Keys == base.Keys + NamesOf(committed)
  {
    forall n | n in NamesOf(committed) ensures n in env.Keys {
      var t :| t in committed && n in t.files.Keys;
      assert Extends(t.files, env);
    }
  }

  /** A saturated set is closed. */
  lemma SaturatedIsClosed(base: Env, themes: set<Theme>, committed: set<Theme>, env: Env)
    requires Grouped(base, themes) && Saturated(base, themes, committed, env)
    ensures Closed(base, themes, committed)
  {
    HoldsNames(base, committed, env);
    hide Loadable, AddRawTemplates, Holds;
    forall t <- themes | t !in committed ensures !Loadable(t.files, base.Keys + NamesOf(committed)) {
      Clashless(base, themes, committed, env, t);
      LoadsIffLoadable(env, t.files);
    }
  }

  /** A theme that loads over a part of a closed set belongs to it. */
  lemma ForcedIn(base: Env, themes: set<Theme>, committed: set<Theme>, env: Env, t: Theme, c: set<Theme>)
    requires Grouped(base, themes) && committed <= themes && Holds(env, base, committed) && Sound(env)
    requires t in themes && t !in committed && AddRawTemplates(env, t.files).Some?
    requires Closed(base, themes, c) && committed <= c
    ensures t in c
  {
    HoldsNames(base, committed, env);
    Clashless(base, themes, committed, env, t);
    hide Loadable, AddRawTemplates, Holds, Sound;
    LoadsIffLoadable(env, t.files);
    LoadableWithMore(t.files, env.Keys, base.Keys + NamesOf(c));
  }

  lemma HoldsStep(base: Env, themes: set<Theme>, committed: set<Theme>, env: Env, t: Theme)
    requires Grouped(base, themes) && committed <= themes && Holds(env, base, committed)
    requires t in themes && t !in committed
    ensures Holds(env + t.files, base, committed + {t})
  {
    Clashless(base, themes, committed, env, t);
    forall u <- committed + {t} ensures Extends(u.files, env + t.files) {
      if u != t {
        assert Extends(u.files, env);
      }
    }
    forall n <- (env + t.files).Keys
      ensures n in base || exists u <- committed + {t} :: n in u.files
    {
      if n in t.files {
        assert t in committed + {t};
      } else if n !in base {
        var u :| u in committed && n in u.files;
        assert u in committed + {t};
      }
    }
  }

  // What the retry loop keeps: the environment is sound, holds exactly what was committed, and
  // nothing was committed that some closed set could do without.
  ghost predicate Committing(base: Env, themes: set<Theme>, committed: set<Theme>, env: Env) {
    && committed <= themes
    && Holds(env, base, committed)
    && Sound(env)
    && BelowAll(base, themes, committed)
  }

  lemma CommitStep(base: Env, themes: set<Theme>, committed: set<Theme>, env: Env, t: Theme)
    requires Grouped(base, themes) && Committing(base, themes, committed, env)
    requires t in themes && t !in committed && AddRawTemplates(env, t.files).Some?
    ensures Committing(base, themes, committed + {t}, env + t.files)
  {
    HoldsStep(base, themes, committed, env, t);
    forall c | Closed(base, themes, c) ensures committed + {t} <= c {
      ForcedIn(base, themes, committed, env, t, c);
    }
  }

  // ── The loader ─────────────────────────────────────────────────────────────

  ghost function Elements(themes: seq<Theme>): set<Theme> {
    set t <- themes
  }

  predicate Distinct(themes: seq<Theme>) {
    forall i, j :: 0 <= i < j < |themes| ==> themes[i] != themes[j]
  }

  /** The committed themes and the two lists of themes still to be tried make up all the themes. */
  ghost predicate Split(themes: set<Theme>, committed: set<Theme>, deferred: seq<Theme>, rest: seq<Theme>) {
    && committed + Elements(deferred) + Elements(rest) == themes
    && Distinct(deferred) && Distinct(rest)
    && Elements(deferred) !! Elements(rest) !! committed
  }

  lemma DistinctTail(list: seq<Theme>)
    requires Distinct(list) && list != []
    ensures Distinct(list[1..]) && list[0] !in Elements(list[1..])
    ensures Elements(list) == {list[0]} + Elements(list[1..])
  {
    assert list == [list[0]] + list[1..];
  }

  lemma DistinctCons(t: Theme, list: seq<Theme>)
    requires Distinct(list) && t !in Elements(list)
    ensures Distinct([t] + list) && Elements([t] + list) == {t} + Elements(list)
  {
  }

  lemma DistinctSnoc(list: seq<Theme>, t: Theme)
    requires Distinct(list) && t !in Elements(list)
    ensures Distinct(list + [t]) && Elements(list + [t]) == Elements(list) + {t}
  {
  }

  lemma NoElements()
    ensures Distinct([]) && Elements([]) == {}
  {
  }

  lemma TakeNext(themes: set<Theme>, committed: set<Theme>, deferred: seq<Theme>, rest: seq<Theme>)
    requires rest != [] && Split(themes, committed, deferred, rest)
    ensures rest[0] in themes && rest[0] !in committed
    ensures Split(themes, committed + {rest[0]}, deferred, rest[1..])
    ensures Split(themes, committed, deferred + [rest[0]], rest[1..])
  {
    hide Distinct, Elements;
    DistinctTail(rest);
    DistinctSnoc(deferred, rest[0]);
  }

  // ── What a given order of the input comes to ───────────────────────────────

  /** The themes committed so far and the environment they made. */
  datatype Load = Load(committed: set<Theme>, env: Env)

  function Commit(s: Load, t: Theme): Load { Load(s.committed + {t}, s.env + t.files) }

  predicate Loads(s: Load, t: Theme) { AddRawTemplates(s.env, t.files).Some? }

  /** One pass: each theme in turn is committed if it loads over what is there by then. */
  function Pass(s: Load, pending: seq<Theme>): Load
    decreases |pending|
  {
    if pending == [] then s else Pass(if Loads(s, pending[0]) then Commit(s, pending[0]) else s, pending[1..])
  }

  /** The themes a pass leaves for the next one. */
  function Deferred(s: Load, pending: seq<Theme>): (deferred: seq<Theme>)
    ensures |deferred| <= |pending|
    decreases |pending|
  {
    if pending == [] then []
    else if Loads(s, pending[0]) then Deferred(Commit(s, pending[0]), pending[1..])
    else [pending[0]] + Deferred(s, pending[1..])
  }

  /** Passes until one commits nothing. */
  function Retry(s: Load, pending: seq<Theme>): Load
    decreases |pending|
  {
    if |Deferred(s, pending)| == |pending| then Pass(s, pending)
    else Retry(Pass(s, pending), Deferred(s, pending))
  }

  /** The batch adds the passes make, and one more for each theme that is left when a pass commits
      nothing, to report why it fails. */
  function BatchAdds(s: Load, pending: seq<Theme>): nat
    decreases |pending|
  {
    if |Deferred(s, pending)| == |pending| then 2 * |pending|
    else |pending| + BatchAdds(Pass(s, pending), Deferred(s, pending))
  }

  function Passes(s: Load, pending: seq<Theme>): nat
    decreases |pending|
  {
    if pending == [] then 0
    else if |Deferred(s, pending)| == |pending| then 1
    else 1 + Passes(Pass(s, pending), Deferred(s, pending))
  }

  function Triangle(n: nat): nat { n * (n + 1) / 2 }

  lemma TriangleStep(n: nat)
    requires n > 0
    ensures Triangle(n) == Triangle(n - 1) + n
  {}

  lemma TriangleMonotone(m: nat, n: nat)
    requires m <= n
    ensures 0 <= Triangle(m) <= Triangle(n)
  {
    assert m * (m + 1) <= n * (n + 1) by {
      assert n * (n + 1) == m * (m + 1) + (n - m) * (n + m + 1);
    }
  }

  lemma TwiceFits(k: nat)
    ensures 2 * k <= Triangle(k) + 1
  {
    assert (k - 1) * (k - 2) >= 0;
    assert k * (k + 1) + 2 - 4 * k == (k - 1) * (k - 2);
  }

  lemma {:induction false} AllDeferred(s: Load, pending: seq<Theme>)
    requires |Deferred(s, pending)| == |pending|
    ensures Pass(s, pending) == s && Deferred(s, pending) == pending
    decreases |pending|
  {
    hide Loads;
    if pending != [] {
      assert !Loads(s, pending[0]);
      AllDeferred(s, pending[1..]);
      assert pending == [pending[0]] + pending[1..];
    }
  }

  lemma RetryOnce(s: Load, pending: seq<Theme>)
    ensures if |Deferred(s, pending)| == |pending| then Retry(s, pending) == Pass(s, pending) == s
            else Retry(s, pending) == Retry(Pass(s, pending), Deferred(s, pending))
    ensures if |Deferred(s, pending)| == |pending| then BatchAdds(s, pending) == 2 * |pending|
            else BatchAdds(s, pending) == |pending| + BatchAdds(Pass(s, pending), Deferred(s, pending))
    ensures pending != [] ==>
      if |Deferred(s, pending)| == |pending| then Passes(s, pending) == 1
      else Passes(s, pending) == 1 + Passes(Pass(s, pending), Deferred(s, pending))
  {
    if |Deferred(s, pending)| == |pending| { AllDeferred(s, pending); }
  }

  lemma PassOnce(s: Load, pending: seq<Theme>, i: nat)
    requires i < |pending|
    ensures var t := pending[i];
            match AddRawTemplates(s.env, t.files)
            case Some(env) =>
              && env == s.env + t.files
              && Pass(s, pending[i..]) == Pass(Load(s.committed + {t}, env), pending[i + 1..])
              && Deferred(s, pending[i..]) == Deferred(Load(s.committed + {t}, env), pending[i + 1..])
            case None =>
              && Pass(s, pending[i..]) == Pass(s, pending[i + 1..])
              && Deferred(s, pending[i..]) == [t] + Deferred(s, pending[i + 1..])
  {
    hide Sound;
    assert pending[i..][1..] == pending[i + 1..];
  }

  // What holds between two steps of a pass: `deferred` failed in it, `rest` is still to be tried.
  ghost predicate InPass(base: Env, themes: set<Theme>, committed: set<Theme>, env: Env,
                         deferred: seq<Theme>, rest: seq<Theme>) {
    && Split(themes, committed, deferred, rest)
    && Sound(env)
    && (Grouped(base, themes) ==> Committing(base, themes, committed, env))
  }

  ghost predicate Rejected(env: Env, themes: seq<Theme>) {
    forall t <- themes :: AddRawTemplates(env, t.files).None?
  }

  lemma PassStep(base: Env, themes: set<Theme>, committed: set<Theme>, env: Env,
                 deferred: seq<Theme>, rest: seq<Theme>)
    requires rest != [] && InPass(base, themes, committed, env, deferred, rest)
    ensures match AddRawTemplates(env, rest[0].files)
            case Some(e) => InPass(base, themes, committed + {rest[0]}, e, deferred, rest[1..])
            case None => InPass(base, themes, committed, env, deferred + [rest[0]], rest[1..])
  {
    TakeNext(themes, committed, deferred, rest);
    if AddRawTemplates(env, rest[0].files).Some? && Grouped(base, themes) {
      CommitStep(base, themes, committed, env, rest[0]);
    }
  }

  lemma Requeue(base: Env, themes: set<Theme>, committed: set<Theme>, env: Env, deferred: seq<Theme>)
    requires InPass(base, themes, committed, env, deferred, [])
    ensures InPass(base, themes, committed, env, [], deferred)
  {
    hide Sound, Grouped, Committing, Elements, Distinct;
    NoElements();
  }

  lemma RejectedToo(env: Env, deferred: seq<Theme>, t: Theme)
    requires Rejected(env, deferred) && AddRawTemplates(env, t.files).None?
    ensures Rejected(env, deferred + [t])
  {}

  /** One pass over the pending themes: each is tried against a copy of the environment, which
      replaces it on success; the others are deferred in order. */
  method OnePass(env: Env, pending: seq<Theme>, ghost base: Env, ghost themes: set<Theme>, ghost earlier: set<Theme>)
      returns (tera: Env, deferred: seq<Theme>, progressed: bool, ghost committed: set<Theme>)
    requires InPass(base, themes, earlier, env, [], pending)
    ensures InPass(base, themes, committed, tera, [], deferred)
    ensures if progressed then |deferred| < |pending| else tera == env && Rejected(env, deferred)
    ensures Load(committed, tera) == Pass(Load(earlier, env), pending)
    ensures deferred == Deferred(Load(earlier, env), pending) && (!progressed ==> deferred == pending)
  {
    hide InPass, AddRawTemplates, Pass, Deferred;
    assert pending[0..] == pending;
    tera, deferred, progressed, committed := env, [], false, earlier;
    var i := 0;
    while i < |pending|
      invariant 0 <= i <= |pending|
      invariant InPass(base, themes, committed, tera, deferred, pending[i..])
      invariant |deferred| <= i
      invariant if progressed then |deferred| < i else tera == env && Rejected(env, deferred)
      invariant Pass(Load(committed, tera), pending[i..]) == Pass(Load(earlier, env), pending)
      invariant deferred + Deferred(Load(committed, tera), pending[i..]) == Deferred(Load(earlier, env), pending)
      invariant !progressed ==> deferred == pending[..i]
    {
      var theme := pending[i];
      PassStep(base, themes, committed, tera, deferred, pending[i..]);
      PassOnce(Load(committed, tera), pending, i);
      assert pending[i..][1..] == pending[i + 1..];
      assert pending[..i + 1] == pending[..i] + [theme];
      match AddRawTemplates(tera, theme.files) {
        case Some(candidate) =>
          tera, progressed, committed := candidate, true, committed + {theme};
        case None =>
          if !progressed { RejectedToo(tera, deferred, theme); }
          ghost var later := Deferred(Load(committed, tera), pending[i + 1..]);
          assert (deferred + [theme]) + later == deferred + ([theme] + later);
          deferred := deferred + [theme];
      }
      i := i + 1;
    }
    assert pending[i..] == [] && pending[..i] == pending;
    NothingLeft(Load(committed, tera));
    assert deferred + [] == deferred;
    Requeue(base, themes, committed, tera, deferred);
  }

  lemma NothingLeft(s: Load)
    ensures Pass(s, []) == s && Deferred(s, []) == [] && Retry(s, []) == s
    ensures BatchAdds(s, []) == 0 && Passes(s, []) == 0
  {
  }

  /** For n themes at most n passes, and at most n(n+1)/2 batch adds and one more. */
  lemma {:induction false} RetryBounds(s: Load, pending: seq<Theme>)
    ensures Passes(s, pending) <= |pending|
    ensures BatchAdds(s, pending) <= Triangle(|pending|) + 1
    decreases |pending|
  {
    hide *;
    RetryOnce(s, pending);
    var deferred := Deferred(s, pending);
    if pending == [] { NothingLeft(s); }
    if |deferred| == |pending| {
      TwiceFits(|pending|);
    } else {
      RetryBounds(Pass(s, pending), deferred);
      TriangleMonotone(|deferred|, |pending| - 1);
      TriangleStep(|pending|);
    }
  }

  /** The one more is real: a theme on its own that does not load is tried twice. */
  lemma OrphanTriedTwice(s: Load, t: Theme)
    requires !Loads(s, t)
    ensures BatchAdds(s, [t]) == 2 == Triangle(1) + 1 && Passes(s, [t]) == 1
  {
    hide Loads;
    assert [t][1..] == [];
  }

  /** What the invariant says once nothing is left that loads. */
  lemma PassesDone(base: Env, themes: set<Theme>, committed: set<Theme>, env: Env, pending: seq<Theme>)
    requires InPass(base, themes, committed, env, [], pending) && Rejected(env, pending)
    ensures Sound(env) && committed <= themes
    ensures forall t <- themes - committed :: AddRawTemplates(env, t.files).None?
    ensures themes - committed == Elements(pending)
    ensures Elements([]) == {}
    ensures Grouped(base, themes) ==> Outcome(base, themes, committed, env)
  {
    hide Sound, Holds, AddRawTemplates, Grouped, Distinct;
    assert Elements([]) == {};
    assert themes - committed == Elements(pending);
  }

  lemma Started(base: Env, themes: set<Theme>, pending: seq<Theme>)
    requires Sound(base) && Distinct(pending) && themes == Elements(pending)
    ensures InPass(base, themes, {}, base, [], pending)
  {
    NoElements();
  }

  /** Exactly the skipped themes are reported, every one with an error found. */
  ghost predicate Reports(reported: seq<(string, bool)>, skipped: set<Theme>) {
    && (forall t <- skipped :: (t.slug, true) in reported)
    && (forall r <- reported :: r.1 && exists t <- skipped :: t.slug == r.0)
  }

  /** Tries every theme once more, for the error message; true stands for an error found. */
  method ReportSkipped(tera: Env, deferred: seq<Theme>) returns (reported: seq<(string, bool)>, attempts: nat)
    ensures Rejected(tera, deferred) ==> Reports(reported, Elements(deferred))
    ensures attempts == |deferred|
  {
    reported, attempts := [], 0;
    for i := 0 to |deferred|
      invariant |reported| == i == attempts
      invariant forall j :: 0 <= j < i ==>
        reported[j] == (deferred[j].slug, AddRawTemplates(tera, deferred[j].files).None?)
    {
      var failed := AddRawTemplates(tera, deferred[i].files).None?;
      reported, attempts := reported + [(deferred[i].slug, failed)], attempts + 1;
    }
    hide AddRawTemplates;
    if Rejected(tera, deferred) {
      forall t <- Elements(deferred) ensures (t.slug, true) in reported {
        var j :| 0 <= j < |deferred| && deferred[j] == t;
        assert reported[j] == (t.slug, true);
      }
      forall r <- reported ensures r.1 && exists t <- Elements(deferred) :: t.slug == r.0 {
        var j :| 0 <= j < |reported| && reported[j] == r;
        assert deferred[j] in Elements(deferred);
      }
    }
  }

  lemma NothingToReport(env: Env)
    ensures Rejected(env, []) && Reports([], {})
  {
  }

  /** The retry loop over the first-party environment, and the report when it stops. Besides the
      environment and the report it returns the themes committed and the number of passes and
      batch adds. */
  method RetryInPasses(base: Env, userThemes: seq<Theme>)
      returns (tera: Env, reported: seq<(string, bool)>, ghost committed: set<Theme>, passes: nat, attempts: nat)
    requires Sound(base) && Distinct(userThemes)
    ensures Sound(tera) && committed <= Elements(userThemes)
    ensures forall t <- Elements(userThemes) - committed :: AddRawTemplates(tera, t.files).None?
    ensures Reports(reported, Elements(userThemes) - committed)
    ensures Grouped(base, Elements(userThemes)) ==> Outcome(base, Elements(userThemes), committed, tera)
    ensures Load(committed, tera) == Retry(Load({}, base), userThemes)
    ensures passes == Passes(Load({}, base), userThemes) <= |userThemes|
    ensures attempts == BatchAdds(Load({}, base), userThemes) <= Triangle(|userThemes|) + 1
  {
    hide *;
    ghost var themes, start := Elements(userThemes), Load({}, base);
    Started(base, themes, userThemes);
    RetryBounds(start, userThemes);
    tera, reported, committed, passes, attempts := base, [], {}, 0, 0;
    var pending := userThemes;
    while pending != []
      invariant InPass(base, themes, committed, tera, [], pending)
      invariant Retry(Load(committed, tera), pending) == Retry(start, userThemes)
      invariant passes + Passes(Load(committed, tera), pending) == Passes(start, userThemes)
      invariant attempts + BatchAdds(Load(committed, tera), pending) == BatchAdds(start, userThemes)
      decreases |pending|
    {
      RetryOnce(Load(committed, tera), pending);
      var deferred, progressed;
      tera, deferred, progressed, committed := OnePass(tera, pending, base, themes, committed);
      passes, attempts := passes + 1, attempts + |pending|;
      if !progressed {
        PassesDone(base, themes, committed, tera, deferred);
        var more;
        reported, more := ReportSkipped(tera, deferred);
        attempts := attempts + more;
        return;
      }
      pending := deferred;
    }
    NothingLeft(Load(committed, tera));
    NothingToReport(tera);
    PassesDone(base, themes, committed, tera, []);
  }

  /** Builds the environment; None aborts the start-up. Every skipped theme fails against the final
      environment and is reported, and the result is that of the given order; where no theme
      clashes with a first-party template, it is the same for every order, with the least closed
      set committed. */
  method BuildTera(defaultTheme: Env, adminFiles: seq<(string, Template)>, userThemes: seq<Theme>)
      returns (result: Option<Env>, reported: seq<(string, bool)>, ghost committed: set<Theme>, passes: nat, attempts: nat)
    requires Distinct(userThemes)
    ensures result.None? <==> FirstParty(defaultTheme, adminFiles).None?
    ensures result.Some? ==>
      && Sound(result.value) && committed <= Elements(userThemes)
      && (forall t <- Elements(userThemes) - committed :: AddRawTemplates(result.value, t.files).None?)
      && Reports(reported, Elements(userThemes) - committed)
    ensures result.Some? && Grouped(FirstParty(defaultTheme, adminFiles).value, Elements(userThemes)) ==>
      Outcome(FirstParty(defaultTheme, adminFiles).value, Elements(userThemes), committed, result.value)
    ensures result.Some? ==>
      var start := Load({}, FirstParty(defaultTheme, adminFiles).value);
      && Load(committed, result.value) == Retry(start, userThemes)
      && passes == Passes(start, userThemes) && attempts == BatchAdds(start, userThemes)
    ensures passes <= |userThemes| && attempts <= Triangle(|userThemes|) + 1
  {
    hide *;
    reported, committed, passes, attempts := [], {}, 0, 0;
    TriangleMonotone(0, |userThemes|);
    result := LoadFirstParty(defaultTheme, adminFiles);
    if result.Some? {
      FirstPartyIsSound(defaultTheme, adminFiles);
      var tera;
      tera, reported, committed, passes, attempts := RetryInPasses(result.value, userThemes);
      result := Some(tera);
    }
  }

  // ── What the outcome says ──────────────────────────────────────────────────

  /** The outcome is the least closed set: closed itself, and part of every closed set. */
  lemma CommittedIsLeastClosed(base: Env, themes: set<Theme>, committed: set<Theme>, env: Env)
    requires Grouped(base, themes) && Outcome(base, themes, committed, env)
    ensures Closed(base, themes, committed)
    ensures forall c :: Closed(base, themes, c) ==> committed <= c
  {
    SaturatedIsClosed(base, themes, committed, env);
  }

  /** Two outcomes over the same themes agree, so the order of the input does not matter. */
  lemma OrderDoesNotMatter(base: Env, themes: set<Theme>, c1: set<Theme>, e1: Env, c2: set<Theme>, e2: Env)
    requires Grouped(base, themes) && Outcome(base, themes, c1, e1) && Outcome(base, themes, c2, e2)
    ensures c1 == c2 && e1 == e2
  {
    SaturatedIsClosed(base, themes, c1, e1);
    SaturatedIsClosed(base, themes, c2, e2);
    HoldsUnique(base, c1, e1, e2);
  }

  /** A theme is committed exactly when its own templates parse, every one of its targets is in
      the final environment or in itself, and it has no inheritance cycle of its own. */
  lemma CommittedIffLoadable(base: Env, themes: set<Theme>, committed: set<Theme>, env: Env, t: Theme)
    requires Grouped(base, themes) && Saturated(base, themes, committed, env) && t in themes
    ensures t in committed <==> Loadable(t.files, env.Keys - t.files.Keys)
  {
    hide Grouped, Holds, Sound, Loadable, AddRawTemplates;
    if t in committed {
      CommittedIsLoadable(base, themes, committed, env, t);
    } else {
      Clashless(base, themes, committed, env, t);
      SkippedIsNotLoadable(env, t.files);
    }
  }

  lemma CommittedIsLoadable(base: Env, themes: set<Theme>, committed: set<Theme>, env: Env, t: Theme)
    requires Saturated(base, themes, committed, env) && t in committed
    ensures Loadable(t.files, env.Keys - t.files.Keys)
  {
    hide Sound, Loadable;
    assert env.Keys == (env.Keys - t.files.Keys) + t.files.Keys;
    InsideSound(env, t.files, env.Keys - t.files.Keys);
  }

  lemma SkippedIsNotLoadable(env: Env, batch: Env)
    requires Sound(env) && batch.Keys !! env.Keys && AddRawTemplates(env, batch).None?
    ensures !Loadable(batch, env.Keys - batch.Keys)
  {
    hide Sound, Loadable, AddRawTemplates;
    assert env.Keys - batch.Keys == env.Keys;
    LoadsIffLoadable(env, batch);
  }

  /** All or nothing: a committed theme has every template registered, a skipped one none. */
  lemma AllOrNothing(base: Env, themes: set<Theme>, committed: set<Theme>, env: Env, t: Theme, name: string)
    requires Grouped(base, themes) && Outcome(base, themes, committed, env)
    requires t in themes && name in t.files
    ensures if t in committed then name in env && env[name] == t.files[name] else name !in env
  {
    if t !in committed {
      Clashless(base, themes, committed, env, t);
    }
  }
}
