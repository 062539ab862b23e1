/** When the order of the input matters: every order of the themes comes to the same environment if
    and only if any two themes that would both load next can be brought together again. */
module ThemeOrder {
  import opened Templates
  import opened ThemeLoader

  predicate Next(themes: set<Theme>, s: Load, t: Theme) {
    t in themes && t !in s.committed && Loads(s, t)
  }

  predicate Leads(themes: set<Theme>, s: Load, path: seq<Theme>)
    decreases |path|
  {
    path == [] || (Next(themes, s, path[0]) && Leads(themes, Commit(s, path[0]), path[1..]))
  }

  function After(s: Load, path: seq<Theme>): Load
    decreases |path|
  {
    if path == [] then s else After(Commit(s, path[0]), path[1..])
  }

  ghost predicate Reaches(themes: set<Theme>, s: Load, u: Load) {
    exists path :: Leads(themes, s, path) && After(s, path) == u
  }

  ghost predicate Stuck(themes: set<Theme>, s: Load) {
    forall t <- themes :: !Next(themes, s, t)
  }

  ghost predicate Final(themes: set<Theme>, s: Load, u: Load) { Reaches(themes, s, u) && Stuck(themes, u) }

  ghost predicate Joinable(themes: set<Theme>, a: Load, b: Load) {
    exists u :: Reaches(themes, a, u) && Reaches(themes, b, u)
  }

  /** Wherever two themes would both load next, committing either leaves a way to a common state. */
  ghost predicate Confluent(themes: set<Theme>, start: Load) {
    forall s, t, u :: Reaches(themes, start, s) && Next(themes, s, t) && Next(themes, s, u) ==>
      Joinable(themes, Commit(s, t), Commit(s, u))
  }

  ghost predicate OneOutcome(themes: set<Theme>, start: Load) {
    forall a, b :: Final(themes, start, a) && Final(themes, start, b) ==> a == b
  }

  ghost predicate Order(themes: set<Theme>, order: seq<Theme>) {
    Distinct(order) && themes == Elements(order)
  }

  ghost predicate OrderIrrelevant(themes: set<Theme>, start: Load) {
    forall p, q :: Order(themes, p) && Order(themes, q) ==> Retry(start, p) == Retry(start, q)
  }

  // ── Paths ──────────────────────────────────────────────────────────────────

  lemma {:induction false} LeadsOn(themes: set<Theme>, s: Load, p: seq<Theme>, q: seq<Theme>)
    requires Leads(themes, s, p) && Leads(themes, After(s, p), q)
    ensures Leads(themes, s, p + q) && After(s, p + q) == After(After(s, p), q)
    decreases |p|
  {
    if p == [] {
      assert p + q == q;
    } else {
      assert (p + q)[1..] == p[1..] + q;
      LeadsOn(themes, Commit(s, p[0]), p[1..], q);
    }
  }

  lemma ReachesOn(themes: set<Theme>, s: Load, u: Load, w: Load)
    requires Reaches(themes, s, u) && Reaches(themes, u, w)
    ensures Reaches(themes, s, w)
  {
    var p :| Leads(themes, s, p) && After(s, p) == u;
    var q :| Leads(themes, u, q) && After(u, q) == w;
    LeadsOn(themes, s, p, q);
  }

  lemma ReachesSelf(themes: set<Theme>, s: Load)
    ensures Reaches(themes, s, s)
  {
    assert Leads(themes, s, []) && After(s, []) == s;
  }

  lemma ReachesNext(themes: set<Theme>, s: Load, t: Theme)
    requires Next(themes, s, t)
    ensures Reaches(themes, s, Commit(s, t))
  {
    assert [t][1..] == [];
    assert Leads(themes, Commit(s, t), []);
    assert Leads(themes, s, [t]) && After(s, [t]) == Commit(s, t);
  }

  /** Committing as long as something loads comes to an end. */
  lemma {:induction false} EndsSomewhere(themes: set<Theme>, s: Load) returns (u: Load)
    ensures Final(themes, s, u)
    decreases themes - s.committed
  {
    if Stuck(themes, s) {
      ReachesSelf(themes, s);
      return s;
    }
    var t :| t in themes && Next(themes, s, t);
    u := EndsSomewhere(themes, Commit(s, t));
    ReachesNext(themes, s, t);
    ReachesOn(themes, s, Commit(s, t), u);
  }

  // ── Local and global ───────────────────────────────────────────────────────

  lemma FirstStep(themes: set<Theme>, s: Load, u: Load) returns (t: Theme)
    requires Reaches(themes, s, u) && s != u
    ensures Next(themes, s, t) && Reaches(themes, Commit(s, t), u)
  {
    var path :| Leads(themes, s, path) && After(s, path) == u;
    t := path[0];
    assert Leads(themes, Commit(s, t), path[1..]) && After(Commit(s, t), path[1..]) == u;
  }

  /** Where every fork closes, a state has one outcome. */
  lemma {:induction false} ForksCloseOneOutcome(themes: set<Theme>, start: Load, s: Load, a: Load, b: Load)
    requires Confluent(themes, start) && Reaches(themes, start, s)
    requires Final(themes, s, a) && Final(themes, s, b)
    ensures a == b
    decreases themes - s.committed
  {
    hide Next, Reaches;
    if a == s || b == s {
      StuckStays(themes, s, a);
      StuckStays(themes, s, b);
    } else {
      var t := FirstStep(themes, s, a);
      var u := FirstStep(themes, s, b);
      var x, y := Commit(s, t), Commit(s, u);
      ReachesNext(themes, s, t);
      ReachesNext(themes, s, u);
      ReachesOn(themes, start, s, x);
      ReachesOn(themes, start, s, y);
      var w :| Reaches(themes, x, w) && Reaches(themes, y, w);
      var end := EndsSomewhere(themes, w);
      ReachesOn(themes, x, w, end);
      ReachesOn(themes, y, w, end);
      Shrinks(themes, s, t);
      Shrinks(themes, s, u);
      ForksCloseOneOutcome(themes, start, x, a, end);
      ForksCloseOneOutcome(themes, start, y, b, end);
    }
  }

  lemma Shrinks(themes: set<Theme>, s: Load, t: Theme)
    requires Next(themes, s, t)
    ensures themes - Commit(s, t).committed < themes - s.committed
  {
    assert t in themes - s.committed;
  }

  lemma StuckStays(themes: set<Theme>, s: Load, u: Load)
    requires Reaches(themes, s, u)
    ensures Stuck(themes, s) ==> u == s
  {
    if s != u { var t := FirstStep(themes, s, u); }
  }

  lemma ConfluentIffOneOutcome(themes: set<Theme>, start: Load)
    ensures Confluent(themes, start) <==> OneOutcome(themes, start)
  {
    hide Next, Reaches, Stuck;
    if Confluent(themes, start) {
      ReachesSelf(themes, start);
      forall a, b | Final(themes, start, a) && Final(themes, start, b) ensures a == b {
        ForksCloseOneOutcome(themes, start, start, a, b);
      }
    }
    if OneOutcome(themes, start) {
      forall s, t, u | Reaches(themes, start, s) && Next(themes, s, t) && Next(themes, s, u)
        ensures Joinable(themes, Commit(s, t), Commit(s, u))
      {
        var a := EndAfter(themes, start, s, t);
        var b := EndAfter(themes, start, s, u);
        assert a == b;
      }
    }
  }

  lemma EndAfter(themes: set<Theme>, start: Load, s: Load, t: Theme) returns (a: Load)
    requires Reaches(themes, start, s) && Next(themes, s, t)
    ensures Reaches(themes, Commit(s, t), a) && Final(themes, start, a)
  {
    hide Next, Reaches, Stuck;
    a := EndsSomewhere(themes, Commit(s, t));
    ReachesNext(themes, s, t);
    ReachesOn(themes, start, s, Commit(s, t));
    ReachesOn(themes, start, Commit(s, t), a);
  }

  // ── Orders and outcomes ────────────────────────────────────────────────────

  lemma {:induction false} PassReaches(themes: set<Theme>, s: Load, pending: seq<Theme>)
    requires Distinct(pending) && Elements(pending) <= themes - s.committed
    ensures Reaches(themes, s, Pass(s, pending))
    decreases |pending|
  {
    if pending == [] {
      ReachesSelf(themes, s);
    } else {
      var t := pending[0];
      DistinctTail(pending);
      hide Distinct, Elements, Loads, Reaches;
      if Loads(s, t) {
        PassReaches(themes, Commit(s, t), pending[1..]);
        ReachesNext(themes, s, t);
        ReachesOn(themes, s, Commit(s, t), Pass(s, pending));
      } else {
        PassReaches(themes, s, pending[1..]);
      }
    }
  }

  /** A pass either commits a theme or leaves it for the next pass. */
  lemma {:induction false} PassSplits(s: Load, pending: seq<Theme>)
    requires Distinct(pending) && Elements(pending) !! s.committed
    ensures s.committed <= Pass(s, pending).committed <= s.committed + Elements(pending)
    ensures Distinct(Deferred(s, pending))
    ensures Elements(Deferred(s, pending)) == Elements(pending) - Pass(s, pending).committed
    decreases |pending|
  {
    if pending != [] {
      var t := pending[0];
      DistinctTail(pending);
      if Loads(s, t) {
        hide Distinct, Elements, Loads;
        PassSplits(Commit(s, t), pending[1..]);
      } else {
        hide Distinct, Elements, Loads;
        PassSplits(s, pending[1..]);
        DistinctCons(t, Deferred(s, pending[1..]));
      }
    }
  }

  lemma {:induction false} RetryIsFinal(themes: set<Theme>, s: Load, pending: seq<Theme>)
    requires Distinct(pending) && Elements(pending) == themes - s.committed
    ensures Final(themes, s, Retry(s, pending))
    decreases |pending|
  {
    hide Distinct, Pass, Reaches;
    PassReaches(themes, s, pending);
    PassSplits(s, pending);
    var next, deferred := Pass(s, pending), Deferred(s, pending);
    if |deferred| == |pending| {
      AllDeferred(s, pending);
      forall t <- themes ensures !Next(themes, s, t) {
        if t !in s.committed { assert t in Elements(pending); DeferredFails(s, pending, t); }
      }
    } else {
      hide Elements, Deferred;
      RetryIsFinal(themes, next, deferred);
      ReachesOn(themes, s, next, Retry(s, pending));
    }
  }

  lemma {:induction false} DeferredFails(s: Load, pending: seq<Theme>, t: Theme)
    requires |Deferred(s, pending)| == |pending| && t in pending
    ensures !Loads(s, t)
    decreases |pending|
  {
    if t != pending[0] { DeferredFails(s, pending[1..], t); }
  }

  lemma {:induction false} StuckDefersAll(themes: set<Theme>, s: Load, rest: seq<Theme>)
    requires Stuck(themes, s) && Elements(rest) <= themes - s.committed
    ensures Pass(s, rest) == s && Deferred(s, rest) == rest
    decreases |rest|
  {
    if rest != [] {
      assert rest == [rest[0]] + rest[1..] && rest[0] in Elements(rest);
      StuckDefersAll(themes, s, rest[1..]);
    }
  }

  lemma {:induction false} PassAlong(themes: set<Theme>, s: Load, path: seq<Theme>, rest: seq<Theme>)
    requires Leads(themes, s, path)
    ensures Pass(s, path + rest) == Pass(After(s, path), rest)
    ensures Deferred(s, path + rest) == Deferred(After(s, path), rest)
    decreases |path|
  {
    if path == [] {
      assert path + rest == rest;
    } else {
      assert (path + rest)[1..] == path[1..] + rest;
      PassAlong(themes, Commit(s, path[0]), path[1..], rest);
    }
  }

  lemma {:induction false} PathCommits(themes: set<Theme>, s: Load, path: seq<Theme>)
    requires Leads(themes, s, path)
    ensures After(s, path).committed == s.committed + Elements(path)
    ensures Distinct(path) && Elements(path) <= themes - s.committed
    decreases |path|
  {
    if path != [] {
      PathCommits(themes, Commit(s, path[0]), path[1..]);
      DistinctCons(path[0], path[1..]);
      assert path == [path[0]] + path[1..];
    }
  }

  lemma {:induction false} Listed(some: set<Theme>) returns (list: seq<Theme>)
    ensures Distinct(list) && Elements(list) == some
    decreases some
  {
    if some == {} { return []; }
    var t :| t in some;
    var rest := Listed(some - {t});
    DistinctCons(t, rest);
    return [t] + rest;
  }

  lemma OrderOf(themes: set<Theme>, path: seq<Theme>, rest: seq<Theme>)
    requires Distinct(path) && Distinct(rest) && Elements(path) <= themes
    requires Elements(rest) == themes - Elements(path)
    ensures Order(themes, path + rest)
  {
    var order := path + rest;
    forall i, j | 0 <= i < j < |order| ensures order[i] != order[j] {
      if i < |path| <= j { assert order[i] in Elements(path) && order[j] in Elements(rest); }
    }
    forall t ensures t in themes <==> t in Elements(order) {
      assert t in Elements(path) <==> t in path;
      assert t in Elements(rest) <==> t in rest;
    }
  }

  /** Every outcome is the outcome of some order: the path to it, followed by the rest. */
  lemma FinalHasOrder(themes: set<Theme>, start: Load, u: Load) returns (order: seq<Theme>)
    requires start.committed == {} && Final(themes, start, u)
    ensures Order(themes, order) && Retry(start, order) == u
  {
    var path :| Leads(themes, start, path) && After(start, path) == u;
    hide Leads, After, Stuck, Distinct, Elements, Pass, Deferred;
    PathCommits(themes, start, path);
    var rest := Listed(themes - u.committed);
    order := path + rest;
    OrderOf(themes, path, rest);
    PassAlong(themes, start, path, rest);
    StuckDefersAll(themes, u, rest);
    RetryOnce(start, order);
    RetryOnce(u, rest);
    if path == [] { assert order == rest && u == start by { AfterNothing(start); } }
  }

  lemma AfterNothing(s: Load)
    ensures After(s, []) == s
  {
  }

  /** For any themes whatever, clashing or not: the order of the input does not matter if and only
      if every fork closes. */
  lemma OrderIrrelevantIff(themes: set<Theme>, base: Env)
    ensures OrderIrrelevant(themes, Load({}, base)) <==> Confluent(themes, Load({}, base))
  {
    var start := Load({}, base);
    ConfluentIffOneOutcome(themes, start);
    hide Confluent, Retry, Final;
    if OneOutcome(themes, start) {
      forall p, q | Order(themes, p) && Order(themes, q) ensures Retry(start, p) == Retry(start, q) {
        RetryIsFinal(themes, start, p);
        RetryIsFinal(themes, start, q);
      }
    }
    if OrderIrrelevant(themes, start) {
      forall a, b | Final(themes, start, a) && Final(themes, start, b) ensures a == b {
        var p := FinalHasOrder(themes, start, a);
        var q := FinalHasOrder(themes, start, b);
      }
    }
  }
}
