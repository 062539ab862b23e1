/** The template engine as the theme loader sees it: an environment of named templates,
    and a batch add that either takes every template of the batch or reports an error.

    A template extends at most one parent and imports any number of macro files. */
module Templates {
  import opened Common

  datatype Template = Template(parses: bool, parent: Option<string>, imports: set<string>)

  type Env = map<string, Template>

  /** Following `extends` from `name` reaches a template without a parent within `fuel` steps. */
  predicate ChainEnds(env: Env, name: string, fuel: nat)
    decreases fuel
  {
    && name in env
    && (env[name].parent.None? || (fuel > 0 && ChainEnds(env, env[name].parent.value, fuel - 1)))
  }

  /** Every template parses, every import target exists and every inheritance chain ends. */
  predicate Sound(env: Env) {
    forall n <- env.Keys ::
      env[n].parses && env[n].imports <= env.Keys && ChainEnds(env, n, |env|)
  }

  /** The batch add: all or nothing, checked over the whole resulting environment. */
  function AddRawTemplates(env: Env, batch: Env): Option<Env> {
    if Sound(env + batch) then Some(env + batch) else None
  }

  ghost predicate Extends(small: Env, big: Env) {
    small.Keys <= big.Keys && forall n <- small.Keys :: big[n] == small[n]
  }

  lemma {:induction false} ChainMonotone(small: Env, big: Env, name: string, fuel: nat, more: nat)
    requires Extends(small, big) && fuel <= more
    requires ChainEnds(small, name, fuel)
    ensures ChainEnds(big, name, more)
    decreases fuel
  {
    if small[name].parent.Some? {
      ChainMonotone(small, big, small[name].parent.value, fuel - 1, more - 1);
    }
  }

  lemma SubmapIsSmaller(small: Env, big: Env)
    requires small.Keys <= big.Keys
    ensures |small| <= |big|
  {
    SubsetIsSmaller(small.Keys, big.Keys);
  }

  lemma {:induction false} SubsetIsSmaller<T>(a: set<T>, b: set<T>)
    requires a <= b
    ensures |a| <= |b|
  {
    assert b == a + (b - a);
  }

  /** A batch that loads into an environment also loads into any larger sound one it does not clash with. */
  lemma AddMonotone(small: Env, big: Env, batch: Env)
    requires Extends(small, big) && Sound(big) && batch.Keys !! big.Keys
    requires AddRawTemplates(small, batch).Some?
    ensures AddRawTemplates(big, batch).Some?
  {
    var s, b := small + batch, big + batch;
    SubmapIsSmaller(s, b);
    SubmapIsSmaller(big, b);
    forall n <- b.Keys
      ensures b[n].parses && b[n].imports <= b.Keys && ChainEnds(b, n, |b|)
    {
      if n in batch {
        ChainMonotone(s, b, n, |s|, |b|);
      } else {
        ChainMonotone(big, b, n, |big|, |b|);
      }
    }
  }

  // ── When exactly a batch loads ─────────────────────────────────────────────

  /** Following `extends` from a template of the batch leaves the batch, for a name in `known`
      or for the end of the chain, within `fuel` steps. */
  predicate LeavesBatch(batch: Env, known: set<string>, name: string, fuel: nat)
    decreases fuel
  {
    && name in batch
    && match batch[name].parent
       case None => true
       case Some(p) =>
         if p in batch then fuel > 0 && LeavesBatch(batch, known, p, fuel - 1) else p in known
  }

  /** Every template parses, every target is known or in the batch, and the batch has no cycle. */
  predicate Loadable(batch: Env, known: set<string>) {
    forall n <- batch.Keys ::
      && batch[n].parses
      && batch[n].imports <= known + batch.Keys
      && LeavesBatch(batch, known, n, |batch|)
  }

  /** What a batch finds outside itself may only grow. */
  lemma {:induction false} LeavesWithMore(batch: Env, known: set<string>, more: set<string>, name: string, fuel: nat)
    requires known <= more && LeavesBatch(batch, known, name, fuel)
    ensures LeavesBatch(batch, more, name, fuel)
    decreases fuel
  {
    if batch[name].parent.Some? && batch[name].parent.value in batch {
      LeavesWithMore(batch, known, more, batch[name].parent.value, fuel - 1);
    }
  }

  lemma LoadableWithMore(batch: Env, known: set<string>, more: set<string>)
    requires known <= more && Loadable(batch, known)
    ensures Loadable(batch, more)
  {
    forall n <- batch.Keys ensures LeavesBatch(batch, more, n, |batch|) {
      LeavesWithMore(batch, known, more, n, |batch|);
    }
  }

  lemma {:induction false} LeavesThenEnds(env: Env, batch: Env, name: string, fuel: nat)
    requires Sound(env) && batch.Keys !! env.Keys
    requires LeavesBatch(batch, env.Keys, name, fuel)
    ensures ChainEnds(env + batch, name, |env| + fuel + 1)
    decreases fuel
  {
    if batch[name].parent.Some? {
      var p := batch[name].parent.value;
      if p in batch {
        LeavesThenEnds(env, batch, p, fuel - 1);
      } else {
        ChainMonotone(env, env + batch, p, |env|, |env| + fuel);
      }
    }
  }

  lemma {:induction false} EndsThenLeaves(env: Env, batch: Env, known: set<string>, name: string, fuel: nat)
    requires Extends(batch, env) && env.Keys - batch.Keys <= known
    requires name in batch && ChainEnds(env, name, fuel)
    ensures LeavesBatch(batch, known, name, fuel)
    decreases fuel
  {
    if batch[name].parent.Some? && batch[name].parent.value in batch {
      EndsThenLeaves(env, batch, known, batch[name].parent.value, fuel - 1);
    }
  }

  /** The shortest walk out of a batch visits different templates, one for each step and one more. */
  lemma {:induction false} ShortestWalk(batch: Env, known: set<string>, name: string, steps: nat)
      returns (visited: set<string>)
    requires LeavesBatch(batch, known, name, steps)
    requires steps > 0 ==> !LeavesBatch(batch, known, name, steps - 1)
    ensures visited <= batch.Keys && |visited| == steps + 1
    ensures forall n <- visited :: LeavesBatch(batch, known, n, steps)
    decreases steps
  {
    visited := {name};
    if steps > 0 {
      var p := batch[name].parent.value;
      var rest := ShortestWalk(batch, known, p, steps - 1);
      forall n <- rest ensures LeavesBatch(batch, known, n, steps) {
        LeavesMonotone(batch, known, n, steps - 1, steps);
      }
      visited := rest + {name};
    }
  }

  lemma {:induction false} LeavesMonotone(batch: Env, known: set<string>, name: string, fuel: nat, more: nat)
    requires fuel <= more && LeavesBatch(batch, known, name, fuel)
    ensures LeavesBatch(batch, known, name, more)
    decreases fuel
  {
    if batch[name].parent.Some? && batch[name].parent.value in batch {
      LeavesMonotone(batch, known, batch[name].parent.value, fuel - 1, more - 1);
    }
  }

  /** So a walk that leaves at all leaves within as many steps as the batch has templates. */
  lemma {:induction false} LeavesWithinSize(batch: Env, known: set<string>, name: string, fuel: nat)
    requires LeavesBatch(batch, known, name, fuel)
    ensures batch != map[] && LeavesBatch(batch, known, name, |batch| - 1)
    decreases fuel
  {
    if fuel > 0 && LeavesBatch(batch, known, name, fuel - 1) {
      LeavesWithinSize(batch, known, name, fuel - 1);
    } else {
      var visited := ShortestWalk(batch, known, name, fuel);
      SubsetIsSmaller(visited, batch.Keys);
      LeavesMonotone(batch, known, name, fuel, |batch| - 1);
    }
  }

  /** A batch that clashes with no template of a sound environment loads exactly when every
      template parses, every target is in the environment or the batch, and the batch has no cycle. */
  lemma LoadsIffLoadable(env: Env, batch: Env)
    requires Sound(env) && batch.Keys !! env.Keys
    ensures AddRawTemplates(env, batch).Some? <==> Loadable(batch, env.Keys)
  {
    if Sound(env + batch) {
      InsideSound(env + batch, batch, env.Keys);
    }
    if Loadable(batch, env.Keys) {
      LoadableLoads(env, batch);
    }
  }

  lemma LoadableLoads(env: Env, batch: Env)
    requires Sound(env) && batch.Keys !! env.Keys
    requires Loadable(batch, env.Keys)
    ensures Sound(env + batch)
  {
    var all := env + batch;
    assert |all| == |env| + |batch| by {
      assert all.Keys == env.Keys + batch.Keys;
      assert |all.Keys| == |env.Keys| + |batch.Keys|;
    }
    forall n <- all.Keys
      ensures all[n].parses && all[n].imports <= all.Keys && ChainEnds(all, n, |all|)
    {
      if n in batch {
        LeavesWithinSize(batch, env.Keys, n, |batch|);
        LeavesThenEnds(env, batch, n, |batch| - 1);
      } else {
        ChainMonotone(env, all, n, |env|, |all|);
      }
    }
  }

  /** Any part of a sound environment is loadable over the names of the rest. */
  lemma InsideSound(env: Env, batch: Env, known: set<string>)
    requires Sound(env) && Extends(batch, env) && env.Keys == known + batch.Keys
    ensures Loadable(batch, known)
  {
    forall n <- batch.Keys
      ensures batch[n].parses && batch[n].imports <= known + batch.Keys
      ensures LeavesBatch(batch, known, n, |batch|)
    {
      EndsThenLeaves(env, batch, known, n, |env|);
      LeavesWithinSize(batch, known, n, |env|);
      LeavesMonotone(batch, known, n, |batch| - 1, |batch|);
    }
  }
}
