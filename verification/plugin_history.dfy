/** A plugin as the history of the calls on it: each of its columns and rows is what the latest call
    that wrote it said. */
module PluginHistory {
  import opened Common
  import opened Counting
  import opened ConfigTemplates
  import opened Plugins

  // ── Answers ────────────────────────────────────────────────────────────────

  predicate MissesRequired(p: Plugin, config: Option<Entries>) {
    exists f <- p.manifest.required :: config == None || forall e <- config.value :: e.0 != f
  }

  /** What each call answers, as the list of its checks in order. */
  lemma PluginAnswers(table: Table, op: Op)
    ensures var found := op.slug in table;
            Reply(table, op)
            == ALLOWED
               .OrIf(!op.permitted, Forbidden("permission_denied"))
               .OrIf(op.Register? && found, Conflict("plugin_already_installed"))
               .OrIf(op.Uninstall? && op.slug != op.confirm, Unprocessable("Confirmation slug does not match plugin slug"))
               .OrIf(!op.Register? && !found, NotFound)
               .OrIf(op.Configure? && found && MissesRequired(table[op.slug], op.config), Unprocessable("Config field is required"))
               .OrIf(op.Place? && found && op.row >= |table[op.slug].slots|, NotFound)
               .OrIf(op.Place? && Blank(op.name), Unprocessable("Slot name cannot be empty"))
               .OrIf(op.Register? && op.manifest.needsSchema && !op.schemaOk, Internal)
  {
    if op.Configure? && op.slug in table {
      var p := table[op.slug];
      assert MissesRequired(p, op.config) <==> exists f <- p.manifest.required :: !HasField(op.config, f);
    }
  }

  // ── History ────────────────────────────────────────────────────────────────

  /** The call is on the plugin and was not refused. */
  predicate Counts(table: Table, op: Op, slug: string) { op.slug == slug && Refusal(table, op).None? }

  /** The registration of the plugin, unless it was uninstalled since. */
  ghost function Registration(ops: seq<Op>, accepts: string -> bool, slug: string): (r: Option<Op>)
    ensures r.Some? ==> r.value.Register?
  {
    if ops == [] then None
    else
      var earlier, op := ops[..|ops| - 1], ops[|ops| - 1];
      if !Counts(Run(map[], earlier, accepts), op, slug) then Registration(earlier, accepts, slug)
      else if op.Register? then Some(op)
      else if op.Uninstall? then None
      else Registration(earlier, accepts, slug)
  }

  /** The config last stored; empty from the registration on. */
  ghost function ConfigOf(ops: seq<Op>, accepts: string -> bool, slug: string): Option<Entries> {
    if ops == [] then None
    else
      var earlier, op := ops[..|ops| - 1], ops[|ops| - 1];
      if !Counts(Run(map[], earlier, accepts), op, slug) then ConfigOf(earlier, accepts, slug)
      else if op.Register? then Some([])
      else if op.Configure? then op.config
      else ConfigOf(earlier, accepts, slug)
  }

  /** The later of its activations and deactivations is an activation. */
  ghost predicate SwitchedOn(ops: seq<Op>, accepts: string -> bool, slug: string) {
    ops != [] &&
    var earlier, op := ops[..|ops| - 1], ops[|ops| - 1];
    if !Counts(Run(map[], earlier, accepts), op, slug) then SwitchedOn(earlier, accepts, slug)
    else op.Activate? || ((op.Configure? || op.Place?) && SwitchedOn(earlier, accepts, slug))
  }

  /** It was activated, or deactivated, since its registration. */
  ghost predicate Switched(ops: seq<Op>, accepts: string -> bool, slug: string) {
    ops != [] &&
    var earlier, op := ops[..|ops| - 1], ops[|ops| - 1];
    if !Counts(Run(map[], earlier, accepts), op, slug) then Switched(earlier, accepts, slug)
    else op.Activate? || op.Deactivate? || ((op.Configure? || op.Place?) && Switched(earlier, accepts, slug))
  }

  /** It was activated since its registration. */
  ghost predicate EverOn(ops: seq<Op>, accepts: string -> bool, slug: string) {
    ops != [] &&
    var earlier, op := ops[..|ops| - 1], ops[|ops| - 1];
    if !Counts(Run(map[], earlier, accepts), op, slug) then EverOn(earlier, accepts, slug)
    else op.Activate? || (!op.Register? && !op.Uninstall? && EverOn(earlier, accepts, slug))
  }

  /** The config in force when the plugin was last switched on. */
  ghost function ConfigWhenOn(ops: seq<Op>, accepts: string -> bool, slug: string): Option<Entries> {
    if ops == [] then None
    else
      var earlier, op := ops[..|ops| - 1], ops[|ops| - 1];
      if Counts(Run(map[], earlier, accepts), op, slug) && op.Activate? && !SwitchedOn(earlier, accepts, slug)
      then ConfigOf(earlier, accepts, slug)
      else ConfigWhenOn(earlier, accepts, slug)
  }

  /** The name and place last given to a slot row since the rows were last written. */
  ghost function PlaceOf(ops: seq<Op>, accepts: string -> bool, slug: string, row: nat): Option<(string, int)> {
    if ops == [] then None
    else
      var earlier, op := ops[..|ops| - 1], ops[|ops| - 1];
      var before := Run(map[], earlier, accepts);
      if !Counts(before, op, slug) then PlaceOf(earlier, accepts, slug, row)
      else if op.Place? && op.row == row then Some((op.name, op.order))
      else if op.Activate? && slug in before && before[slug].status != Active then None
      else PlaceOf(earlier, accepts, slug, row)
  }

  /** A plugin is there exactly if it is registered, with the tier, manifest and grants of its
      registration, and its config is the one last stored. */
  lemma {:induction false} RegisteredAs(ops: seq<Op>, accepts: string -> bool, slug: string)
    ensures slug in Run(map[], ops, accepts) <==> Registration(ops, accepts, slug).Some?
    ensures slug in Run(map[], ops, accepts) ==>
      var p, r := Run(map[], ops, accepts)[slug], Registration(ops, accepts, slug).value;
      && p.tier == r.tier && p.manifest == r.manifest && p.granted == r.granted
      && p.config == ConfigOf(ops, accepts, slug)
  {
    hide WebhooksOf, GrantedHooks;
    if ops != [] {
      RegisteredAs(ops[..|ops| - 1], accepts, slug);
    }
  }

  /** In every run the status is active while the plugin is switched on, unless it noticed that its
      last reload failed; and while it is not, inactive, unless provisioning its schema failed and
      it was never switched since. */
  lemma {:induction false} StatusIsHistory(ops: seq<Op>, accepts: string -> bool, slug: string)
    requires slug in Run(map[], ops, accepts)
    ensures Registration(ops, accepts, slug).Some?
    ensures SwitchedOn(ops, accepts, slug) ==> Switched(ops, accepts, slug) && EverOn(ops, accepts, slug)
    ensures var p, r := Run(map[], ops, accepts)[slug], Registration(ops, accepts, slug).value;
            p.status == if SwitchedOn(ops, accepts, slug) then
                          if NoticesFailure(p) && LastReloadFailed(ops, accepts, slug) then PluginStatus.Error else Active
                        else if !Switched(ops, accepts, slug) && r.manifest.needsSchema && !r.schemaOk then PluginStatus.Error
                        else Inactive
  {
    hide WebhooksOf, GrantedHooks;
    RegisteredAs(ops, accepts, slug);
    if ops != [] {
      var earlier := ops[..|ops| - 1];
      RegisteredAs(earlier, accepts, slug);
      if slug in Run(map[], earlier, accepts) {
        StatusIsHistory(earlier, accepts, slug);
      }
    }
  }

  /** Hook rows: those of manifest and grants once a plugin that runs code was activated; they stay. */
  lemma {:induction false} HooksAreHistory(ops: seq<Op>, accepts: string -> bool, slug: string)
    requires slug in Run(map[], ops, accepts)
    ensures var p := Run(map[], ops, accepts)[slug];
            p.hooks == if p.tier != ManifestTier && EverOn(ops, accepts, slug)
                       then GrantedHooks(p.manifest.hooks, p.granted) else []
  {
    hide WebhooksOf, GrantedHooks;
    if ops != [] {
      var earlier := ops[..|ops| - 1];
      if slug in Run(map[], earlier, accepts) {
        HooksAreHistory(earlier, accepts, slug);
        StatusIsHistory(earlier, accepts, slug);
      }
    }
  }

  /** Webhook rows: those of the manifest and the config in force when the plugin was switched on,
      while it is, whatever is configured later. */
  lemma {:induction false} WebhooksAreHistory(ops: seq<Op>, accepts: string -> bool, slug: string)
    requires slug in Run(map[], ops, accepts)
    ensures var p := Run(map[], ops, accepts)[slug];
            p.webhooks == if p.tier == ManifestTier && SwitchedOn(ops, accepts, slug)
                          then WebhooksOf(p.manifest.webhooks, ConfigWhenOn(ops, accepts, slug), accepts) else []
  {
    hide WebhooksOf, GrantedHooks;
    if ops != [] {
      var earlier := ops[..|ops| - 1];
      if slug in Run(map[], earlier, accepts) {
        WebhooksAreHistory(earlier, accepts, slug);
        RegisteredAs(earlier, accepts, slug);
        StatusIsHistory(earlier, accepts, slug);
      }
    }
  }

  /** Slot rows: the manifest's, each under the name and at the place last given to it. */
  lemma {:induction false} SlotsAreHistory(ops: seq<Op>, accepts: string -> bool, slug: string, row: nat)
    requires slug in Run(map[], ops, accepts) && row < |Run(map[], ops, accepts)[slug].slots|
    ensures var p := Run(map[], ops, accepts)[slug];
            row < |p.manifest.slots| && p.slots[row] == match PlaceOf(ops, accepts, slug, row)
                                                        case None => p.manifest.slots[row]
                                                        case Some((name, order)) =>
                                                          p.manifest.slots[row].(name := name, loadOrder := order)
  {
    hide WebhooksOf, GrantedHooks;
    if ops != [] {
      var earlier := ops[..|ops| - 1];
      if slug in Run(map[], earlier, accepts) && row < |Run(map[], earlier, accepts)[slug].slots| {
        SlotsAreHistory(earlier, accepts, slug, row);
      }
    }
  }

  /** The webhook rows are exactly those of the definitions, one for each that gives a row. */
  lemma {:induction false} WebhooksAre(defs: seq<WebhookDef>, config: Option<Entries>, accepts: string -> bool, w: Webhook)
    ensures w in WebhooksOf(defs, config, accepts) <==> exists d <- defs :: WebhookOf(d, config, accepts) == [w]
    ensures |WebhooksOf(defs, config, accepts)| == Count(defs, (d: WebhookDef) => WebhookOf(d, config, accepts) != [])
  {
    if defs != [] {
      var n := |defs| - 1;
      WebhooksAre(defs[..n], config, accepts, w);
      assert defs == defs[..n] + [defs[n]];
      hide HasOpening, Resolved;
      assert WebhookOf(defs[n], config, accepts) == [] || |WebhookOf(defs[n], config, accepts)| == 1;
    }
  }

  /** The hook rows are one for each hook of the manifest that was granted. */
  lemma {:induction false} HooksAre(hooks: seq<Hook>, granted: set<string>)
    ensures |GrantedHooks(hooks, granted)| == Count(hooks, (h: Hook) => h.name in granted)
  {
    if hooks != [] {
      HooksAre(hooks[..|hooks| - 1], granted);
    }
  }
}
