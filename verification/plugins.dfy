/** The life of a plugin: its status and the hook, UI-slot and webhook rows it owns. */
module Plugins {
  import opened Common
  import opened ConfigTemplates

  datatype Tier = ManifestTier | ScriptTier | ServiceTier
  datatype PluginStatus = Installing | Active | Inactive | Error | Disabled | Uninstalling

  datatype Hook = Hook(name: string, priority: int)
  datatype Slot = Slot(name: string, assetUrl: string, loadOrder: int)
  datatype Webhook = Webhook(url: string, event: string)

  /** A webhook of the manifest; a missing URL reads as empty. */
  datatype WebhookDef = WebhookDef(url: string, event: Option<string>)

  datatype Manifest = Manifest(
    hooks: seq<Hook>, slots: seq<Slot>, webhooks: seq<WebhookDef>,
    required: set<string>, needsSchema: bool, needsRuntime: bool)

  datatype Plugin = Plugin(
    tier: Tier, status: PluginStatus, manifest: Manifest, config: Option<Entries>, granted: set<string>,
    hooks: seq<Hook>, slots: seq<Slot>, webhooks: seq<Webhook>)

  type Table = map<string, Plugin>

  /** The outcomes of provisioning a schema and of starting a script runtime are part of the call. */
  datatype Op =
    | Register(permitted: bool, slug: string, tier: Tier, manifest: Manifest, granted: set<string>, schemaOk: bool)
    | Configure(permitted: bool, slug: string, config: Option<Entries>, runtimeOk: bool)
    | Activate(permitted: bool, slug: string, runtimeOk: bool)
    | Deactivate(permitted: bool, slug: string)
    | Uninstall(permitted: bool, slug: string, confirm: string)
    | Place(permitted: bool, slug: string, row: nat, name: string, order: int)

  // ── Rows the manifest asks for ─────────────────────────────────────────────

  function GrantedHooks(hooks: seq<Hook>, granted: set<string>): seq<Hook> {
    if hooks == [] then []
    else GrantedHooks(hooks[..|hooks| - 1], granted) +
         (if hooks[|hooks| - 1].name in granted then [hooks[|hooks| - 1]] else [])
  }

  function Resolved(template: string, config: Option<Entries>): string {
    if config.None? then template else ResolveEach(template, config.value)
  }

  /** The row a definition gives rise to: none without URL or event, none while a placeholder is
      unresolved, none for a URL that is not acceptable. */
  function WebhookOf(def: WebhookDef, config: Option<Entries>, accepts: string -> bool): seq<Webhook> {
    if def.url == "" || def.event.None? then []
    else if HasOpening(Resolved(def.url, config)) || !accepts(Resolved(def.url, config)) then []
    else [Webhook(Resolved(def.url, config), def.event.value)]
  }

  function WebhooksOf(defs: seq<WebhookDef>, config: Option<Entries>, accepts: string -> bool): seq<Webhook> {
    if defs == [] then []
    else WebhooksOf(defs[..|defs| - 1], config, accepts) + WebhookOf(defs[|defs| - 1], config, accepts)
  }

  // ── The calls ──────────────────────────────────────────────────────────────

  function HasField(config: Option<Entries>, key: string): bool {
    config.Some? && exists e <- config.value :: e.0 == key
  }

  function Refusal(table: Table, op: Op): Option<Common.Error> {
    if !op.permitted then Some(Forbidden("permission_denied")) else
    match op
    case Register(_, slug, _, _, _, _) =>
      if slug in table then Some(Conflict("plugin_already_installed")) else None
    case Configure(_, slug, config, _) =>
      if slug !in table then Some(NotFound)
      else if exists f <- table[slug].manifest.required :: !HasField(config, f)
      then Some(Unprocessable("Config field is required"))
      else None
    case Uninstall(_, slug, confirm) =>
      if slug != confirm then Some(Unprocessable("Confirmation slug does not match plugin slug"))
      else if slug !in table then Some(NotFound) else None
    case Place(_, slug, row, name, _) =>
      if slug !in table || row >= |table[slug].slots| then Some(NotFound)
      else if Blank(name) then Some(Unprocessable("Slot name cannot be empty"))
      else None
    case _ => if op.slug !in table then Some(NotFound) else None
  }

  predicate SchemaFails(op: Op) { op.Register? && op.manifest.needsSchema && !op.schemaOk }

  /** What the call answers: its refusal, or the failure to provision the schema of a plugin that
      is registered all the same. */
  function Reply(table: Table, op: Op): Option<Common.Error> {
    if Refusal(table, op).None? && SchemaFails(op) then Some(Internal) else Refusal(table, op)
  }

  /** Reloading a running script plugin restarts its runtime; if that fails the plugin is in error. */
  function Reloaded(p: Plugin, runtimeOk: bool): Plugin {
    if p.status.Active? && p.tier.ScriptTier? && p.manifest.needsRuntime && !runtimeOk
    then p.(status := PluginStatus.Error) else p
  }

  /** Hooks and slots are written afresh, webhooks are added to those there are. */
  function WithRows(p: Plugin, accepts: string -> bool): Plugin {
    p.(hooks := if p.tier.ManifestTier? then p.hooks else GrantedHooks(p.manifest.hooks, p.granted),
       slots := p.manifest.slots,
       webhooks := if p.tier.ManifestTier? then p.webhooks + WebhooksOf(p.manifest.webhooks, p.config, accepts) else p.webhooks)
  }

  function Activated(p: Plugin, runtimeOk: bool, accepts: string -> bool): Plugin {
    if p.status.Active? then p
    else Reloaded(WithRows(p, accepts).(status := Active), runtimeOk)
  }

  function Deactivated(p: Plugin): Plugin {
    p.(status := Inactive, webhooks := [], slots := [])
  }

  /** Renames and reorders one slot row, in force at once. */
  function Placed(p: Plugin, row: nat, name: string, order: int): Plugin
    requires row < |p.slots|
  {
    p.(slots := p.slots[row := p.slots[row].(name := name, loadOrder := order)])
  }

  function Registered(op: Op): Plugin
    requires op.Register?
  {
    Plugin(op.tier, if SchemaFails(op) then PluginStatus.Error else Inactive,
           op.manifest, Some([]), op.granted, [], [], [])
  }

  function Step(table: Table, op: Op, accepts: string -> bool): Table {
    if Refusal(table, op).Some? then table else
    match op
    case Register(_, slug, _, _, _, _) => table[slug := Registered(op)]
    case Configure(_, slug, config, runtimeOk) => table[slug := Reloaded(table[slug].(config := config), runtimeOk)]
    case Activate(_, slug, runtimeOk) => table[slug := Activated(table[slug], runtimeOk, accepts)]
    case Deactivate(_, slug) => table[slug := Deactivated(table[slug])]
    case Uninstall(_, slug, _) => table - {slug}
    case Place(_, slug, row, name, order) => table[slug := Placed(table[slug], row, name, order)]
  }

  function Run(start: Table, ops: seq<Op>, accepts: string -> bool): Table {
    if ops == [] then start else Step(Run(start, ops[..|ops| - 1], accepts), ops[|ops| - 1], accepts)
  }

  /** A definition whose URL is placeholders and text without opening braces gives rise to a row exactly when
      it has an event, every placeholder's field is a configured string and the filled URL is
      acceptable; the row then carries the URL filled all at once. */
  lemma WebhookWrittenIff(segs: seq<Segment>, event: Option<string>, entries: Entries, accepts: string -> bool)
    requires AllClean(segs) && CleanEntries(entries) && UniqueKeys(entries) && Render(segs) != ""
    ensures var rows, filled := WebhookOf(WebhookDef(Render(segs), event), Some(entries), accepts), Render(FillAll(segs, entries));
            && (rows != [] <==> event.Some? && accepts(filled)
                                && forall seg <- segs :: seg.Hole? ==> Configured(entries, seg.key).Some?)
            && (rows != [] ==> rows == [Webhook(filled, event.value)])
  {
    SequentialIsSimultaneous(segs, entries);
    UnresolvedIffMissing(segs, entries);
  }

  lemma NoWebhooksYet(rows: seq<Webhook>, config: Option<Entries>, accepts: string -> bool)
    ensures rows + WebhooksOf([], config, accepts) == rows
  {
    assert rows + [] == rows;
  }

  lemma OneMoreWebhook(rows: seq<Webhook>, defs: seq<WebhookDef>, i: nat, config: Option<Entries>, accepts: string -> bool)
    requires i < |defs|
    ensures var written := rows + WebhooksOf(defs[..i], config, accepts);
            rows + WebhooksOf(defs[..i + 1], config, accepts)
            == if WebhookOf(defs[i], config, accepts) == [] then written
               else written + WebhookOf(defs[i], config, accepts)
  {
    assert defs[..i + 1][..i] == defs[..i];
    var before, one := WebhooksOf(defs[..i], config, accepts), WebhookOf(defs[i], config, accepts);
    assert rows + (before + one) == (rows + before) + one;
  }

  class PluginUseCase {
    var table: Table
    const accepts: string -> bool

    constructor (accepts: string -> bool)
      ensures table == map[] && this.accepts == accepts
    {
      table, this.accepts := map[], accepts;
    }

    method RegisterHooksFromManifest(slug: string)
      requires slug in table
      modifies this`table
      ensures table == old(table)[slug := old(table)[slug].(
                hooks := GrantedHooks(old(table)[slug].manifest.hooks, old(table)[slug].granted))]
    {
      var plugin := table[slug];
      table := table[slug := plugin.(hooks := [])];
      var hooks := plugin.manifest.hooks;
      for i := 0 to |hooks|
        invariant table == old(table)[slug := plugin.(hooks := GrantedHooks(hooks[..i], plugin.granted))]
      {
        assert hooks[..i + 1][..i] == hooks[..i];
        ghost var written := GrantedHooks(hooks[..i], plugin.granted);
        assert GrantedHooks(hooks[..i + 1], plugin.granted)
            == written + (if hooks[i].name in plugin.granted then [hooks[i]] else []);
        assert written + [] == written;
        if hooks[i].name !in plugin.granted { continue; }
        table := table[slug := table[slug].(hooks := table[slug].hooks + [hooks[i]])];
      }
      assert hooks[..|hooks|] == hooks;
    }

    method RegisterUiSlotsFromManifest(slug: string)
      requires slug in table
      modifies this`table
      ensures table == old(table)[slug := old(table)[slug].(slots := old(table)[slug].manifest.slots)]
    {
      var plugin := table[slug];
      table := table[slug := plugin.(slots := [])];
      var slots := plugin.manifest.slots;
      for i := 0 to |slots|
        invariant table == old(table)[slug := plugin.(slots := slots[..i])]
      {
        assert slots[..i + 1] == slots[..i] + [slots[i]];
        table := table[slug := table[slug].(slots := table[slug].slots + [slots[i]])];
      }
      assert slots[..|slots|] == slots;
    }

    method RegisterManifestWebhooks(slug: string)
      requires slug in table
      modifies this`table
      ensures var p := old(table)[slug];
              table == old(table)[slug := p.(
                webhooks := p.webhooks + WebhooksOf(p.manifest.webhooks, p.config, accepts))]
    {
      hide WebhooksOf;
      var plugin := table[slug];
      var defs := plugin.manifest.webhooks;
      NoWebhooksYet(plugin.webhooks, plugin.config, accepts);
      for i := 0 to |defs|
        invariant table == old(table)[slug := plugin.(
                    webhooks := plugin.webhooks + WebhooksOf(defs[..i], plugin.config, accepts))]
      {
        OneMoreWebhook(plugin.webhooks, defs, i, plugin.config, accepts);
        if defs[i].url == "" || defs[i].event.None? { continue; }
        var resolved := ResolveConfigTemplate(defs[i].url, plugin.config);
        if HasOpening(resolved) { continue; }
        if !accepts(resolved) { continue; }
        table := table[slug := table[slug].(webhooks := table[slug].webhooks + [Webhook(resolved, defs[i].event.value)])];
      }
      assert defs[..|defs|] == defs;
    }

    method ReloadPlugin(slug: string, runtimeOk: bool)
      requires slug in table
      modifies this`table
      ensures table == old(table)[slug := Reloaded(old(table)[slug], runtimeOk)]
    {
      var p := table[slug];
      if p.status.Active? && p.tier.ScriptTier? && p.manifest.needsRuntime && !runtimeOk {
        table := table[slug := p.(status := PluginStatus.Error)];
      }
    }

    method RegisterExtracted(permitted: bool, slug: string, tier: Tier, manifest: Manifest, granted: set<string>, schemaOk: bool)
        returns (failed: Option<Common.Error>)
      modifies this`table
      ensures failed == Reply(old(table), Register(permitted, slug, tier, manifest, granted, schemaOk))
      ensures table == Step(old(table), Register(permitted, slug, tier, manifest, granted, schemaOk), accepts)
    {
      if !permitted { return Some(Forbidden("permission_denied")); }
      if slug in table { return Some(Conflict("plugin_already_installed")); }
      var plugin := Plugin(tier, Installing, manifest, Some([]), granted, [], [], []);
      table := table[slug := plugin];
      if manifest.needsSchema && !schemaOk {
        table := table[slug := plugin.(status := PluginStatus.Error)];
        return Some(Internal);
      }
      table := table[slug := plugin.(status := Inactive)];
      return None;
    }

    method Configure(permitted: bool, slug: string, config: Option<Entries>, runtimeOk: bool) returns (refused: Option<Common.Error>)
      modifies this`table
      ensures refused == Refusal(old(table), Op.Configure(permitted, slug, config, runtimeOk))
      ensures table == Step(old(table), Op.Configure(permitted, slug, config, runtimeOk), accepts)
    {
      if !permitted { return Some(Forbidden("permission_denied")); }
      if slug !in table { return Some(NotFound); }
      if exists f <- table[slug].manifest.required :: !HasField(config, f) {
        return Some(Unprocessable("Config field is required"));
      }
      table := table[slug := table[slug].(config := config)];
      ReloadPlugin(slug, runtimeOk);
      return None;
    }

    method Activate(permitted: bool, slug: string, runtimeOk: bool) returns (refused: Option<Common.Error>)
      modifies this`table
      ensures refused == Refusal(old(table), Op.Activate(permitted, slug, runtimeOk))
      ensures table == Step(old(table), Op.Activate(permitted, slug, runtimeOk), accepts)
    {
      if !permitted { return Some(Forbidden("permission_denied")); }
      if slug !in table { return Some(NotFound); }
      var plugin := table[slug];
      if plugin.status.Active? { return None; }
      if !plugin.tier.ManifestTier? {
        RegisterHooksFromManifest(slug);
      }
      RegisterUiSlotsFromManifest(slug);
      if plugin.tier.ManifestTier? {
        RegisterManifestWebhooks(slug);
      }
      table := table[slug := table[slug].(status := Active)];
      ReloadPlugin(slug, runtimeOk);
      return None;
    }

    method Deactivate(permitted: bool, slug: string) returns (refused: Option<Common.Error>)
      modifies this`table
      ensures refused == Refusal(old(table), Op.Deactivate(permitted, slug))
      ensures table == Step(old(table), Op.Deactivate(permitted, slug), accepts)
    {
      if !permitted { return Some(Forbidden("permission_denied")); }
      if slug !in table { return Some(NotFound); }
      table := table[slug := table[slug].(status := Inactive)];
      table := table[slug := table[slug].(webhooks := [])];
      table := table[slug := table[slug].(slots := [])];
      ReloadPlugin(slug, true);
      return None;
    }

    method Uninstall(permitted: bool, slug: string, confirm: string) returns (refused: Option<Common.Error>)
      modifies this`table
      ensures refused == Refusal(old(table), Op.Uninstall(permitted, slug, confirm))
      ensures table == Step(old(table), Op.Uninstall(permitted, slug, confirm), accepts)
    {
      if !permitted { return Some(Forbidden("permission_denied")); }
      if slug != confirm { return Some(Unprocessable("Confirmation slug does not match plugin slug")); }
      if slug !in table { return Some(NotFound); }
      table := table[slug := table[slug].(status := Uninstalling)];
      ReloadPlugin(slug, true);
      table := table - {slug};
      return None;
    }

    method UpdateUiSlotPlacement(permitted: bool, slug: string, row: nat, name: string, order: int)
        returns (refused: Option<Common.Error>)
      modifies this`table
      ensures refused == Refusal(old(table), Place(permitted, slug, row, name, order))
      ensures table == Step(old(table), Place(permitted, slug, row, name, order), accepts)
    {
      if !permitted { return Some(Forbidden("permission_denied")); }
      if slug !in table { return Some(NotFound); }
      var owned := table[slug].slots;
      if row >= |owned| { return Some(NotFound); }
      if Blank(name) { return Some(Unprocessable("Slot name cannot be empty")); }
      table := table[slug := table[slug].(slots := owned[row := owned[row].(name := name, loadOrder := order)])];
      return None;
    }
  }

  // ── What every run keeps ───────────────────────────────────────────────────

  /** Rows match the status: webhooks only while a manifest plugin is active, slots only while a
      plugin is active or, for a script plugin, in error; every hook row is one the manifest asks
      for and the administrator granted. */
  ghost predicate RowsMatch(p: Plugin) {
    && (p.webhooks != [] ==> p.status.Active? && p.tier.ManifestTier?)
    && (p.slots != [] ==> p.status.Active? || (p.status.Error? && p.tier.ScriptTier?))
    && (forall h <- p.hooks :: h in p.manifest.hooks && h.name in p.granted)
  }

  lemma {:induction false} GrantedHooksAreBoth(hooks: seq<Hook>, granted: set<string>, h: Hook)
    ensures h in GrantedHooks(hooks, granted) <==> h in hooks && h.name in granted
  {
    if hooks != [] {
      GrantedHooksAreBoth(hooks[..|hooks| - 1], granted, h);
      assert hooks == hooks[..|hooks| - 1] + [hooks[|hooks| - 1]];
    }
  }

  lemma ActivatedRowsMatch(p: Plugin, runtimeOk: bool, accepts: string -> bool)
    requires RowsMatch(p)
    ensures RowsMatch(Activated(p, runtimeOk, accepts))
  {
    forall h | h in GrantedHooks(p.manifest.hooks, p.granted) ensures h in p.manifest.hooks && h.name in p.granted {
      GrantedHooksAreBoth(p.manifest.hooks, p.granted, h);
    }
  }

  lemma {:induction false} RunRowsMatch(ops: seq<Op>, accepts: string -> bool)
    ensures forall slug <- Run(map[], ops, accepts).Keys :: RowsMatch(Run(map[], ops, accepts)[slug])
  {
    if ops != [] {
      var earlier, op := ops[..|ops| - 1], ops[|ops| - 1];
      RunRowsMatch(earlier, accepts);
      var before := Run(map[], earlier, accepts);
      if op.slug in before && op.Activate? {
        ActivatedRowsMatch(before[op.slug], op.runtimeOk, accepts);
      }
    }
  }

  /** Activating a plugin of any run that is not active writes exactly the rows its manifest, its
      grants and its config ask for, none of them twice over. */
  lemma ActivationWritesExactly(ops: seq<Op>, accepts: string -> bool, slug: string, runtimeOk: bool)
    requires slug in Run(map[], ops, accepts) && !Run(map[], ops, accepts)[slug].status.Active?
    ensures var p := Run(map[], ops, accepts)[slug];
            var q := Activated(p, runtimeOk, accepts);
            && q.slots == p.manifest.slots
            && (!p.tier.ManifestTier? ==> q.hooks == GrantedHooks(p.manifest.hooks, p.granted) && q.webhooks == [])
            && (p.tier.ManifestTier? ==> q.webhooks == WebhooksOf(p.manifest.webhooks, p.config, accepts))
  {
    RunRowsMatch(ops, accepts);
    assert RowsMatch(Run(map[], ops, accepts)[slug]);
  }

  /** Deactivating and activating again leaves the plugin as one activation does; it also undoes what
      placements changed. */
  lemma ReactivationChangesNothing(ops: seq<Op>, accepts: string -> bool, slug: string, runtimeOk: bool)
    requires slug in Run(map[], ops, accepts) && !Run(map[], ops, accepts)[slug].status.Active?
    ensures var p := Run(map[], ops, accepts)[slug];
            var once := Activated(p, runtimeOk, accepts);
            && Activated(Deactivated(once), runtimeOk, accepts) == once
            && forall row: nat, name, order :: row < |once.slots| ==>
                 Activated(Deactivated(Placed(once, row, name, order)), runtimeOk, accepts) == once
  {
    ActivationWritesExactly(ops, accepts, slug, runtimeOk);
    RunRowsMatch(ops, accepts);
    assert RowsMatch(Run(map[], ops, accepts)[slug]);
  }

  /** The last effective reload of the plugin was a failed one. Activating a plugin that is not
      active reloads it, and so does configuring an active one; registering, deactivating and
      uninstalling it start the history over, and placing a slot does not touch it. */
  ghost predicate LastReloadFailed(ops: seq<Op>, accepts: string -> bool, slug: string) {
    ops != [] &&
    var earlier, op := ops[..|ops| - 1], ops[|ops| - 1];
    var before := Run(map[], earlier, accepts);
    if op.slug != slug || Refusal(before, op).Some? then LastReloadFailed(earlier, accepts, slug)
    else match op
      case Activate(_, _, runtimeOk) =>
        if before[slug].status.Active? then LastReloadFailed(earlier, accepts, slug) else !runtimeOk
      case Configure(_, _, _, runtimeOk) =>
        if before[slug].status.Active? then !runtimeOk else LastReloadFailed(earlier, accepts, slug)
      case Place(_, _, _, _, _) => LastReloadFailed(earlier, accepts, slug)
      case _ => false
  }

  /** Only script plugins with a runtime to start notice that a reload failed. */
  predicate NoticesFailure(p: Plugin) { p.tier.ScriptTier? && p.manifest.needsRuntime }

  /** The manifest's slots row by row, up to the names and places an administrator gave them. */
  predicate AllPlaced(slots: seq<Slot>, manifest: seq<Slot>) {
    |slots| == |manifest| && forall i :: 0 <= i < |slots| ==> slots[i].assetUrl == manifest[i].assetUrl
  }

  /** What status and slots owe to the history of reloads. */
  ghost predicate SlotsMatch(p: Plugin, failed: bool) {
    if p.status.Active? then AllPlaced(p.slots, p.manifest.slots) && !(NoticesFailure(p) && failed)
    else if NoticesFailure(p) && failed then p.status.Error? && AllPlaced(p.slots, p.manifest.slots)
    else p.slots == []
  }

  lemma {:induction false} RunSlotsMatch(ops: seq<Op>, accepts: string -> bool, slug: string)
    requires slug in Run(map[], ops, accepts)
    ensures SlotsMatch(Run(map[], ops, accepts)[slug], LastReloadFailed(ops, accepts, slug))
  {
    hide WebhooksOf, GrantedHooks;
    if ops != [] {
      var earlier, op := ops[..|ops| - 1], ops[|ops| - 1];
      if slug in Run(map[], earlier, accepts) {
        RunSlotsMatch(earlier, accepts, slug);
      }
    }
  }

  /** In every run a plugin has slots without being active if and only if its manifest has slots,
      it is a script plugin with a runtime to start, and its last effective reload, by activation
      or by configuration, failed. */
  lemma SlotsOnlyWhileActiveIff(ops: seq<Op>, accepts: string -> bool, slug: string)
    requires slug in Run(map[], ops, accepts)
    ensures var p := Run(map[], ops, accepts)[slug];
            p.slots != [] && !p.status.Active?
            <==> p.manifest.slots != [] && NoticesFailure(p) && LastReloadFailed(ops, accepts, slug)
  {
    RunSlotsMatch(ops, accepts, slug);
  }

  lemma {:induction false} NoFailureNoTrace(ops: seq<Op>, accepts: string -> bool, slug: string)
    requires forall op <- ops :: op.slug == slug && (op.Activate? || op.Configure?) ==> op.runtimeOk
    ensures !LastReloadFailed(ops, accepts, slug)
  {
    if ops != [] {
      assert ops[|ops| - 1] in ops && forall op <- ops[..|ops| - 1] :: op in ops;
      NoFailureNoTrace(ops[..|ops| - 1], accepts, slug);
    }
  }

  /** So where every runtime starts, a plugin has slots only while it is active. */
  lemma SlotsOnlyWhileActive(ops: seq<Op>, accepts: string -> bool, slug: string)
    requires slug in Run(map[], ops, accepts)
    requires forall op <- ops :: op.slug == slug && (op.Activate? || op.Configure?) ==> op.runtimeOk
    ensures var p := Run(map[], ops, accepts)[slug]; p.slots != [] ==> p.status.Active?
  {
    NoFailureNoTrace(ops, accepts, slug);
    SlotsOnlyWhileActiveIff(ops, accepts, slug);
  }
}
