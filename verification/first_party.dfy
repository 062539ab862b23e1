/** Loading the first-party templates: what it registers, and exactly when it fails. */
module FirstPartyTemplates {
  import opened Common
  import opened Templates

  /** The admin, mod and setup templates, added one at a time in order. */
  function AddOneByOne(env: Env, files: seq<(string, Template)>): Option<Env> {
    if files == [] then Some(env) else
    match AddOneByOne(env, files[..|files| - 1])
    case None => None
    case Some(e) => AddRawTemplates(e, map[files[|files| - 1].0 := files[|files| - 1].1])
  }

  /** The built-in theme in one batch, then the admin templates; None aborts the start-up. */
  function FirstParty(defaultTheme: Env, adminFiles: seq<(string, Template)>): Option<Env> {
    match AddRawTemplates(map[], defaultTheme)
    case None => None
    case Some(e) => AddOneByOne(e, adminFiles)
  }

  lemma {:induction false} AddOneByOneIsSound(env: Env, files: seq<(string, Template)>)
    requires Sound(env)
    ensures AddOneByOne(env, files).Some? ==> Sound(AddOneByOne(env, files).value)
  {
    if files != [] {
      AddOneByOneIsSound(env, files[..|files| - 1]);
    }
  }

  lemma FirstPartyIsSound(defaultTheme: Env, adminFiles: seq<(string, Template)>)
    ensures FirstParty(defaultTheme, adminFiles).Some? ==> Sound(FirstParty(defaultTheme, adminFiles).value)
  {
    var loaded := AddRawTemplates(map[], defaultTheme);
    if loaded.Some? {
      AddOneByOneIsSound(loaded.value, adminFiles);
    }
  }

  // ── In terms of the files alone ────────────────────────────────────────────

  function NamesIn(files: seq<(string, Template)>): set<string> { set f <- files :: f.0 }

  /** The last file with this name. */
  ghost predicate IsLast(files: seq<(string, Template)>, name: string, i: int) {
    0 <= i < |files| && files[i].0 == name && forall j :: i < j < |files| ==> files[j].0 != name
  }

  /** Exactly the default theme's names and the files' names, each with its own template; a name
      that comes more than once has that of its last file. */
  ghost predicate Registers(env: Env, defaultTheme: Env, files: seq<(string, Template)>) {
    && env.Keys == defaultTheme.Keys + NamesIn(files)
    && (forall n <- defaultTheme.Keys :: n !in NamesIn(files) ==> env[n] == defaultTheme[n])
    && (forall i, n :: IsLast(files, n, i) ==> n in env && env[n] == files[i].1)
  }

  predicate DistinctNames(defaultTheme: Env, files: seq<(string, Template)>) {
    && (forall i, j :: 0 <= i < j < |files| ==> files[i].0 != files[j].0)
    && (forall i :: 0 <= i < |files| ==> files[i].0 !in defaultTheme)
  }

  /** Every file loads over the default theme and the files before it. */
  ghost predicate EachLoads(defaultTheme: Env, files: seq<(string, Template)>) {
    forall i :: 0 <= i < |files| ==>
      Loadable(map[files[i].0 := files[i].1], defaultTheme.Keys + NamesIn(files[..i]))
  }

  lemma NamesSnoc(files: seq<(string, Template)>, f: (string, Template))
    ensures NamesIn(files + [f]) == NamesIn(files) + {f.0}
  {
    assert forall x :: x in files + [f] <==> x in files || x == f;
  }

  lemma RegistersOneMore(env: Env, defaultTheme: Env, files: seq<(string, Template)>, f: (string, Template))
    requires Registers(env, defaultTheme, files)
    ensures Registers(env + map[f.0 := f.1], defaultTheme, files + [f])
  {
    NamesSnoc(files, f);
    var more := files + [f];
    forall i, n | IsLast(more, n, i) ensures n in env + map[f.0 := f.1] && (env + map[f.0 := f.1])[n] == more[i].1 {
      if i < |files| {
        assert more[|files|] == f && n != f.0;
        assert forall j :: 0 <= j < |files| ==> more[j] == files[j];
        assert IsLast(files, n, i);
      }
    }
  }

  /** What succeeds registers every first-party template. */
  lemma {:induction false} AddedOneByOne(defaultTheme: Env, files: seq<(string, Template)>)
    requires AddOneByOne(defaultTheme, files).Some?
    ensures Registers(AddOneByOne(defaultTheme, files).value, defaultTheme, files)
  {
    if files != [] {
      var earlier, f := files[..|files| - 1], files[|files| - 1];
      AddedOneByOne(defaultTheme, earlier);
      assert files == earlier + [f];
      hide Registers, Sound;
      RegistersOneMore(AddOneByOne(defaultTheme, earlier).value, defaultTheme, earlier, f);
    }
  }

  lemma UnparsedIsUnsound(env: Env, name: string)
    requires name in env && !env[name].parses
    ensures !Sound(env)
  {
  }

  /** A file that does not parse makes the loading fail, wherever it comes. */
  lemma {:induction false} BadFileFails(defaultTheme: Env, files: seq<(string, Template)>, i: nat)
    requires i < |files| && !files[i].1.parses
    ensures AddOneByOne(defaultTheme, files).None?
  {
    var n := |files| - 1;
    if i < n {
      BadFileFails(defaultTheme, files[..n], i);
    } else if AddOneByOne(defaultTheme, files[..n]).Some? {
      var env := AddOneByOne(defaultTheme, files[..n]).value + map[files[n].0 := files[n].1];
      hide Sound;
      UnparsedIsUnsound(env, files[n].0);
    }
  }

  lemma EachLoadsOneMore(defaultTheme: Env, files: seq<(string, Template)>)
    requires files != []
    ensures var n := |files| - 1;
            EachLoads(defaultTheme, files)
            <==> && EachLoads(defaultTheme, files[..n])
                 && Loadable(map[files[n].0 := files[n].1], defaultTheme.Keys + NamesIn(files[..n]))
  {
    hide Loadable, NamesIn;
    assert forall i :: 0 <= i < |files| ==> files[..|files| - 1][..i] == files[..i];
  }

  /** With distinct names the loading succeeds exactly if every file loads. */
  lemma {:induction false} OneByOneIff(defaultTheme: Env, files: seq<(string, Template)>)
    requires Sound(defaultTheme) && DistinctNames(defaultTheme, files)
    ensures AddOneByOne(defaultTheme, files).Some? <==> EachLoads(defaultTheme, files)
  {
    if files != [] {
      var n := |files| - 1;
      OneByOneIff(defaultTheme, files[..n]);
      EachLoadsOneMore(defaultTheme, files);
      var before := AddOneByOne(defaultTheme, files[..n]);
      if before.Some? {
        AddedOneByOne(defaultTheme, files[..n]);
        AddOneByOneIsSound(defaultTheme, files[..n]);
        assert files[n].0 !in NamesIn(files[..n]);
        hide Sound, EachLoads, Loadable;
        LoadsIffLoadable(before.value, map[files[n].0 := files[n].1]);
      }
    }
  }

  lemma SoundIffLoadable(env: Env)
    ensures Sound(env) <==> Loadable(env, {})
  {
    var empty: Env := map[];
    assert empty + env == env;
    hide Sound, Loadable;
    NothingSound();
    LoadsIffLoadable(empty, env);
  }

  lemma NothingSound()
    ensures Sound(map[])
  {
  }

  /** What a successful start-up has registered. */
  lemma FirstPartyRegisters(defaultTheme: Env, files: seq<(string, Template)>)
    requires FirstParty(defaultTheme, files).Some?
    ensures Registers(FirstParty(defaultTheme, files).value, defaultTheme, files)
  {
    var empty: Env := map[];
    assert empty + defaultTheme == defaultTheme;
    AddedOneByOne(defaultTheme, files);
  }

  /** When the start-up is aborted: by the default theme, or by any file. */
  lemma FirstPartyFailsIff(defaultTheme: Env, files: seq<(string, Template)>)
    ensures !Loadable(defaultTheme, {}) ==> FirstParty(defaultTheme, files).None?
    ensures (exists i :: 0 <= i < |files| && !files[i].1.parses) ==> FirstParty(defaultTheme, files).None?
    ensures DistinctNames(defaultTheme, files) ==>
      (FirstParty(defaultTheme, files).None? <==> !Loadable(defaultTheme, {}) || !EachLoads(defaultTheme, files))
  {
    var empty: Env := map[];
    assert empty + defaultTheme == defaultTheme;
    SoundIffLoadable(defaultTheme);
    if i :| 0 <= i < |files| && !files[i].1.parses {
      BadFileFails(defaultTheme, files, i);
    }
    hide AddOneByOne, Loadable, EachLoads;
    if Sound(defaultTheme) && DistinctNames(defaultTheme, files) {
      OneByOneIff(defaultTheme, files);
    }
  }

  lemma NothingLoads()
    ensures AddRawTemplates(map[], map[]) == Some(map[])
  {
    var empty: Env := map[];
    assert empty + empty == empty;
  }

  /** Loads the first-party templates, counting the failures of the one-by-one part. If it succeeds,
      exactly the files are registered; it fails for a default theme that does not load and for any
      file that does not parse, and with distinct names exactly if the default theme does not load
      or some file does not over it and the files before. */
  method LoadFirstParty(defaultTheme: Env, adminFiles: seq<(string, Template)>) returns (result: Option<Env>)
    ensures result == FirstParty(defaultTheme, adminFiles)
    ensures result.Some? ==> Sound(result.value) && Registers(result.value, defaultTheme, adminFiles)
    ensures !Loadable(defaultTheme, {}) ==> result.None?
    ensures (exists i :: 0 <= i < |adminFiles| && !adminFiles[i].1.parses) ==> result.None?
    ensures DistinctNames(defaultTheme, adminFiles) ==>
      (result.None? <==> !Loadable(defaultTheme, {}) || !EachLoads(defaultTheme, adminFiles))
  {
    FirstPartyIsSound(defaultTheme, adminFiles);
    FirstPartyFailsIff(defaultTheme, adminFiles);
    if FirstParty(defaultTheme, adminFiles).Some? { FirstPartyRegisters(defaultTheme, adminFiles); }
    hide AddRawTemplates, Sound, Loadable, Registers, EachLoads, DistinctNames;
    var tera: Env := map[];
    NothingLoads();
    if defaultTheme != map[] {
      var loaded := AddRawTemplates(tera, defaultTheme);
      if loaded.None? { return None; }
      tera := loaded.value;
    }
    ghost var start := tera;
    var failures := 0;
    for i := 0 to |adminFiles|
      invariant failures == 0 ==> AddOneByOne(start, adminFiles[..i]) == Some(tera)
      invariant failures > 0 ==> AddOneByOne(start, adminFiles[..i]).None?
    {
      assert adminFiles[..i + 1][..i] == adminFiles[..i];
      match AddRawTemplates(tera, map[adminFiles[i].0 := adminFiles[i].1]) {
        case Some(e) => tera := e;
        case None => failures := failures + 1;
      }
    }
    assert adminFiles[..|adminFiles|] == adminFiles;
    result := if failures > 0 then None else Some(tera);
  }
}
