/** Filling `{{config.key}}` placeholders one key at a time, against filling them all at once. */
module ConfigTemplates {
  import opened Common

  /** A config object's entries in iteration order; a value that is not a string is None. */
  type Entries = seq<(string, Option<string>)>

  predicate StartsWith(s: string, p: string) {
    |p| <= |s| && s[..|p|] == p
  }

  /** Replaces every occurrence of the pattern, leftmost first and not overlapping. */
  function Replace(s: string, pattern: string, value: string): string
    requires pattern != ""
    decreases |s|
  {
    if s == "" then ""
    else if StartsWith(s, pattern) then value + Replace(s[|pattern|..], pattern, value)
    else [s[0]] + Replace(s[1..], pattern, value)
  }

  function Placeholder(key: string): string { "{{config." + key + "}}" }

  /** The template after one round per entry, in order. */
  function ResolveEach(template: string, entries: Entries): string {
    if entries == [] then template
    else
      var (key, value) := entries[|entries| - 1];
      var earlier := ResolveEach(template, entries[..|entries| - 1]);
      if value.Some? then Replace(earlier, Placeholder(key), value.value) else earlier
  }

  /** The resolution loop; a config that is not an object resolves nothing. */
  method ResolveConfigTemplate(template: string, config: Option<Entries>) returns (result: string)
    ensures result == if config.None? then template else ResolveEach(template, config.value)
  {
    result := template;
    if config.Some? {
      var entries := config.value;
      for i := 0 to |entries|
        invariant result == ResolveEach(template, entries[..i])
      {
        assert entries[..i + 1][..i] == entries[..i];
        var (key, value) := entries[i];
        var placeholder := Placeholder(key);
        if value.Some? {
          result := Replace(result, placeholder, value.value);
        }
      }
      assert entries[..|entries|] == entries;
    }
  }

  // ── Templates as text and holes ────────────────────────────────────────────

  datatype Segment = Text(text: string) | Hole(key: string)

  predicate BraceFree(s: string) { '{' !in s && '}' !in s }

  /** Text without an opening brace, or a placeholder whose key has no brace at all. */
  predicate Clean(seg: Segment) {
    match seg
    case Text(t) => '{' !in t
    case Hole(k) => BraceFree(k)
  }

  predicate AllClean(segs: seq<Segment>) { forall seg <- segs :: Clean(seg) }

  function RenderOne(seg: Segment): string {
    match seg
    case Text(t) => t
    case Hole(k) => Placeholder(k)
  }

  function Render(segs: seq<Segment>): string {
    if segs == [] then "" else RenderOne(segs[0]) + Render(segs[1..])
  }

  function FillOne(seg: Segment, key: string, value: string): Segment {
    if seg == Hole(key) then Text(value) else seg
  }

  function Fill(segs: seq<Segment>, key: string, value: string): seq<Segment> {
    if segs == [] then [] else [FillOne(segs[0], key, value)] + Fill(segs[1..], key, value)
  }

  lemma NotStarting(s: string, p: string, i: nat)
    requires i < |p| && (i < |s| ==> s[i] != p[i])
    ensures !StartsWith(s, p)
  {
    if |p| <= |s| {
      assert s[..|p|][i] == s[i];
    }
  }

  lemma {:induction false} SkipWithoutOpen(t: string, rest: string, key: string, value: string)
    requires '{' !in t
    ensures Replace(t + rest, Placeholder(key), value) == t + Replace(rest, Placeholder(key), value)
    decreases |t|
  {
    if t == "" {
      assert t + rest == rest;
    } else {
      assert t[0] in t;
      NotStarting(t + rest, Placeholder(key), 0);
      assert (t + rest)[1..] == t[1..] + rest;
      SkipWithoutOpen(t[1..], rest, key, value);
    }
  }

  lemma DifferentKey(other: string, rest: string, key: string)
    requires BraceFree(other) && BraceFree(key) && other != key
    ensures !StartsWith(Placeholder(other) + rest, Placeholder(key))
  {
    var s, p := Placeholder(other) + rest, Placeholder(key);
    assert forall i :: 0 <= i < |key| ==> p[i + 9] == key[i] && key[i] in key;
    assert forall i :: 0 <= i < |other| ==> s[i + 9] == other[i] && other[i] in other;
    var n := CommonPrefix(key, other);
    NotStarting(s, p, n + 9);
  }

  lemma {:induction false} CommonPrefix(a: string, b: string) returns (n: nat)
    requires a != b
    ensures n <= |a| && n <= |b| && a[..n] == b[..n]
    ensures (n < |a| && n < |b| && a[n] != b[n]) || (n == |a| && n < |b|) || (n < |a| && n == |b|)
  {
    if a == "" || b == "" || a[0] != b[0] {
      n := 0;
    } else {
      assert a == [a[0]] + a[1..] && b == [b[0]] + b[1..];
      var m := CommonPrefix(a[1..], b[1..]);
      n := m + 1;
      assert a[..n] == [a[0]] + a[1..][..m] && b[..n] == [b[0]] + b[1..][..m];
    }
  }

  lemma ReplaceMatch(rest: string, key: string, value: string)
    ensures Replace(Placeholder(key) + rest, Placeholder(key), value) == value + Replace(rest, Placeholder(key), value)
  {
    var p := Placeholder(key);
    assert (p + rest)[..|p|] == p && (p + rest)[|p|..] == rest;
  }

  lemma ReplaceNoMatch(other: string, rest: string, key: string, value: string)
    requires BraceFree(other) && BraceFree(key) && other != key
    ensures Replace(Placeholder(other) + rest, Placeholder(key), value)
            == Placeholder(other) + Replace(rest, Placeholder(key), value)
  {
    var p, tail := Placeholder(key), "config." + other + "}}";
    var s := Placeholder(other) + rest;
    DifferentKey(other, rest, key);
    assert s == "{" + ("{" + (tail + rest));
    assert s[1..] == "{" + (tail + rest);
    assert s[1..][1..] == tail + rest;
    NotStarting(s[1..], p, 1);
    SkipWithoutOpen(tail, rest, key, value);
    hide StartsWith;
    calc {
      Replace(s, p, value);
      "{" + Replace(s[1..], p, value);
      "{" + ("{" + Replace(tail + rest, p, value));
      "{" + ("{" + (tail + Replace(rest, p, value)));
      Placeholder(other) + Replace(rest, p, value);
    }
  }

  lemma ReplaceInOne(seg: Segment, rest: string, key: string, value: string)
    requires Clean(seg) && BraceFree(key)
    ensures Replace(RenderOne(seg) + rest, Placeholder(key), value)
            == RenderOne(FillOne(seg, key, value)) + Replace(rest, Placeholder(key), value)
  {
    hide Replace, Placeholder;
    match seg {
      case Text(t) => SkipWithoutOpen(t, rest, key, value);
      case Hole(k) =>
        if k == key { ReplaceMatch(rest, key, value); } else { ReplaceNoMatch(k, rest, key, value); }
    }
  }

  /** Replacing one placeholder in the text of a template fills exactly the holes of that key. */
  lemma {:induction false} ReplaceFills(segs: seq<Segment>, key: string, value: string)
    requires AllClean(segs) && BraceFree(key)
    ensures Replace(Render(segs), Placeholder(key), value) == Render(Fill(segs, key, value))
  {
    if segs != [] {
      ReplaceInOne(segs[0], Render(segs[1..]), key, value);
      ReplaceFills(segs[1..], key, value);
    }
  }

  // ── All keys at once ───────────────────────────────────────────────────────

  predicate UniqueKeys(entries: Entries) {
    forall i, j :: 0 <= i < j < |entries| ==> entries[i].0 != entries[j].0
  }

  predicate CleanEntries(entries: Entries) {
    forall e <- entries :: BraceFree(e.0) && (e.1.Some? ==> '{' !in e.1.value)
  }

  /** The string a key is configured to, if it is. */
  function Configured(entries: Entries, key: string): Option<string> {
    if entries == [] then None
    else if entries[|entries| - 1].0 == key then entries[|entries| - 1].1
    else Configured(entries[..|entries| - 1], key)
  }

  function FillAllOne(seg: Segment, entries: Entries): Segment {
    if seg.Hole? && Configured(entries, seg.key).Some? then Text(Configured(entries, seg.key).value) else seg
  }

  function FillAll(segs: seq<Segment>, entries: Entries): seq<Segment> {
    if segs == [] then [] else [FillAllOne(segs[0], entries)] + FillAll(segs[1..], entries)
  }

  lemma {:induction false} ConfiguredIsEntry(entries: Entries, key: string)
    requires Configured(entries, key).Some?
    ensures (key, Configured(entries, key)) in entries
  {
    if entries[|entries| - 1].0 != key {
      ConfiguredIsEntry(entries[..|entries| - 1], key);
    } else {
      assert entries[|entries| - 1] == (key, Configured(entries, key));
    }
  }

  lemma {:induction false} AbsentIsNone(entries: Entries, key: string)
    requires forall i :: 0 <= i < |entries| ==> entries[i].0 != key
    ensures Configured(entries, key).None?
  {
    if entries != [] {
      AbsentIsNone(entries[..|entries| - 1], key);
    }
  }

  lemma {:induction false} FillAllIsClean(segs: seq<Segment>, entries: Entries)
    requires AllClean(segs) && CleanEntries(entries)
    ensures AllClean(FillAll(segs, entries))
  {
    if segs != [] {
      FillAllIsClean(segs[1..], entries);
      if segs[0].Hole? && Configured(entries, segs[0].key).Some? {
        ConfiguredIsEntry(entries, segs[0].key);
      }
    }
  }

  lemma {:induction false} FillLast(segs: seq<Segment>, entries: Entries)
    requires entries != [] && UniqueKeys(entries)
    ensures var (key, value) := entries[|entries| - 1];
            var before := FillAll(segs, entries[..|entries| - 1]);
            FillAll(segs, entries) == if value.Some? then Fill(before, key, value.value) else before
  {
    if segs != [] {
      FillLast(segs[1..], entries);
      var (key, value) := entries[|entries| - 1];
      var earlier := entries[..|entries| - 1];
      AbsentIsNone(earlier, key);
    }
  }

  /** For templates made of text without opening braces and placeholders, with brace-free keys, and
      values without opening braces, filling one key at a time equals filling all at once. */
  lemma {:induction false} SequentialIsSimultaneous(segs: seq<Segment>, entries: Entries)
    requires AllClean(segs) && CleanEntries(entries) && UniqueKeys(entries)
    ensures ResolveEach(Render(segs), entries) == Render(FillAll(segs, entries))
  {
    if entries == [] {
      NothingToFill(segs);
    } else {
      var earlier := entries[..|entries| - 1];
      SequentialIsSimultaneous(segs, earlier);
      FillAllIsClean(segs, earlier);
      FillLast(segs, entries);
      var (key, value) := entries[|entries| - 1];
      assert entries[|entries| - 1] in entries;
      if value.Some? {
        ReplaceFills(FillAll(segs, earlier), key, value.value);
      }
    }
  }

  lemma {:induction false} NothingToFill(segs: seq<Segment>)
    ensures FillAll(segs, []) == segs
  {
    if segs != [] {
      NothingToFill(segs[1..]);
    }
  }

  lemma {:induction false} ConfiguredIff(entries: Entries, key: string, value: Option<string>)
    requires UniqueKeys(entries) && (key, value) in entries
    ensures Configured(entries, key) == value
  {
    var i :| 0 <= i < |entries| && entries[i] == (key, value);
    if i < |entries| - 1 {
      assert entries[..|entries| - 1][i] == (key, value);
      ConfiguredIff(entries[..|entries| - 1], key, value);
    }
  }

  lemma {:induction false} SameConfigSameFill(segs: seq<Segment>, a: Entries, b: Entries)
    requires forall k :: Configured(a, k) == Configured(b, k)
    ensures FillAll(segs, a) == FillAll(segs, b)
  {
    if segs != [] {
      SameConfigSameFill(segs[1..], a, b);
    }
  }

  /** So the iteration order of the config does not matter. */
  lemma OrderDoesNotMatter(segs: seq<Segment>, a: Entries, b: Entries)
    requires AllClean(segs) && CleanEntries(a) && CleanEntries(b) && UniqueKeys(a) && UniqueKeys(b)
    requires forall e :: e in a <==> e in b
    ensures ResolveEach(Render(segs), a) == ResolveEach(Render(segs), b)
  {
    SequentialIsSimultaneous(segs, a);
    SequentialIsSimultaneous(segs, b);
    forall k ensures Configured(a, k) == Configured(b, k) {
      if Configured(a, k).Some? {
        ConfiguredIsEntry(a, k);
        ConfiguredIff(b, k, Configured(a, k));
      } else if Configured(b, k).Some? {
        ConfiguredIsEntry(b, k);
        ConfiguredIff(a, k, Configured(b, k));
      }
    }
    SameConfigSameFill(segs, a, b);
  }

  // ── Telling an unresolved template ─────────────────────────────────────────

  predicate HasOpening(s: string) {
    exists i :: 0 <= i < |s| - 1 && s[i] == '{' && s[i + 1] == '{'
  }

  lemma OpeningAfterText(text: string, rest: string)
    requires '{' !in text
    ensures HasOpening(text + rest) <==> HasOpening(rest)
    ensures '{' in text + rest <==> '{' in rest
  {
    var s := text + rest;
    if i :| 0 <= i < |rest| - 1 && rest[i] == '{' && rest[i + 1] == '{' {
      assert s[|text| + i] == '{' && s[|text| + i + 1] == '{';
    }
    if i :| 0 <= i < |s| - 1 && s[i] == '{' && s[i + 1] == '{' {
      assert s[i] !in text;
      assert rest[i - |text|] == '{' && rest[i + 1 - |text|] == '{';
    }
  }

  lemma PlaceholderOpens(key: string, rest: string)
    ensures HasOpening(Placeholder(key) + rest)
  {
    var s := Placeholder(key) + rest;
    assert s[0] == '{' && s[1] == '{';
  }

  lemma {:induction false} OpeningIffHole(segs: seq<Segment>)
    requires AllClean(segs)
    ensures HasOpening(Render(segs)) <==> exists seg <- segs :: seg.Hole?
  {
    hide Placeholder;
    if segs != [] {
      OpeningIffHole(segs[1..]);
      assert segs[0] in segs && forall seg <- segs[1..] :: seg in segs;
      assert segs == [segs[0]] + segs[1..];
      hide HasOpening;
      if segs[0].Hole? {
        PlaceholderOpens(segs[0].key, Render(segs[1..]));
      } else {
        OpeningAfterText(segs[0].text, Render(segs[1..]));
      }
    }
  }

  lemma {:induction false} HoleRemains(segs: seq<Segment>, entries: Entries)
    ensures (exists seg <- FillAll(segs, entries) :: seg.Hole?)
            <==> exists seg <- segs :: seg.Hole? && Configured(entries, seg.key).None?
  {
    if segs != [] {
      HoleRemains(segs[1..], entries);
      assert segs == [segs[0]] + segs[1..];
      assert FillAll(segs, entries) == [FillAllOne(segs[0], entries)] + FillAll(segs[1..], entries);
    }
  }

  /** The resolved text still contains an opening `{{` exactly when some placeholder's field is
      missing from the config or is not a string. */
  lemma UnresolvedIffMissing(segs: seq<Segment>, entries: Entries)
    requires AllClean(segs) && CleanEntries(entries) && UniqueKeys(entries)
    ensures HasOpening(ResolveEach(Render(segs), entries))
            <==> exists seg <- segs :: seg.Hole? && Configured(entries, seg.key).None?
  {
    SequentialIsSimultaneous(segs, entries);
    FillAllIsClean(segs, entries);
    OpeningIffHole(FillAll(segs, entries));
    HoleRemains(segs, entries);
  }

  lemma ReplaceWhole(key: string, other: string, value: string)
    requires BraceFree(key) && BraceFree(other)
    ensures Replace(Placeholder(other), Placeholder(key), value) == if key == other then value else Placeholder(other)
  {
    ReplaceInOne(Hole(other), "", key, value);
    assert Placeholder(other) + "" == Placeholder(other) && value + "" == value;
  }

  /** With an opening brace in a value the order can matter: the value of one key may name another. */
  lemma BracedValuesDependOnOrder()
    ensures var a, b := ("a", Some(Placeholder("b"))), ("b", Some("x"));
            ResolveEach(Placeholder("a"), [a, b]) == "x"
            && ResolveEach(Placeholder("a"), [b, a]) == Placeholder("b")
  {
    hide Replace, Placeholder;
    var a, b := ("a", Some(Placeholder("b"))), ("b", Some("x"));
    ReplaceWhole("a", "a", Placeholder("b"));
    ReplaceWhole("b", "b", "x");
    ReplaceWhole("b", "a", "x");
    assert [a, b][..1] == [a] && [b, a][..1] == [b] && [a][..0] == [] && [b][..0] == [];
    assert ResolveEach(Placeholder("a"), [a]) == Placeholder("b");
    assert ResolveEach(Placeholder("a"), [b]) == Placeholder("a");
  }
}
