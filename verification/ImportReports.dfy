/** What one import pass does to each import, which names it injects, what it reports and how it counts, in terms of
    the imports and uses of the file. */
module ImportReports {
  import opened Wrappers
  import opened Imports

  /** Where an import leads after the pass: where it did if that is something, else to the component found for its
      symbol, else still where it did. */
  function Leads(r: Resolver, t: Token): string
    requires Default(t)
  {
    if r.points(t.source) || r.find(t.symbol.value) == None then t.source else r.find(t.symbol.value).value
  }

  /** `u` is what becomes of `t`. */
  predicate Becomes(r: Resolver, t: Token, u: Token) {
    && Default(t) && Default(u) && u.symbol == t.symbol && u.source == Leads(r, t)
  }

  ghost predicate Survives(r: Resolver, t: Token, out: Content) {
    exists j :: 0 <= j < |out| && Becomes(r, t, out[j])
  }

  ghost predicate Comes(r: Resolver, u: Token, content: Content) {
    exists k :: 0 <= k < |content| && Becomes(r, content[k], u) && u.spelling == content[k].spelling
  }

  function KeyAs(t: Token): Key
    requires Default(t)
  {
    (t.symbol.value, t.source)
  }

  lemma {:induction false} ImportsSurvive(r: Resolver, seen: set<Key>, content: Content, k: nat)
    requires k < |content| && Default(content[k])
    ensures (content[k].symbol.value, Leads(r, content[k])) in seen
            || Survives(r, content[k], Rewrite(r, seen, content))
    decreases |content|
  {
    var t := content[0];
    var more, head := Seen(r, seen, t), Emit(r, seen, t);
    var rest := Rewrite(r, more, content[1..]);
    HeadFollows(r, seen, t);
    assert Rewrite(r, seen, content) == head + rest;
    if k > 0 {
      assert content[1..][k - 1] == content[k];
      ImportsSurvive(r, more, content[1..], k - 1);
      if Survives(r, content[k], rest) {
        SurvivesLater(r, content[k], head, rest);
      } else if Default(t) && (content[k].symbol.value, Leads(r, content[k])) !in seen {
        assert Becomes(r, content[k], head[0]);
        SurvivesSooner(r, content[k], head, rest);
      }
    } else if Survives(r, t, head) {
      SurvivesSooner(r, t, head, rest);
    }
  }

  lemma {:induction false} ImportsCome(r: Resolver, seen: set<Key>, content: Content, j: nat)
    requires j < |Rewrite(r, seen, content)| && Default(Rewrite(r, seen, content)[j])
    ensures var u := Rewrite(r, seen, content)[j]; KeyAs(u) !in seen && Comes(r, u, content)
    decreases |content|
  {
    var t := content[0];
    var more, head := Seen(r, seen, t), Emit(r, seen, t);
    var rest := Rewrite(r, more, content[1..]);
    var u := Rewrite(r, seen, content)[j];
    HeadFollows(r, seen, t);
    if j < |head| {
      assert u == head[j] && Becomes(r, content[0], u);
    } else {
      assert u == rest[j - |head|];
      ImportsCome(r, more, content[1..], j - |head|);
      var k :| 0 <= k < |content[1..]| && Becomes(r, content[1..][k], u) && u.spelling == content[1..][k].spelling;
      assert content[k + 1] == content[1..][k];
    }
  }

  lemma {:induction false} ImportsDiffer(r: Resolver, seen: set<Key>, content: Content, i: nat, j: nat)
    requires i < j < |Rewrite(r, seen, content)|
    requires Default(Rewrite(r, seen, content)[i]) && Default(Rewrite(r, seen, content)[j])
    ensures KeyAs(Rewrite(r, seen, content)[i]) != KeyAs(Rewrite(r, seen, content)[j])
    decreases |content|
  {
    var t := content[0];
    var more, head := Seen(r, seen, t), Emit(r, seen, t);
    var rest := Rewrite(r, more, content[1..]);
    HeadFollows(r, seen, t);
    assert Rewrite(r, seen, content) == head + rest;
    assert rest[j - |head|] == Rewrite(r, seen, content)[j];
    if i < |head| {
      ImportsCome(r, more, content[1..], j - |head|);
      assert KeyAs(head[0]) in more;
    } else {
      assert rest[i - |head|] == Rewrite(r, seen, content)[i];
      ImportsDiffer(r, more, content[1..], i - |head|, j - |head|);
    }
  }

  lemma HeadFollows(r: Resolver, seen: set<Key>, t: Token)
    ensures var head := Emit(r, seen, t);
      && |head| <= 1
      && (!Default(t) ==> head == [t])
      && (Default(t) ==> Seen(r, seen, t) == seen + {(t.symbol.value, Leads(r, t))})
      && (Default(t) && (t.symbol.value, Leads(r, t)) in seen ==> head == [])
      && (Default(t) && (t.symbol.value, Leads(r, t)) !in seen ==>
            |head| == 1 && Becomes(r, t, head[0]) && head[0].spelling == t.spelling && Survives(r, t, head))
  {
    if Default(t) && (t.symbol.value, Leads(r, t)) !in seen {
      assert Becomes(r, t, Emit(r, seen, t)[0]);
    }
  }

  lemma SurvivesLater(r: Resolver, t: Token, a: Content, b: Content)
    requires Survives(r, t, b)
    ensures Survives(r, t, a + b)
  {
    var j :| 0 <= j < |b| && Becomes(r, t, b[j]);
    assert (a + b)[|a| + j] == b[j];
  }

  lemma SurvivesSooner(r: Resolver, t: Token, a: Content, b: Content)
    requires Survives(r, t, a)
    ensures Survives(r, t, a + b)
  {
    var j :| 0 <= j < |a| && Becomes(r, t, a[j]);
    assert (a + b)[j] == a[j];
  }

  /** Every default import survives the rewriting and leads where it should, none comes out of nothing, and no two
      of the result are the same. */
  lemma ImportsFollow(r: Resolver, content: Content)
    ensures var out := Rewrite(r, {}, content);
      && (forall k :: 0 <= k < |content| && Default(content[k]) ==> Survives(r, content[k], out))
      && (forall j :: 0 <= j < |out| && Default(out[j]) ==> Comes(r, out[j], content))
      && (forall i, j :: 0 <= i < j < |out| && Default(out[i]) && Default(out[j]) ==> KeyAs(out[i]) != KeyAs(out[j]))
  {
    var out := Rewrite(r, {}, content);
    forall k | 0 <= k < |content| && Default(content[k]) ensures Survives(r, content[k], out) {
      ImportsSurvive(r, {}, content, k);
    }
    forall j | 0 <= j < |out| && Default(out[j]) ensures Comes(r, out[j], content) {
      ImportsCome(r, {}, content, j);
    }
    forall i, j | 0 <= i < j < |out| && Default(out[i]) && Default(out[j]) ensures KeyAs(out[i]) != KeyAs(out[j]) {
      ImportsDiffer(r, {}, content, i, j);
    }
  }

  // ---------------------------------------------------------------- names that lack an import

  ghost predicate IsUsed(content: Content, name: string) {
    exists k :: 0 <= k < |content| && content[k].Plain? && name in content[k].uses
  }

  ghost predicate IsImported(content: Content, name: string) {
    exists k :: 0 <= k < |content| && Default(content[k]) && content[k].symbol.value == name
  }

  /** An importable component that the file uses and does not import. */
  ghost predicate Lacks(r: Resolver, content: Content, name: string) {
    name in r.names && IsUsed(content, name) && !IsImported(content, name)
  }

  /** A default import that points at nothing, and for whose symbol nothing is found. */
  ghost predicate IsLost(r: Resolver, content: Content, name: string) {
    exists k :: 0 <= k < |content| && Default(content[k]) && content[k].symbol.value == name &&
                !r.points(content[k].source) && r.find(name) == None
  }

  /** The first opening script tag is followed by a closing one. */
  ghost predicate HasBlock(content: Content) {
    exists i, j :: 0 <= i < j < |content| && OpensBlock(content, i, j)
  }

  predicate OpensBlock(content: Content, i: int, j: int)
    requires 0 <= i < j < |content|
  {
    content[i].ScriptOpen? && content[j].ScriptClose? && forall k :: 0 <= k < i ==> !content[k].ScriptOpen?
  }

  lemma {:induction false} UsedIff(content: Content, name: string)
    ensures name in Used(content) <==> IsUsed(content, name)
  {
    if content != [] {
      UsedIff(content[1..], name);
      if k :| 0 <= k < |content| && content[k].Plain? && name in content[k].uses {
        if k > 0 {
          assert content[1..][k - 1] == content[k];
        }
      }
      if k :| 0 <= k < |content[1..]| && content[1..][k].Plain? && name in content[1..][k].uses {
        assert content[k + 1] == content[1..][k];
      }
    }
  }

  lemma {:induction false} ImportedIff(content: Content, name: string)
    ensures name in Imported(content) <==> IsImported(content, name)
  {
    if content != [] {
      ImportedIff(content[1..], name);
      if k :| 0 <= k < |content| && Default(content[k]) && content[k].symbol.value == name {
        if k > 0 {
          assert content[1..][k - 1] == content[k];
        }
      }
      if k :| 0 <= k < |content[1..]| && Default(content[1..][k]) && content[1..][k].symbol.value == name {
        assert content[k + 1] == content[1..][k];
      }
    }
  }

  lemma {:induction false} UnresolvedIff(r: Resolver, content: Content, name: string)
    ensures name in Unresolved(r, content) <==> IsLost(r, content, name)
  {
    if content != [] {
      UnresolvedIff(r, content[1..], name);
      if k :| 0 <= k < |content| && Default(content[k]) && content[k].symbol.value == name &&
              !r.points(content[k].source) && r.find(name) == None {
        if k > 0 {
          assert content[1..][k - 1] == content[k];
        }
      }
      if k :| 0 <= k < |content[1..]| && Default(content[1..][k]) && content[1..][k].symbol.value == name &&
              !r.points(content[1..][k].source) && r.find(name) == None {
        assert content[k + 1] == content[1..][k];
      }
    }
  }

  lemma {:induction false} MissingIff(used: set<string>, imported: set<string>, names: seq<string>, name: string)
    ensures name in MissingNames(used, imported, names) <==> name in names && name in used && name !in imported
  {
    if names != [] {
      MissingIff(used, imported, names[1..], name);
      assert names == [names[0]] + names[1..];
    }
  }

  lemma LacksIff(r: Resolver, content: Content, name: string)
    ensures name in MissingIn(r, content) <==> Lacks(r, content, name)
  {
    MissingIff(Used(content), Imported(content), r.names, name);
    UsedIff(content, name);
    ImportedIff(content, name);
  }

  lemma {:induction false} NotFoundIff(r: Resolver, missing: seq<string>, name: string)
    ensures name in NotFound(r, missing) <==> name in missing && r.find(name) == None
  {
    if missing != [] {
      NotFoundIff(r, missing[1..], name);
      assert missing == [missing[0]] + missing[1..];
    }
  }

  lemma {:induction false} FoundIff(r: Resolver, missing: seq<string>)
    ensures Found(r, missing) != [] <==> exists n :: n in missing && r.find(n).Some?
    ensures forall key :: key in Found(r, missing) <==> key.0 in missing && r.find(key.0) == Some(key.1)
  {
    if missing != [] {
      FoundIff(r, missing[1..]);
      assert missing == [missing[0]] + missing[1..];
      var found := r.find(missing[0]);
      if found.Some? {
        assert Found(r, missing) == [(missing[0], found.value)] + Found(r, missing[1..]);
        assert missing[0] in missing;
      } else {
        assert Found(r, missing) == Found(r, missing[1..]);
      }
    }
  }

  lemma {:induction false} FirstOpenIs(content: Content)
    ensures var r := FirstOpen(content);
      && (r.None? ==> forall k :: 0 <= k < |content| ==> !content[k].ScriptOpen?)
      && (r.Some? ==> forall k :: 0 <= k < r.value ==> !content[k].ScriptOpen?)
  {
    if content != [] && !content[0].ScriptOpen? {
      FirstOpenIs(content[1..]);
      assert forall k :: 1 <= k < |content| ==> content[k] == content[1..][k - 1];
    }
  }

  lemma BlockIff(content: Content)
    ensures BlockAt(content).Some? <==> HasBlock(content)
  {
    FirstOpenIs(content);
    var i := FirstOpen(content);
    if BlockAt(content).Some? {
      var j :| 0 <= j < |content[i.value + 1..]| && content[i.value + 1..][j] == ScriptClose;
      assert OpensBlock(content, i.value, i.value + 1 + j);
    }
    if i, j :| 0 <= i < j < |content| && OpensBlock(content, i, j) {
      assert content[i + 1..][j - i - 1] == ScriptClose;
    }
  }

  // ---------------------------------------------------------------- reports and counts

  /** What is reported, exactly: imports that point at nothing and for which nothing is found, used components that
      lack an import and are not found, and all that lack one if some are found but there is no script block. */
  lemma ReportedIff(r: Resolver, content: Content, name: string)
    ensures name in Reported(r, content) <==>
            || IsLost(r, content, name)
            || (Lacks(r, content, name) && r.find(name) == None)
            || (Lacks(r, content, name) && !HasBlock(content) &&
                exists n :: Lacks(r, content, n) && r.find(n).Some?)
  {
    var missing := MissingIn(r, content);
    UnresolvedIff(r, content, name);
    LacksIff(r, content, name);
    NotFoundIff(r, missing, name);
    FoundIff(r, missing);
    forall n ensures n in missing <==> Lacks(r, content, n) {
      LacksIff(r, content, n);
    }
    BlockAtTag(content);
    BlockAtTag(Rewrite(r, {}, content));
    RewriteKeepsBlock(r, {}, content);
    BlockIff(content);
  }

  /** What is injected, exactly: an import of the component found for every name that lacks one. */
  lemma InjectedIff(r: Resolver, content: Content, key: Key)
    ensures key in PendingIn(r, content) <==> Lacks(r, content, key.0) && r.find(key.0) == Some(key.1)
  {
    FoundIff(r, MissingIn(r, content));
    LacksIff(r, content, key.0);
  }

  function Repointed(r: Resolver, content: Content): nat {
    if content == [] then 0
    else
      var t := content[0];
      (if t.Import? && t.symbol.Some? && !r.points(t.source) && r.find(t.symbol.value).Some? then 1 else 0)
      + Repointed(r, content[1..])
  }

  lemma {:induction false} RewriteCounts(r: Resolver, seen: set<Key>, content: Content)
    ensures RewriteRepairs(r, seen, content) == Repointed(r, content) + |content| - |Rewrite(r, seen, content)|
    decreases |content|
  {
    if content != [] {
      RewriteCounts(r, Seen(r, seen, content[0]), content[1..]);
    }
  }

  /** Repairs are the imports pointed elsewhere, the repeated ones dropped, and the ones to inject. */
  lemma RepairsCount(r: Resolver, content: Content)
    ensures Repairs(r, content) ==
            Repointed(r, content) + (|content| - |Rewrite(r, {}, content)|) + |PendingIn(r, content)|
  {
    RewriteCounts(r, {}, content);
  }

  /** Injected imports come in the order of the importable names. */
  lemma InjectedInOrder(r: Resolver, content: Content, i: nat, j: nat)
    requires i < j < |PendingIn(r, content)|
    ensures exists m, n :: 0 <= m < n < |r.names| &&
              r.names[m] == PendingIn(r, content)[i].0 && r.names[n] == PendingIn(r, content)[j].0
  {
    var a, b := FoundInOrder(r, MissingIn(r, content), i, j);
    var m, n := MissingInOrder(Used(content), Imported(content), r.names, a, b);
  }

  lemma {:induction false} FoundInOrder(r: Resolver, missing: seq<string>, i: nat, j: nat) returns (m: nat, n: nat)
    requires i < j < |Found(r, missing)|
    ensures m < n < |missing| && missing[m] == Found(r, missing)[i].0 && missing[n] == Found(r, missing)[j].0
  {
    if r.find(missing[0]) == None {
      assert Found(r, missing) == Found(r, missing[1..]);
      m, n := FoundInOrder(r, missing[1..], i, j);
      m, n := m + 1, n + 1;
    } else if i == 0 {
      n := FoundAt(r, missing[1..], j - 1);
      m, n := 0, n + 1;
    } else {
      m, n := FoundInOrder(r, missing[1..], i - 1, j - 1);
      m, n := m + 1, n + 1;
    }
  }

  lemma {:induction false} FoundAt(r: Resolver, missing: seq<string>, j: nat) returns (n: nat)
    requires j < |Found(r, missing)|
    ensures n < |missing| && missing[n] == Found(r, missing)[j].0
  {
    if r.find(missing[0]) == None {
      assert Found(r, missing) == Found(r, missing[1..]);
      n := FoundAt(r, missing[1..], j);
      n := n + 1;
    } else if j == 0 {
      n := 0;
    } else {
      n := FoundAt(r, missing[1..], j - 1);
      n := n + 1;
    }
  }

  lemma {:induction false} MissingInOrder(used: set<string>, imported: set<string>, names: seq<string>, i: nat, j: nat)
    returns (m: nat, n: nat)
    requires i < j < |MissingNames(used, imported, names)|
    ensures m < n < |names|
    ensures names[m] == MissingNames(used, imported, names)[i] && names[n] == MissingNames(used, imported, names)[j]
  {
    if !Missing(used, imported, names[0]) {
      assert MissingNames(used, imported, names) == MissingNames(used, imported, names[1..]);
      m, n := MissingInOrder(used, imported, names[1..], i, j);
      m, n := m + 1, n + 1;
    } else if i == 0 {
      n := MissingAt(used, imported, names[1..], j - 1);
      m, n := 0, n + 1;
    } else {
      m, n := MissingInOrder(used, imported, names[1..], i - 1, j - 1);
      m, n := m + 1, n + 1;
    }
  }

  lemma {:induction false} MissingAt(used: set<string>, imported: set<string>, names: seq<string>, j: nat)
    returns (n: nat)
    requires j < |MissingNames(used, imported, names)|
    ensures n < |names| && names[n] == MissingNames(used, imported, names)[j]
  {
    if !Missing(used, imported, names[0]) {
      assert MissingNames(used, imported, names) == MissingNames(used, imported, names[1..]);
      n := MissingAt(used, imported, names[1..], j);
      n := n + 1;
    } else if j == 0 {
      n := 0;
    } else {
      n := MissingAt(used, imported, names[1..], j - 1);
      n := n + 1;
    }
  }

  /** The injected lines, one for every pending import in its order; the last runs into text that follows the tag. */
  lemma {:induction false} LinesAre(keys: seq<Key>, endsLine: bool)
    ensures |Lines(keys, endsLine)| == |keys|
    ensures forall k :: 0 <= k < |keys| && (endsLine || k < |keys| - 1) ==>
              Lines(keys, endsLine)[k] == Import(Some(keys[k].0), keys[k].1, "")
    ensures keys != [] && !endsLine ==>
              var last := keys[|keys| - 1];
              Lines(keys, endsLine)[|keys| - 1] == Plain("import " + last.0 + " from \"" + last.1 + "\";", {})
    decreases |keys|
  {
    if keys != [] && !(|keys| == 1 && !endsLine) {
      LinesAre(keys[1..], endsLine);
    }
  }
}
