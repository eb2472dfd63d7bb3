/** Normalising the imports of a component file: default imports that point at nothing are pointed at a
    component that exists, duplicates are dropped, and components that are used but not imported get an
    import after the opening script tag. A file is a sequence of tokens: import statements, script tags,
    and other text with the component names it uses. */
module Imports {
  import opened Wrappers

  /** How the pass sees the repository: the import path found for a component, whether an import source
      points at something, and the importable component names in sorted order. */
  datatype Resolver = Resolver(find: string -> Option<string>, points: string -> bool, names: seq<string>)

  /** Paths that are found point at something, and no name is listed twice. */
  ghost predicate Sound(r: Resolver) {
    && (forall name :: '/' !in name && r.find(name).Some? ==> r.points(r.find(name).value))
    && forall i, j :: 0 <= i < j < |r.names| ==> r.names[i] != r.names[j]
  }

  // ---------------------------------------------------------------- files

  /** An import carries its default symbol, if its clause has one, its source and its exact spelling; an
      opening script tag whether nothing but blanks follows it on its line. */
  datatype Token =
    | Import(symbol: Option<string>, source: string, spelling: string)
    | ScriptOpen(tag: string, endsLine: bool)
    | ScriptClose
    | Plain(text: string, uses: set<string>)

  type Content = seq<Token>

  type Key = (string, string)

  predicate Default(t: Token) {
    t.Import? && t.symbol.Some?
  }

  function NewSource(r: Resolver, symbol: string, source: string): string {
    if r.points(source) then source
    else
      var found := r.find(symbol);
      if found.Some? then found.value else source
  }

  function KeyOf(r: Resolver, t: Token): Key
    requires Default(t)
  {
    (t.symbol.value, NewSource(r, t.symbol.value, t.source))
  }

  function Rewritten(r: Resolver, t: Token): Token
    requires Default(t)
  {
    t.(source := NewSource(r, t.symbol.value, t.source))
  }

  /** What a token becomes, and what has been seen after it. */
  function Emit(r: Resolver, seen: set<Key>, t: Token): Content {
    if !Default(t) then [t] else if KeyOf(r, t) in seen then [] else [Rewritten(r, t)]
  }

  function Seen(r: Resolver, seen: set<Key>, t: Token): set<Key> {
    if Default(t) then seen + {KeyOf(r, t)} else seen
  }

  /** The rewriting pass: sources replaced, repeated imports dropped. */
  function Rewrite(r: Resolver, seen: set<Key>, content: Content): Content
    decreases |content|
  {
    if content == [] then [] else Emit(r, seen, content[0]) + Rewrite(r, Seen(r, seen, content[0]), content[1..])
  }

  /** The imports whose source points at nothing, when a component is found for their symbol. */
  predicate Repairable(r: Resolver, t: Token) {
    Default(t) && !r.points(t.source) && r.find(t.symbol.value).Some?
  }

  function TokenRepairs(r: Resolver, seen: set<Key>, t: Token): nat {
    (if Repairable(r, t) then 1 else 0) + if Default(t) && KeyOf(r, t) in seen then 1 else 0
  }

  function RewriteRepairs(r: Resolver, seen: set<Key>, content: Content): nat
    decreases |content|
  {
    if content == [] then 0
    else TokenRepairs(r, seen, content[0]) + RewriteRepairs(r, Seen(r, seen, content[0]), content[1..])
  }

  /** The imports whose source points at nothing and for which no component is found. */
  predicate Unresolvable(r: Resolver, t: Token) {
    Default(t) && !r.points(t.source) && r.find(t.symbol.value).None?
  }

  function Unresolved(r: Resolver, content: Content): set<string> {
    if content == [] then {}
    else (if Unresolvable(r, content[0]) then {content[0].symbol.value} else {}) + Unresolved(r, content[1..])
  }

  function Imported(content: Content): set<string> {
    if content == [] then {}
    else (if Default(content[0]) then {content[0].symbol.value} else {}) + Imported(content[1..])
  }

  function Used(content: Content): set<string> {
    if content == [] then {} else (if content[0].Plain? then content[0].uses else {}) + Used(content[1..])
  }

  predicate Missing(used: set<string>, imported: set<string>, name: string) {
    name in used && name !in imported
  }

  /** The names that lack an import, in order. */
  function MissingNames(used: set<string>, imported: set<string>, names: seq<string>): seq<string> {
    if names == [] then []
    else (if Missing(used, imported, names[0]) then [names[0]] else []) + MissingNames(used, imported, names[1..])
  }

  /** The imports to inject: one for every missing name that is found. */
  function Found(r: Resolver, missing: seq<string>): seq<Key> {
    if missing == [] then []
    else
      var found := r.find(missing[0]);
      (if found.Some? then [(missing[0], found.value)] else []) + Found(r, missing[1..])
  }

  function NotFound(r: Resolver, missing: seq<string>): set<string> {
    if missing == [] then {}
    else (if r.find(missing[0]).None? then {missing[0]} else {}) + NotFound(r, missing[1..])
  }

  function FirstOpen(content: Content): (r: Option<nat>)
    ensures r.Some? ==> r.value < |content| && content[r.value].ScriptOpen?
  {
    if content == [] then None
    else if content[0].ScriptOpen? then Some(0)
    else
      var r := FirstOpen(content[1..]);
      if r.None? then None else Some(r.value + 1)
  }

  /** Where the script block starts: the first opening tag, provided a closing one follows. */
  function BlockAt(content: Content): (r: Option<nat>)
    ensures r.Some? ==> r.value < |content| && content[r.value].ScriptOpen?
  {
    var i := FirstOpen(content);
    if i.Some? && ScriptClose in content[i.value + 1..] then i else None
  }

  function ImportLine(k: Key): Token {
    Import(Some(k.0), k.1, "")
  }

  /** The injected lines. When text follows the script tag on its line, the last import runs into it and
      is no import statement any more. */
  function Lines(keys: seq<Key>, endsLine: bool): Content {
    if keys == [] then []
    else if |keys| == 1 && !endsLine then [Plain("import " + keys[0].0 + " from \"" + keys[0].1 + "\";", {})]
    else [ImportLine(keys[0])] + Lines(keys[1..], endsLine)
  }

  function Inject(content: Content, keys: seq<Key>): Content {
    var i := BlockAt(content);
    if keys == [] || i.None? then content
    else
      var open := content[i.value];
      content[..i.value] + ([ScriptOpen(open.tag, true)] + Lines(keys, open.endsLine)) + content[i.value + 1..]
  }

  function MissingIn(r: Resolver, content: Content): seq<string> {
    MissingNames(Used(content), Imported(content), r.names)
  }

  function PendingIn(r: Resolver, content: Content): seq<Key> {
    Found(r, MissingIn(r, content))
  }

  function Normalize(r: Resolver, content: Content): Content {
    Inject(Rewrite(r, {}, content), PendingIn(r, content))
  }

  function Repairs(r: Resolver, content: Content): nat {
    RewriteRepairs(r, {}, content) + |PendingIn(r, content)|
  }

  /** The symbols reported unresolved. */
  function Reported(r: Resolver, content: Content): set<string> {
    var missing := MissingIn(r, content);
    Unresolved(r, content) + NotFound(r, missing)
    + if PendingIn(r, content) != [] && BlockAt(Rewrite(r, {}, content)).None? then ToSet(missing) else {}
  }

  function ToSet(names: seq<string>): set<string> {
    set n | n in names
  }

  // ---------------------------------------------------------------- the pass, step by step

  datatype Result = Result(content: Content, repairs: nat, unresolved: set<string>)

  method NormalizeFrontendImports(r: Resolver, content: Content) returns (result: Result)
    ensures result.content == Normalize(r, content)
    ensures result.repairs == Repairs(r, content)
    ensures result.unresolved == Reported(r, content)
  {
    var updated, repairs, unresolved, imported := RewritePass(r, content);
    RewriteKeepsUses(r, {}, content);
    var missing := MissingCandidates(r, Used(updated), imported);
    var injections, lost := CollectInjections(r, missing);
    unresolved := unresolved + lost;
    repairs := repairs + |injections|;
    if |injections| > 0 {
      var bounds := BlockAt(updated);
      if bounds.Some? {
        updated := Inject(updated, injections);
      } else {
        unresolved := unresolved + ToSet(missing);
      }
    }
    result := Result(updated, repairs, unresolved);
  }

  method MissingCandidates(r: Resolver, used: set<string>, imported: set<string>) returns (missing: seq<string>)
    ensures missing == MissingNames(used, imported, r.names)
  {
    missing := [];
    for i := 0 to |r.names|
      invariant missing + MissingNames(used, imported, r.names[i..]) == MissingNames(used, imported, r.names)
    {
      var name := r.names[i];
      assert r.names[i..][0] == name && r.names[i..][1..] == r.names[i + 1..];
      if name in used && name !in imported {
        missing := missing + [name];
      }
    }
  }

  method CollectInjections(r: Resolver, missing: seq<string>) returns (injections: seq<Key>, lost: set<string>)
    ensures injections == Found(r, missing) && lost == NotFound(r, missing)
  {
    injections, lost := [], {};
    for i := 0 to |missing|
      invariant injections + Found(r, missing[i..]) == Found(r, missing)
      invariant lost + NotFound(r, missing[i..]) == NotFound(r, missing)
    {
      var symbol := missing[i];
      assert missing[i..][0] == symbol && missing[i..][1..] == missing[i + 1..];
      var found := r.find(symbol);
      if found.Some? {
        var key := (symbol, found.value);
        assert injections + ([key] + Found(r, missing[i + 1..])) == (injections + [key]) + Found(r, missing[i + 1..]);
        injections := injections + [key];
      } else {
        assert [] + Found(r, missing[i + 1..]) == Found(r, missing[i + 1..]);
        lost := lost + {symbol};
      }
    }
  }

  method RewritePass(r: Resolver, content: Content)
    returns (out: Content, repairs: nat, unresolved: set<string>, imported: set<string>)
    ensures out == Rewrite(r, {}, content) && repairs == RewriteRepairs(r, {}, content)
    ensures unresolved == Unresolved(r, content) && imported == Imported(content)
  {
    out, repairs, unresolved, imported := [], 0, {}, {};
    var seen: set<Key> := {};
    for i := 0 to |content|
      invariant out + Rewrite(r, seen, content[i..]) == Rewrite(r, {}, content)
      invariant repairs + RewriteRepairs(r, seen, content[i..]) == RewriteRepairs(r, {}, content)
      invariant unresolved + Unresolved(r, content[i..]) == Unresolved(r, content)
      invariant imported + Imported(content[i..]) == Imported(content)
    {
      var t := content[i];
      assert content[i..][0] == t && content[i..][1..] == content[i + 1..];
      ghost var rest := Rewrite(r, Seen(r, seen, t), content[i + 1..]);
      assert (out + Emit(r, seen, t)) + rest == out + (Emit(r, seen, t) + rest);
      if !Default(t) {
        out := out + [t];
        continue;
      }
      var symbol := t.symbol.value;
      var source, repaired, lost := FixSource(r, t);
      var known := (symbol, source) in seen;
      imported := imported + {symbol};
      unresolved := if lost then unresolved + {symbol} else unresolved;
      repairs := repairs + (if repaired then 1 else 0) + if known then 1 else 0;
      out := out + if known then [] else [t.(source := source)];
      seen := seen + {(symbol, source)};
    }
  }

  method FixSource(r: Resolver, t: Token) returns (source: string, repaired: bool, lost: bool)
    requires Default(t)
    ensures source == NewSource(r, t.symbol.value, t.source)
    ensures repaired == Repairable(r, t) && lost == Unresolvable(r, t)
  {
    source, repaired, lost := t.source, false, false;
    if !r.points(source) {
      var found := r.find(t.symbol.value);
      if found.Some? {
        source, repaired := found.value, true;
      } else {
        lost := true;
      }
    }
  }

  lemma {:induction false} UsedConcat(a: Content, b: Content)
    ensures Used(a + b) == Used(a) + Used(b)
    decreases |a|
  {
    if a == [] {
      assert a + b == b;
    } else {
      assert (a + b)[1..] == a[1..] + b;
      UsedConcat(a[1..], b);
    }
  }

  lemma {:induction false} ImportedConcat(a: Content, b: Content)
    ensures Imported(a + b) == Imported(a) + Imported(b)
    decreases |a|
  {
    if a == [] {
      assert a + b == b;
    } else {
      assert (a + b)[1..] == a[1..] + b;
      ImportedConcat(a[1..], b);
    }
  }

  lemma EmitUses(r: Resolver, seen: set<Key>, t: Token)
    ensures Used(Emit(r, seen, t)) == if t.Plain? then t.uses else {}
  {
    if Emit(r, seen, t) != [] {
      assert Emit(r, seen, t)[1..] == [];
    }
  }

  lemma {:induction false} RewriteKeepsUses(r: Resolver, seen: set<Key>, content: Content)
    ensures Used(Rewrite(r, seen, content)) == Used(content)
    decreases |content|
  {
    if content != [] {
      var t := content[0];
      EmitUses(r, seen, t);
      RewriteKeepsUses(r, Seen(r, seen, t), content[1..]);
      UsedConcat(Emit(r, seen, t), Rewrite(r, Seen(r, seen, t), content[1..]));
    }
  }

  function SymbolsOf(keys: set<Key>): set<string> {
    set k | k in keys :: k.0
  }

  /** Dropping a repeated import never loses a symbol: the one it repeats has it too. */
  lemma {:induction false} RewriteKeepsSymbols(r: Resolver, seen: set<Key>, content: Content)
    ensures Imported(Rewrite(r, seen, content)) + SymbolsOf(seen) == Imported(content) + SymbolsOf(seen)
    decreases |content|
  {
    if content != [] {
      var t := content[0];
      var seen' := Seen(r, seen, t);
      var first, rest := Emit(r, seen, t), Rewrite(r, seen', content[1..]);
      RewriteKeepsSymbols(r, seen', content[1..]);
      ImportedConcat(first, rest);
      if first != [] {
        assert first[1..] == [];
      }
      if Default(t) {
        SymbolsOfMore(seen, KeyOf(r, t));
        if first == [] {
          assert seen' == seen;
        } else {
          assert Imported(first) == {t.symbol.value};
        }
      }
    }
  }

  lemma SymbolsOfMore(seen: set<Key>, key: Key)
    ensures SymbolsOf(seen + {key}) == SymbolsOf(seen) + {key.0}
  {
    assert key in seen + {key};
    forall s | s in SymbolsOf(seen) ensures s in SymbolsOf(seen + {key}) {
      var k :| k in seen && k.0 == s;
      assert k in seen + {key};
    }
  }

  // ---------------------------------------------------------------- settled files

  /** Default symbols and used names are identifiers. */
  predicate Named(content: Content) {
    forall n :: n in Imported(content) + Used(content) ==> '/' !in n
  }

  /** A default import that the rewriting pass leaves alone. */
  predicate Stays(r: Resolver, t: Token) {
    Default(t) ==> NewSource(r, t.symbol.value, t.source) == t.source && !Repairable(r, t)
  }

  predicate Settled(r: Resolver, seen: set<Key>, content: Content)
    decreases |content|
  {
    content == []
    || (Stays(r, content[0]) && (Default(content[0]) ==> KeyOf(r, content[0]) !in seen)
        && Settled(r, Seen(r, seen, content[0]), content[1..]))
  }

  lemma {:induction false} SettledIsFixed(r: Resolver, seen: set<Key>, content: Content)
    requires Settled(r, seen, content)
    ensures Rewrite(r, seen, content) == content && RewriteRepairs(r, seen, content) == 0
    decreases |content|
  {
    if content != [] {
      SettledIsFixed(r, Seen(r, seen, content[0]), content[1..]);
      assert Emit(r, seen, content[0]) == [content[0]];
    }
  }

  lemma RewrittenStays(r: Resolver, t: Token)
    requires Sound(r) && Default(t) && '/' !in t.symbol.value
    ensures Stays(r, Rewritten(r, t)) && KeyOf(r, Rewritten(r, t)) == KeyOf(r, t)
  {
  }

  lemma {:induction false} RewriteSettles(r: Resolver, seen: set<Key>, content: Content)
    requires Sound(r) && forall n :: n in Imported(content) ==> '/' !in n
    ensures Settled(r, seen, Rewrite(r, seen, content))
    decreases |content|
  {
    if content != [] {
      var t := content[0];
      var seen' := Seen(r, seen, t);
      var rest := Rewrite(r, seen', content[1..]);
      RewriteSettles(r, seen', content[1..]);
      if Default(t) {
        RewrittenStays(r, t);
        if KeyOf(r, t) in seen {
          assert seen' == seen && Rewrite(r, seen, content) == rest;
        } else {
          assert Rewrite(r, seen, content)[0] == Rewritten(r, t) && Rewrite(r, seen, content)[1..] == rest;
        }
      } else {
        assert Rewrite(r, seen, content)[0] == t && Rewrite(r, seen, content)[1..] == rest;
      }
    }
  }

  function Keys(r: Resolver, content: Content): set<Key> {
    if content == [] then {}
    else (if Default(content[0]) then {KeyOf(r, content[0])} else {}) + Keys(r, content[1..])
  }

  lemma {:induction false} SettledConcat(r: Resolver, seen: set<Key>, a: Content, b: Content)
    ensures Settled(r, seen, a + b) <==> Settled(r, seen, a) && Settled(r, seen + Keys(r, a), b)
    decreases |a|
  {
    if a == [] {
      assert a + b == b && seen + {} == seen;
    } else {
      assert (a + b)[1..] == a[1..] + b;
      var seen' := Seen(r, seen, a[0]);
      SettledConcat(r, seen', a[1..], b);
      assert seen' + Keys(r, a[1..]) == seen + Keys(r, a);
    }
  }

  lemma {:induction false} SettledMore(r: Resolver, seen: set<Key>, extra: set<Key>, content: Content)
    requires Settled(r, seen, content) && forall k :: k in extra ==> k.0 !in Imported(content)
    ensures Settled(r, seen + extra, content)
    decreases |content|
  {
    if content != [] {
      var t := content[0];
      SettledMore(r, Seen(r, seen, t), extra, content[1..]);
      assert Seen(r, seen, t) + extra == Seen(r, seen + extra, t);
    }
  }

  lemma {:induction false} KeySymbols(r: Resolver, content: Content)
    ensures forall k :: k in Keys(r, content) ==> k.0 in Imported(content)
  {
    if content != [] {
      KeySymbols(r, content[1..]);
    }
  }

  // ---------------------------------------------------------------- injected lines

  function Names(keys: seq<Key>): set<string> {
    if keys == [] then {} else {keys[0].0} + Names(keys[1..])
  }

  predicate DistinctNames(keys: seq<Key>) {
    keys == [] || (keys[0].0 !in Names(keys[1..]) && DistinctNames(keys[1..]))
  }

  predicate AllPoint(r: Resolver, keys: seq<Key>) {
    forall k :: 0 <= k < |keys| ==> r.points(keys[k].1)
  }

  lemma {:induction false} LinesSettled(r: Resolver, seen: set<Key>, keys: seq<Key>, endsLine: bool)
    requires DistinctNames(keys) && AllPoint(r, keys)
    requires forall k :: k in seen ==> k.0 !in Names(keys)
    ensures Settled(r, seen, Lines(keys, endsLine))
    decreases |keys|
  {
    var lines := Lines(keys, endsLine);
    if keys != [] {
      if |keys| == 1 && !endsLine {
        assert lines[1..] == [];
      } else {
        assert lines[1..] == Lines(keys[1..], endsLine);
        assert r.points(keys[0].1);
        LinesSettled(r, seen + {keys[0]}, keys[1..], endsLine);
        assert KeyOf(r, lines[0]) == keys[0];
      }
    }
  }

  /** The names the injected lines really import: all of them, or all but the one that ran into text. */
  function Visible(keys: seq<Key>, endsLine: bool): seq<Key> {
    if keys == [] || endsLine then keys else keys[..|keys| - 1]
  }

  lemma {:induction false} LinesImport(keys: seq<Key>, endsLine: bool)
    ensures Imported(Lines(keys, endsLine)) == Names(Visible(keys, endsLine))
    ensures Used(Lines(keys, endsLine)) == {}
    ensures Imported(Lines(keys, endsLine)) <= Names(keys)
    ensures forall k :: 0 <= k < |Lines(keys, endsLine)| ==> !Lines(keys, endsLine)[k].ScriptOpen?
    decreases |keys|
  {
    var lines := Lines(keys, endsLine);
    if keys != [] {
      if |keys| == 1 && !endsLine {
        assert lines[1..] == [];
      } else {
        assert lines[1..] == Lines(keys[1..], endsLine);
        LinesImport(keys[1..], endsLine);
        assert Visible(keys, endsLine)[1..] == Visible(keys[1..], endsLine);
      }
    }
  }

  lemma {:induction false} FoundIsGood(r: Resolver, missing: seq<string>)
    requires Sound(r) && Distinct(missing) && forall n :: n in missing ==> '/' !in n
    ensures DistinctNames(Found(r, missing)) && AllPoint(r, Found(r, missing))
    ensures forall n :: n in Names(Found(r, missing)) ==> n in missing
  {
    if missing != [] {
      FoundIsGood(r, missing[1..]);
      var rest := Found(r, missing[1..]);
      if r.find(missing[0]).Some? {
        assert Found(r, missing)[1..] == rest;
      } else {
        assert Found(r, missing) == rest;
      }
    }
  }

  predicate Distinct(names: seq<string>) {
    names == [] || (names[0] !in names[1..] && Distinct(names[1..]))
  }

  lemma {:induction false} MissingIsDistinct(used: set<string>, imported: set<string>, names: seq<string>)
    requires forall i, j :: 0 <= i < j < |names| ==> names[i] != names[j]
    ensures Distinct(MissingNames(used, imported, names))
    ensures forall n :: n in MissingNames(used, imported, names) ==> n in names && n in used && n !in imported
  {
    if names != [] {
      MissingIsDistinct(used, imported, names[1..]);
      var rest := MissingNames(used, imported, names[1..]);
      if Missing(used, imported, names[0]) {
        assert MissingNames(used, imported, names)[1..] == rest;
        assert names[0] !in rest;
      } else {
        assert MissingNames(used, imported, names) == rest;
      }
    }
  }

  function Without(names: seq<string>, gone: set<string>): seq<string> {
    if names == [] then [] else (if names[0] in gone then [] else [names[0]]) + Without(names[1..], gone)
  }

  function KeysWithout(keys: seq<Key>, gone: set<string>): seq<Key> {
    if keys == [] then [] else (if keys[0].0 in gone then [] else [keys[0]]) + KeysWithout(keys[1..], gone)
  }

  lemma {:induction false} MissingMore(used: set<string>, imported: set<string>, more: set<string>, names: seq<string>)
    ensures MissingNames(used, imported + more, names) == Without(MissingNames(used, imported, names), more)
  {
    if names != [] {
      MissingMore(used, imported, more, names[1..]);
      var rest := MissingNames(used, imported, names[1..]);
      if Missing(used, imported, names[0]) {
        assert MissingNames(used, imported, names)[1..] == rest;
      } else {
        assert MissingNames(used, imported, names) == rest;
      }
    }
  }

  lemma {:induction false} FoundWithout(r: Resolver, missing: seq<string>, gone: set<string>)
    ensures Found(r, Without(missing, gone)) == KeysWithout(Found(r, missing), gone)
  {
    if missing != [] {
      FoundWithout(r, missing[1..], gone);
      var rest, kept := Found(r, missing[1..]), Without(missing[1..], gone);
      if r.find(missing[0]).Some? {
        assert Found(r, missing)[1..] == rest;
      } else {
        assert Found(r, missing) == rest;
      }
      if missing[0] in gone {
        assert Without(missing, gone) == kept;
      } else {
        assert Without(missing, gone)[1..] == kept;
      }
    }
  }

  /** What is left to inject once the visible imports are there. */
  lemma {:induction false} LeftToInject(keys: seq<Key>, endsLine: bool)
    requires DistinctNames(keys)
    ensures KeysWithout(keys, Names(Visible(keys, endsLine))) == keys[|Visible(keys, endsLine)|..]
    decreases |keys|
  {
    if keys != [] && !(|keys| == 1 && !endsLine) {
      var rest := keys[1..];
      LeftToInject(rest, endsLine);
      assert Visible(keys, endsLine)[1..] == Visible(rest, endsLine);
      WithoutAbsent(rest, Names(Visible(rest, endsLine)), keys[0].0);
      assert keys[|Visible(keys, endsLine)|..] == rest[|Visible(rest, endsLine)|..];
    }
  }

  lemma {:induction false} WithoutAbsent(keys: seq<Key>, gone: set<string>, name: string)
    requires name !in Names(keys)
    ensures KeysWithout(keys, {name} + gone) == KeysWithout(keys, gone)
  {
    if keys != [] {
      WithoutAbsent(keys[1..], gone, name);
    }
  }

  // ---------------------------------------------------------------- the script block

  /** The opening tag of the script block. */
  function BlockTag(content: Content): (r: Option<Token>)
    ensures r.Some? ==> r.value.ScriptOpen?
  {
    if content == [] then None
    else if content[0].ScriptOpen? then if ScriptClose in content[1..] then Some(content[0]) else None
    else BlockTag(content[1..])
  }

  lemma {:induction false} BlockAtTag(content: Content)
    ensures BlockAt(content).Some? <==> BlockTag(content).Some?
    ensures BlockAt(content).Some? ==> content[BlockAt(content).value] == BlockTag(content).value
  {
    if content != [] && !content[0].ScriptOpen? {
      BlockAtTag(content[1..]);
      var i := FirstOpen(content[1..]);
      if i.Some? {
        assert content[1..][i.value + 1..] == content[i.value + 2..];
      }
    }
  }

  lemma {:induction false} RewriteKeepsClose(r: Resolver, seen: set<Key>, content: Content)
    ensures ScriptClose in Rewrite(r, seen, content) <==> ScriptClose in content
    decreases |content|
  {
    if content != [] {
      RewriteKeepsClose(r, Seen(r, seen, content[0]), content[1..]);
      assert content == [content[0]] + content[1..];
    }
  }

  lemma {:induction false} RewriteKeepsBlock(r: Resolver, seen: set<Key>, content: Content)
    ensures BlockTag(Rewrite(r, seen, content)) == BlockTag(content)
    decreases |content|
  {
    if content != [] {
      var t := content[0];
      var rest := Rewrite(r, Seen(r, seen, t), content[1..]);
      RewriteKeepsBlock(r, Seen(r, seen, t), content[1..]);
      RewriteKeepsClose(r, Seen(r, seen, t), content[1..]);
      if Emit(r, seen, t) == [] {
        assert Rewrite(r, seen, content) == rest;
      } else {
        assert Rewrite(r, seen, content)[0] == Emit(r, seen, t)[0] && Rewrite(r, seen, content)[1..] == rest;
      }
    }
  }

  predicate NoOpen(content: Content) {
    forall k :: 0 <= k < |content| ==> !content[k].ScriptOpen?
  }

  lemma {:induction false} BlockAfter(a: Content, open: Token, b: Content)
    requires NoOpen(a) && open.ScriptOpen? && ScriptClose in b
    ensures BlockTag(a + ([open] + b)) == Some(open)
    decreases |a|
  {
    var c := a + ([open] + b);
    if a == [] {
      assert c[0] == open && c[1..] == b;
    } else {
      assert c[1..] == a[1..] + ([open] + b);
      BlockAfter(a[1..], open, b);
    }
  }

  lemma {:induction false} BeforeOpen(content: Content)
    requires FirstOpen(content).Some?
    ensures NoOpen(content[..FirstOpen(content).value])
  {
    var i := FirstOpen(content).value;
    if i > 0 {
      BeforeOpen(content[1..]);
      assert content[..i] == [content[0]] + content[1..][..i - 1];
    }
  }

  // ---------------------------------------------------------------- a second pass

  /** Injecting good lines into a settled file. */
  lemma InjectSettles(r: Resolver, a: Content, open: Token, b: Content, keys: seq<Key>, endsLine: bool)
    requires open.ScriptOpen? && Settled(r, {}, a + ([open] + b))
    requires DistinctNames(keys) && AllPoint(r, keys)
    requires forall n :: n in Names(keys) ==> n !in Imported(a + ([open] + b))
    ensures Settled(r, {}, a + ([ScriptOpen(open.tag, true)] + Lines(keys, endsLine)) + b)
  {
    var lines, open' := Lines(keys, endsLine), ScriptOpen(open.tag, true);
    var before := Keys(r, a);
    ImportedConcat(a, [open] + b);
    ImportedConcat([open], b);
    SettledConcat(r, {}, a, [open] + b);
    assert {} + before == before;
    assert ([open] + b)[1..] == b && Settled(r, before, b);
    KeySymbols(r, a);
    LinesSettled(r, before, keys, endsLine);
    KeySymbols(r, lines);
    LinesImport(keys, endsLine);
    SettledMore(r, before, Keys(r, lines), b);
    assert ([open'] + lines)[1..] == lines && Settled(r, before, [open'] + lines);
    assert Keys(r, [open'] + lines) == Keys(r, lines);
    SettledConcat(r, {}, a, [open'] + lines);
    SettledConcat(r, {}, a + ([open'] + lines), b);
    KeysConcat(r, a, [open'] + lines);
    assert {} + Keys(r, a + ([open'] + lines)) == before + Keys(r, lines);
  }

  lemma {:induction false} KeysConcat(r: Resolver, a: Content, b: Content)
    ensures Keys(r, a + b) == Keys(r, a) + Keys(r, b)
    decreases |a|
  {
    if a == [] {
      assert a + b == b;
    } else {
      assert (a + b)[1..] == a[1..] + b;
      KeysConcat(r, a[1..], b);
    }
  }

  /** What the injection changes: the tag ends its line, the visible lines are imported, nothing else. */
  lemma InjectFacts(a: Content, open: Token, b: Content, keys: seq<Key>, endsLine: bool)
    requires open.ScriptOpen? && NoOpen(a) && ScriptClose in b
    ensures var c := a + ([ScriptOpen(open.tag, true)] + Lines(keys, endsLine)) + b;
      && BlockTag(c) == Some(ScriptOpen(open.tag, true))
      && Used(c) == Used(a + ([open] + b))
      && Imported(c) == Imported(a + ([open] + b)) + Names(Visible(keys, endsLine))
  {
    var lines, open' := Lines(keys, endsLine), ScriptOpen(open.tag, true);
    var c := a + ([open'] + lines) + b;
    LinesImport(keys, endsLine);
    assert c == a + ([open'] + (lines + b));
    BlockAfter(a, open', lines + b);
    UsedConcat(a, [open'] + (lines + b));
    UsedConcat([open'], lines + b);
    UsedConcat(lines, b);
    UsedConcat(a, [open] + b);
    UsedConcat([open], b);
    ImportedConcat(a, [open'] + (lines + b));
    ImportedConcat([open'], lines + b);
    ImportedConcat(lines, b);
    ImportedConcat(a, [open] + b);
    ImportedConcat([open], b);
  }

  lemma RewriteFacts(r: Resolver, content: Content)
    requires Sound(r) && Named(content)
    ensures var u := Rewrite(r, {}, content);
      && Settled(r, {}, u) && Used(u) == Used(content) && Imported(u) == Imported(content)
      && BlockTag(u) == BlockTag(content)
  {
    RewriteSettles(r, {}, content);
    RewriteKeepsUses(r, {}, content);
    RewriteKeepsSymbols(r, {}, content);
    assert SymbolsOf({}) == {};
    RewriteKeepsBlock(r, {}, content);
  }

  lemma PendingFacts(r: Resolver, content: Content)
    requires Sound(r) && Named(content)
    ensures var p := PendingIn(r, content);
      DistinctNames(p) && AllPoint(r, p) && forall n :: n in Names(p) ==> n !in Imported(content)
  {
    MissingIsDistinct(Used(content), Imported(content), r.names);
    FoundIsGood(r, MissingIn(r, content));
  }

  /** Imports are injected: some are pending, and there is a script block to put them in. */
  predicate Injects(r: Resolver, content: Content) {
    PendingIn(r, content) != [] && BlockTag(content).Some?
  }

  lemma InjectedFile(r: Resolver, u: Content, p: seq<Key>)
    requires Settled(r, {}, u) && BlockTag(u).Some? && p != []
    requires DistinctNames(p) && AllPoint(r, p) && forall n :: n in Names(p) ==> n !in Imported(u)
    ensures var c, tag := Inject(u, p), BlockTag(u).value;
      && Settled(r, {}, c) && Used(c) == Used(u)
      && Imported(c) == Imported(u) + Names(Visible(p, tag.endsLine))
      && BlockTag(c) == Some(ScriptOpen(tag.tag, true))
  {
    var a, open, b := SplitAtBlock(u, p);
    InjectSettles(r, a, open, b, p, open.endsLine);
    InjectFacts(a, open, b, p, open.endsLine);
  }

  lemma SplitAtBlock(u: Content, p: seq<Key>) returns (a: Content, open: Token, b: Content)
    requires BlockTag(u).Some? && p != []
    ensures u == a + ([open] + b) && NoOpen(a) && ScriptClose in b && BlockTag(u) == Some(open)
    ensures Inject(u, p) == a + ([ScriptOpen(open.tag, true)] + Lines(p, open.endsLine)) + b
  {
    BlockAtTag(u);
    var i := BlockAt(u).value;
    a, open, b := u[..i], u[i], u[i + 1..];
    BeforeOpen(u);
  }

  lemma NormalizedFile(r: Resolver, content: Content)
    requires Sound(r) && Named(content) && Injects(r, content)
    ensures var c, p, tag := Normalize(r, content), PendingIn(r, content), BlockTag(content).value;
      && Settled(r, {}, c) && Used(c) == Used(content)
      && Imported(c) == Imported(content) + Names(Visible(p, tag.endsLine))
      && BlockTag(c) == Some(ScriptOpen(tag.tag, true))
  {
    RewriteFacts(r, content);
    PendingFacts(r, content);
    InjectedFile(r, Rewrite(r, {}, content), PendingIn(r, content));
  }

  /** What a second pass finds: imports it leaves alone, and nothing to inject but an import that ran into
      the text after the script tag, or everything again when there is no script block. */
  lemma SecondPass(r: Resolver, content: Content)
    requires Sound(r) && Named(content)
    ensures var c, p := Normalize(r, content), PendingIn(r, content);
      && Rewrite(r, {}, c) == c && RewriteRepairs(r, {}, c) == 0
      && PendingIn(r, c) == (if Injects(r, content) then p[|Visible(p, BlockTag(content).value.endsLine)|..] else p)
  {
    var c, p, u := Normalize(r, content), PendingIn(r, content), Rewrite(r, {}, content);
    RewriteFacts(r, content);
    PendingFacts(r, content);
    BlockAtTag(u);
    if Injects(r, content) {
      NormalizedFile(r, content);
      var visible := Names(Visible(p, BlockTag(content).value.endsLine));
      MissingMore(Used(content), Imported(content), visible, r.names);
      FoundWithout(r, MissingIn(r, content), visible);
      LeftToInject(p, BlockTag(content).value.endsLine);
    } else {
      assert c == u;
    }
    SettledIsFixed(r, {}, c);
  }

  // ---------------------------------------------------------------- the theorems

  /** A second pass makes no repairs exactly when the first had nothing to inject, or had a script block
      whose tag ends its line. */
  lemma SecondPassRepairs(r: Resolver, content: Content)
    requires Sound(r) && Named(content)
    ensures Repairs(r, Normalize(r, content)) == 0 <==>
            PendingIn(r, content) == [] || (BlockTag(content).Some? && BlockTag(content).value.endsLine)
  {
    SecondPass(r, content);
  }

  /** Normalising is idempotent on content exactly when nothing was injected or the script tag ends its
      line. */
  lemma NormalizeIdempotentIff(r: Resolver, content: Content)
    requires Sound(r) && Named(content)
    ensures Normalize(r, Normalize(r, content)) == Normalize(r, content) <==>
            !Injects(r, content) || BlockTag(content).value.endsLine
  {
    var c := Normalize(r, content);
    SecondPass(r, content);
    RewriteFacts(r, content);
    BlockAtTag(c);
    BlockAtTag(Rewrite(r, {}, content));
    if Injects(r, content) {
      NormalizedFile(r, content);
      if !BlockTag(content).value.endsLine {
        assert |Lines(PendingIn(r, c), true)| == 1 by {
          LastLine(PendingIn(r, c));
        }
        assert |Normalize(r, c)| == |c| + 1;
      }
    }
  }

  lemma LastLine(keys: seq<Key>)
    requires |keys| == 1
    ensures Lines(keys, true) == [ImportLine(keys[0])]
  {
    assert keys[1..] == [];
  }

  /** Text on the script tag's own line makes the second pass inject again. */
  lemma TextAfterTagInjectsAgain() returns (r: Resolver, content: Content)
    ensures Sound(r) && Named(content) && BlockTag(content).Some?
    ensures Normalize(r, Normalize(r, content)) != Normalize(r, content)
  {
    var name := "SectionContainer";
    r := Resolver((n: string) => Some("./a.vue"), (source: string) => true, [name]);
    var usage := Plain("<SectionContainer>", {name});
    content := [ScriptOpen("<script>", false), ScriptClose, usage];
    var end := [ScriptClose, usage];
    assert content[1..] == end && end[1..] == [usage] && [usage][1..] == [];
    assert end[0] == ScriptClose;
    OneUse(usage, name);
    assert Used(end) == {name} && Imported(end) == {};
    assert Used(content) == {name} && Imported(content) == {};
    OneMissing(r, content, name);
    NormalizeIdempotentIff(r, content);
  }

  lemma OneUse(t: Token, name: string)
    requires t.Plain? && t.uses == {name}
    ensures Used([t]) == {name} && Imported([t]) == {}
  {
    assert [t][1..] == [] && Used([]) == {} && Imported([]) == {};
  }

  lemma OneMissing(r: Resolver, content: Content, name: string)
    requires r.names == [name] && name in Used(content) && name !in Imported(content) && r.find(name).Some?
    ensures PendingIn(r, content) != []
  {
    assert Missing(Used(content), Imported(content), name);
    assert r.names[1..] == [] && r.names[0] == name;
    assert MissingNames(Used(content), Imported(content), r.names[1..]) == [];
    assert MissingIn(r, content) == [name];
    assert Found(r, [name])[0] == (name, r.find(name).value);
  }

  lemma NormalizedIsNamed(r: Resolver, content: Content)
    requires Sound(r) && Named(content)
    ensures Named(Normalize(r, content))
  {
    RewriteFacts(r, content);
    BlockAtTag(Rewrite(r, {}, content));
    if Injects(r, content) {
      NormalizedFile(r, content);
      MissingIsDistinct(Used(content), Imported(content), r.names);
      FoundIsGood(r, MissingIn(r, content));
      VisibleNames(PendingIn(r, content), BlockTag(content).value.endsLine);
    }
  }

  lemma VisibleNames(keys: seq<Key>, endsLine: bool)
    ensures Names(Visible(keys, endsLine)) <= Names(keys)
  {
    LinesImport(keys, endsLine);
  }

  /** A second pass always settles it. */
  lemma StableAfterTwo(r: Resolver, content: Content)
    requires Sound(r) && Named(content)
    ensures var twice := Normalize(r, Normalize(r, content)); Normalize(r, twice) == twice
  {
    var c := Normalize(r, content);
    SecondPass(r, content);
    NormalizedIsNamed(r, content);
    NormalizeIdempotentIff(r, c);
    if Injects(r, content) {
      NormalizedFile(r, content);
    } else {
      RewriteFacts(r, content);
      BlockAtTag(Rewrite(r, {}, content));
    }
  }

  /** Every default import of the result points at something, unless its symbol is reported unresolved. */
  lemma SourcesPoint(r: Resolver, content: Content)
    requires Sound(r) && Named(content)
    ensures PointsUnless(r, Reported(r, content), Normalize(r, content))
  {
    var u, p := Rewrite(r, {}, content), PendingIn(r, content);
    RewrittenPoints(r, {}, content);
    PointsMore(r, Unresolved(r, content), Reported(r, content), u);
    if BlockAt(u).Some? && p != [] {
      var i := BlockAt(u).value;
      PendingFacts(r, content);
      LinesPoint(r, p, u[i].endsLine);
      PointsMore(r, {}, Reported(r, content), Lines(p, u[i].endsLine));
    }
  }

  predicate PointsUnless(r: Resolver, reported: set<string>, content: Content) {
    forall k :: 0 <= k < |content| && Default(content[k]) && content[k].symbol.value !in reported ==>
      r.points(content[k].source)
  }

  lemma PointsMore(r: Resolver, few: set<string>, many: set<string>, content: Content)
    requires few <= many && PointsUnless(r, few, content)
    ensures PointsUnless(r, many, content)
  {
  }

  lemma {:induction false} RewrittenPoints(r: Resolver, seen: set<Key>, content: Content)
    requires Sound(r) && Named(content)
    ensures PointsUnless(r, Unresolved(r, content), Rewrite(r, seen, content))
    decreases |content|
  {
    if content != [] {
      var t := content[0];
      var rest := Rewrite(r, Seen(r, seen, t), content[1..]);
      RewrittenPoints(r, Seen(r, seen, t), content[1..]);
      PointsMore(r, Unresolved(r, content[1..]), Unresolved(r, content), rest);
      assert Default(t) ==> t.symbol.value in Imported(content);
    }
  }

  lemma {:induction false} LinesPoint(r: Resolver, keys: seq<Key>, endsLine: bool)
    requires AllPoint(r, keys)
    ensures PointsUnless(r, {}, Lines(keys, endsLine))
    decreases |keys|
  {
    if keys != [] && !(|keys| == 1 && !endsLine) {
      assert r.points(keys[0].1);
      LinesPoint(r, keys[1..], endsLine);
    }
  }

  /** Nothing but default imports is touched, and none of them is invented or moved: the other tokens of
      the rewritten file are those of the original, in order. */
  lemma {:induction false} RewriteKeepsOthers(r: Resolver, seen: set<Key>, content: Content)
    ensures Others(Rewrite(r, seen, content)) == Others(content)
    decreases |content|
  {
    if content != [] {
      var t := content[0];
      var rest := Rewrite(r, Seen(r, seen, t), content[1..]);
      RewriteKeepsOthers(r, Seen(r, seen, t), content[1..]);
      if Emit(r, seen, t) == [] {
        assert Rewrite(r, seen, content) == rest;
      } else {
        assert Rewrite(r, seen, content)[0] == Emit(r, seen, t)[0] && Rewrite(r, seen, content)[1..] == rest;
      }
    }
  }

  function Others(content: Content): Content {
    if content == [] then [] else (if Default(content[0]) then [] else [content[0]]) + Others(content[1..])
  }
}
