/** Relative import paths: how one file names another, and where that name leads. A path is the list of
    its components, free of empty parts and single dots; only relative paths are modelled. */
module RelPath {
  import opened Wrappers
  import opened Text

  type Path = seq<string>

  const UP := ".."

  predicate Clean(part: string) {
    part != "" && part != "." && '/' !in part
  }

  predicate CleanPath(p: Path) {
    forall k :: 0 <= k < |p| ==> Clean(p[k])
  }

  // ---------------------------------------------------------------- where a path leads

  /** A place: so many levels above the root, then down through the names. */
  datatype Place = Place(up: nat, names: Path)

  const ROOT := Place(0, [])

  function Enter(at: Place, part: string): Place {
    if part != UP then at.(names := at.names + [part])
    else if at.names != [] then at.(names := at.names[..|at.names| - 1])
    else at.(up := at.up + 1)
  }

  function Walk(at: Place, p: Path): Place
    decreases |p|
  {
    if p == [] then at else Walk(Enter(at, p[0]), p[1..])
  }

  lemma {:induction false} WalkConcat(at: Place, p: Path, q: Path)
    ensures Walk(at, p + q) == Walk(Walk(at, p), q)
    decreases |p|
  {
    if p == [] {
      assert p + q == q;
    } else {
      assert (p + q)[1..] == p[1..] + q;
      WalkConcat(Enter(at, p[0]), p[1..], q);
    }
  }

  // ---------------------------------------------------------------- one file as seen from another

  /** How many leading components two paths share. */
  function Common(a: Path, b: Path): (n: nat)
    ensures n <= |a| && n <= |b| && a[..n] == b[..n]
  {
    if a != [] && b != [] && a[0] == b[0] then
      var n := Common(a[1..], b[1..]);
      assert a[..n + 1] == [a[0]] + a[1..][..n] && b[..n + 1] == [b[0]] + b[1..][..n];
      n + 1
    else 0
  }

  function Ups(n: nat): (p: Path)
    ensures |p| == n && forall k :: 0 <= k < n ==> p[k] == UP
  {
    if n == 0 then [] else [UP] + Ups(n - 1)
  }

  function RelativeParts(dir: Path, target: Path): Path {
    Ups(|dir| - Common(dir, target)) + target[Common(dir, target)..]
  }

  function Join(p: Path): string {
    if p == [] then "" else if |p| == 1 then p[0] else p[0] + ("/" + Join(p[1..]))
  }

  predicate Dotted(s: string) {
    s != "" && s[0] == '.'
  }

  function RelativeText(parts: Path): string {
    var rel := if parts == [] then "." else Join(parts);
    if Dotted(rel) then rel else "./" + rel
  }

  function Parent(file: Path): Path {
    if file == [] then [] else file[..|file| - 1]
  }

  function RelativeFrom(file: Path, target: Path): string {
    RelativeText(RelativeParts(Parent(file), target))
  }

  method RelativeBetween(file: Path, target: Path) returns (rel: string)
    ensures rel == RelativeFrom(file, target)
  {
    var dir := Parent(file);
    var i := 0;
    while i < |dir| && i < |target| && dir[i] == target[i]
      invariant i <= |dir| && i <= |target|
      invariant Common(dir, target) == i + Common(dir[i..], target[i..])
    {
      CommonNext(dir, target, i);
      i := i + 1;
    }
    CommonEnds(dir, target, i);
    var parts := Ups(|dir| - i) + target[i..];
    rel := if parts == [] then "." else Join(parts);
    if !Dotted(rel) {
      rel := "./" + rel;
    }
  }

  lemma CommonNext(a: Path, b: Path, i: nat)
    requires i < |a| && i < |b| && a[i] == b[i]
    ensures Common(a[i..], b[i..]) == 1 + Common(a[i + 1..], b[i + 1..])
  {
    assert a[i..][1..] == a[i + 1..] && b[i..][1..] == b[i + 1..];
  }

  lemma CommonEnds(a: Path, b: Path, i: nat)
    requires i <= |a| && i <= |b| && (i == |a| || i == |b| || a[i] != b[i])
    ensures Common(a[i..], b[i..]) == 0
  {
  }

  lemma CommonIsLongest(a: Path, b: Path)
    ensures var n := Common(a, b); n == |a| || n == |b| || a[n] != b[n]
  {
    if a != [] && b != [] && a[0] == b[0] {
      CommonIsLongest(a[1..], b[1..]);
    }
  }

  predicate NoUps(p: Path) {
    UP !in p
  }

  /** Going down and as many levels up again leads back. */
  lemma {:induction false} DownAndUp(at: Place, p: Path)
    requires NoUps(p)
    ensures Walk(at, p + Ups(|p|)) == at
    decreases |p|
  {
    if p == [] {
      assert p + Ups(0) == [];
    } else {
      var n := |p| - 1;
      var inner := Enter(at, p[0]);
      UpsSnoc(n);
      assert p + Ups(|p|) == [p[0]] + (p[1..] + Ups(n)) + [UP];
      WalkConcat(at, [p[0]] + (p[1..] + Ups(n)), [UP]);
      assert ([p[0]] + (p[1..] + Ups(n)))[1..] == p[1..] + Ups(n);
      DownAndUp(inner, p[1..]);
      assert Walk(inner, [UP]) == Enter(inner, UP) by {
        assert [UP][1..] == [];
      }
    }
  }

  lemma {:induction false} UpsSnoc(n: nat)
    ensures Ups(n + 1) == Ups(n) + [UP]
  {
  }

  function Depth(at: Place): int {
    |at.names| - at.up
  }

  function Dots(p: Path): nat {
    if p == [] then 0 else (if p[0] == UP then 1 else 0) + Dots(p[1..])
  }

  lemma {:induction false} WalkDepth(at: Place, p: Path)
    ensures Depth(Walk(at, p)) == Depth(at) + |p| - 2 * Dots(p)
    decreases |p|
  {
    if p != [] {
      WalkDepth(Enter(at, p[0]), p[1..]);
    }
  }

  lemma {:induction false} DotsOf(p: Path)
    ensures Dots(p) == 0 <==> NoUps(p)
  {
    if p != [] {
      DotsOf(p[1..]);
      assert p == [p[0]] + p[1..];
    }
  }

  lemma {:induction false} DotsOfUps(n: nat)
    ensures Dots(Ups(n)) == n
  {
    if n > 0 {
      DotsOfUps(n - 1);
    }
  }

  /** Round trip on components: from the importing directory, the relative path leads to the target
      exactly when what the directory does not share with the target holds no parent step. */
  lemma RelativeLeadsToTarget(dir: Path, target: Path)
    ensures Walk(Walk(ROOT, dir), RelativeParts(dir, target)) == Walk(ROOT, target) <==>
            NoUps(dir[Common(dir, target)..])
  {
    var n := Common(dir, target);
    var own, rest := dir[n..], target[n..];
    var shared := Walk(ROOT, dir[..n]);
    assert dir == dir[..n] + own && target == dir[..n] + rest;
    WalkConcat(ROOT, dir[..n], own);
    WalkConcat(ROOT, dir[..n], rest);
    WalkConcat(Walk(shared, own), Ups(|own|), rest);
    BackIff(shared, own, rest);
  }

  /** From a directory that is one parent step, another parent step leads further away, not back. */
  lemma ParentStepMisleads(target: Path)
    requires target == [] || target[0] != UP
    ensures Walk(Walk(ROOT, [UP]), RelativeParts([UP], target)) != Walk(ROOT, target)
  {
    assert Common([UP], target) == 0 && [UP][0] in [UP][0..];
    RelativeLeadsToTarget([UP], target);
  }

  lemma BackIff(shared: Place, own: Path, rest: Path)
    ensures Walk(Walk(Walk(shared, own), Ups(|own|)), rest) == Walk(shared, rest) <==> NoUps(own)
  {
    var back := Walk(Walk(shared, own), Ups(|own|));
    if NoUps(own) {
      DownAndUp(shared, own);
      WalkConcat(shared, own, Ups(|own|));
    } else {
      WalkDepth(shared, own);
      WalkDepth(Walk(shared, own), Ups(|own|));
      DotsOfUps(|own|);
      DotsOf(own);
      WalkDepth(back, rest);
      WalkDepth(shared, rest);
      assert Depth(Walk(back, rest)) != Depth(Walk(shared, rest));
    }
  }

  // ---------------------------------------------------------------- reading a path back

  function SplitOn(s: string): seq<string>
    decreases |s|
  {
    var i := Find(s, "/", 0);
    if i.None? then [s] else [s[..i.value]] + SplitOn(s[i.value + 1..])
  }

  function KeepParts(p: seq<string>): Path {
    if p == [] then [] else (if p[0] == "" || p[0] == "." then [] else [p[0]]) + KeepParts(p[1..])
  }

  /** The components of a relative path text. */
  function Split(s: string): Path {
    KeepParts(SplitOn(s))
  }

  lemma {:induction false} NoSlash(s: string, from: nat)
    requires '/' !in s
    ensures Find(s, "/", from) == None
    decreases |s| - from
  {
    if from + 1 <= |s| {
      assert !StartsAt(s, from, "/") by {
        assert s[from..from + 1][0] == s[from];
      }
      NoSlash(s, from + 1);
    }
  }

  lemma FirstSlash(a: string, b: string)
    requires '/' !in a
    ensures Find(a + ("/" + b), "/", 0) == Some(|a|)
  {
    var s := a + ("/" + b);
    assert s[|a|..|a| + 1] == "/";
    assert StartsAt(s, |a|, "/");
    forall j | 0 <= j < |a| ensures !StartsAt(s, j, "/") {
      assert s[j..j + 1][0] == a[j];
    }
    FindExact(s, "/", 0, |a|);
  }

  lemma SplitFirst(a: string, b: string)
    requires '/' !in a
    ensures SplitOn(a + ("/" + b)) == [a] + SplitOn(b)
  {
    FirstSlash(a, b);
    var s := a + ("/" + b);
    assert s[..|a|] == a && s[|a| + 1..] == b;
  }

  lemma {:induction false} SplitInvertsJoin(p: Path)
    requires p != [] && CleanPath(p)
    ensures SplitOn(Join(p)) == p && Join(p) != ""
    decreases |p|
  {
    if |p| == 1 {
      NoSlash(p[0], 0);
      assert p == [p[0]];
    } else {
      SplitInvertsJoin(p[1..]);
      SplitFirst(p[0], Join(p[1..]));
    }
  }

  lemma {:induction false} KeepClean(p: Path)
    requires CleanPath(p)
    ensures KeepParts(p) == p
  {
    if p != [] {
      KeepClean(p[1..]);
    }
  }

  /** Round trip on text: reading a relative path gives the components it was written from. */
  lemma ReadInvertsWrite(p: Path)
    requires CleanPath(p)
    ensures Split(RelativeText(p)) == p && Dotted(RelativeText(p))
  {
    if p == [] {
      NoSlash(".", 0);
      assert SplitOn(".") == ["."] && ["."][1..] == [];
    } else {
      SplitInvertsJoin(p);
      KeepClean(p);
      if !Dotted(Join(p)) {
        SplitFirst(".", Join(p));
        assert "./" + Join(p) == "." + ("/" + Join(p));
        assert (["."] + p)[1..] == p;
      }
    }
  }

  lemma CleanRelative(dir: Path, target: Path)
    requires CleanPath(target)
    ensures CleanPath(RelativeParts(dir, target))
  {
  }

  /** The relative path text ends as its last component does, so trimming leaves it alone. */
  lemma {:induction false} JoinEnds(p: Path)
    requires p != [] && CleanPath(p)
    ensures Join(p) != "" && Join(p)[|Join(p)| - 1] == p[|p| - 1][|p[|p| - 1]| - 1]
    ensures Join(p)[0] == p[0][0]
    decreases |p|
  {
    if |p| > 1 {
      JoinEnds(p[1..]);
      assert Join(p) == p[0] + ("/" + Join(p[1..]));
      assert p[1..][|p| - 2] == p[|p| - 1];
    }
  }

  predicate EndsVisibly(p: Path) {
    p != [] && p[|p| - 1] != "" ==> !IsSpace(p[|p| - 1][|p[|p| - 1]| - 1])
  }

  lemma RelativeEnds(dir: Path, target: Path)
    requires CleanPath(target) && EndsVisibly(target)
    ensures EndsVisibly(RelativeParts(dir, target))
  {
    var n := Common(dir, target);
    var p := RelativeParts(dir, target);
    if n < |target| {
      assert p[|p| - 1] == target[|target| - 1];
    } else if p != [] {
      assert p[|p| - 1] == UP;
    }
  }

  lemma VisibleIsTrimmed(s: string)
    requires s != "" && !IsSpace(s[0]) && !IsSpace(s[|s| - 1])
    ensures Strip(s) == s
  {
  }

  lemma TextEnds(p: Path)
    requires CleanPath(p) && EndsVisibly(p)
    ensures var rel := RelativeText(p); rel != "" && !IsSpace(rel[|rel| - 1])
  {
    if p != [] {
      JoinEnds(p);
      var rel := RelativeText(p);
      assert rel[|rel| - 1] == Join(p)[|Join(p)| - 1];
    }
  }

  lemma RelativeIsTrimmed(dir: Path, target: Path)
    requires CleanPath(target) && EndsVisibly(target)
    ensures var rel := RelativeText(RelativeParts(dir, target)); Strip(rel) == rel
  {
    var p := RelativeParts(dir, target);
    CleanRelative(dir, target);
    RelativeEnds(dir, target);
    TextEnds(p);
    assert Dotted(RelativeText(p)) by {
      ReadInvertsWrite(p);
    }
    VisibleIsTrimmed(RelativeText(p));
  }
}
