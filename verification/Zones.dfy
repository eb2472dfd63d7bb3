/** Replacing what stands between a pair of zone markers. A page is a sequence of tokens: a marker with
    the name it carries, lower-cased, and its exact spelling, or a stretch of text free of markers.
    Markers may be unmatched or nested: a block runs from a start marker to the first end marker of the
    same name, blocks do not overlap, and the leftmost block is taken first. */
module Zones {
  import opened Wrappers
  import opened Text

  datatype Token =
    | Plain(text: string)
    | ZoneStart(name: string, spelling: string)
    | ZoneEnd(name: string, spelling: string)

  type Page = seq<Token>

  /** The first end marker of `name`. */
  function EndFor(page: Page, name: string): (r: Option<nat>)
    ensures r.Some? ==> r.value < |page| && page[r.value].ZoneEnd? && page[r.value].name == name
  {
    if page == [] then None
    else if page[0].ZoneEnd? && page[0].name == name then Some(0)
    else
      var r := EndFor(page[1..], name);
      if r.None? then None else Some(r.value + 1)
  }

  /** One rewriting pass over all blocks. */
  function Rewrite(page: Page, target: string, body: Page): Page
    decreases |page|
  {
    if page == [] then []
    else if !page[0].ZoneStart? then [page[0]] + Rewrite(page[1..], target, body)
    else
      var end := EndFor(page[1..], page[0].name);
      if end.None? then [page[0]] + Rewrite(page[1..], target, body)
      else
        var next := end.value + 1;
        [page[0]] + (if page[0].name == target then body else page[1..next]) + [page[next]]
        + Rewrite(page[next + 1..], target, body)
  }

  function TrimEnd(page: Page): Page {
    if page == [] || !page[|page| - 1].Plain? then page
    else
      var last, rest := RightStrip(page[|page| - 1].text), page[..|page| - 1];
      if last == "" then TrimEnd(rest) else rest + [Plain(last)]
  }

  function NewBody(replacement: Page): Page {
    [Plain("\n")] + TrimEnd(replacement) + [Plain("\n")]
  }

  /** `zone` is the name asked for, lower-cased. */
  function ReplaceZone(page: Page, zone: string, replacement: Page): Page {
    var target := Strip(zone);
    if target == "" then page else Rewrite(page, target, NewBody(replacement))
  }

  /** What is written between the markers: the replacement on lines of its own, less the blanks it ends in. */
  lemma NewBodyIs(replacement: Page, blank: string)
    requires Blank(blank)
    ensures var body := NewBody(replacement);
      && |body| >= 2 && body[0] == Plain("\n") && body[|body| - 1] == Plain("\n")
      && (EndsVisibly(replacement) ==> body[1..|body| - 1] == replacement)
      && NewBody(replacement + [Plain(blank)]) == body
  {
    RightStripBlank(blank);
    var longer := replacement + [Plain(blank)];
    assert longer[..|longer| - 1] == replacement;
    if EndsVisibly(replacement) {
      TrimEndKeeps(replacement);
    }
  }

  predicate EndsVisibly(page: Page) {
    page != [] && (page[|page| - 1].Plain? ==>
                     var s := page[|page| - 1].text; s != "" && !IsSpace(s[|s| - 1]))
  }

  lemma TrimEndKeeps(page: Page)
    requires EndsVisibly(page)
    ensures TrimEnd(page) == page
  {
    if page[|page| - 1].Plain? {
      assert page == page[..|page| - 1] + [page[|page| - 1]];
    }
  }

  /** Replacing in a zone without a name changes nothing, and blanks around a name do not matter. */
  lemma ZoneNames(page: Page, zone: string, replacement: Page)
    ensures Blank(zone) ==> ReplaceZone(page, zone, replacement) == page
    ensures zone != "" && !IsSpace(zone[0]) && !IsSpace(zone[|zone| - 1]) ==>
              ReplaceZone(page, zone, replacement) == Rewrite(page, zone, NewBody(replacement))
  {
    LeftStripBlank(zone);
  }

  // ---------------------------------------------------------------- pages as blocks

  /** What a page consists of: blocks, and tokens that belong to none. */
  datatype Part =
    | Loose(token: Token)
    | Block(start: Token, body: Page, end: Token)

  function Head(page: Page): Part
    requires page != []
  {
    if !page[0].ZoneStart? then Loose(page[0])
    else
      var end := EndFor(page[1..], page[0].name);
      if end.None? then Loose(page[0]) else Block(page[0], page[1..end.value + 1], page[end.value + 1])
  }

  function Rest(page: Page): (r: Page)
    requires page != []
    ensures |r| < |page|
  {
    match Head(page)
    case Loose(_) => page[1..]
    case Block(_, body, _) => page[|body| + 2..]
  }

  function Parts(page: Page): seq<Part>
    decreases |page|
  {
    if page == [] then [] else [Head(page)] + Parts(Rest(page))
  }

  function PartPage(p: Part): Page {
    match p
    case Loose(token) => [token]
    case Block(start, body, end) => [start] + body + [end]
  }

  function Flatten(parts: seq<Part>): Page {
    if parts == [] then [] else PartPage(parts[0]) + Flatten(parts[1..])
  }

  /** The parts of some page: every block is closed by its first end marker, and a loose start marker
      has no end marker anywhere after it. */
  predicate Proper(parts: seq<Part>) {
    parts == [] || (ProperHead(parts[0], Flatten(parts[1..])) && Proper(parts[1..]))
  }

  predicate ProperHead(p: Part, rest: Page) {
    match p
    case Loose(token) => token.ZoneStart? ==> EndFor(rest, token.name) == None
    case Block(start, body, end) =>
      start.ZoneStart? && end.ZoneEnd? && end.name == start.name && EndFor(body, start.name) == None
  }

  lemma {:induction false} EndForConcat(a: Page, b: Page, name: string)
    ensures EndFor(a + b, name) ==
            (if EndFor(a, name).Some? then EndFor(a, name)
             else if EndFor(b, name).Some? then Some(|a| + EndFor(b, name).value)
             else None)
    decreases |a|
  {
    if a == [] {
      assert a + b == b;
    } else {
      assert (a + b)[1..] == a[1..] + b;
      EndForConcat(a[1..], b, name);
    }
  }

  lemma {:induction false} EndForPrefix(page: Page, name: string)
    requires EndFor(page, name).Some?
    ensures EndFor(page[..EndFor(page, name).value], name) == None
  {
    if !(page[0].ZoneEnd? && page[0].name == name) {
      EndForPrefix(page[1..], name);
      var n := EndFor(page, name).value;
      assert page[..n][1..] == page[1..][..n - 1];
    }
  }

  lemma HeadAndRest(page: Page)
    requires page != []
    ensures PartPage(Head(page)) + Rest(page) == page && ProperHead(Head(page), Rest(page))
  {
    if Head(page).Block? {
      EndForPrefix(page[1..], page[0].name);
      assert Head(page).body == page[1..][..EndFor(page[1..], page[0].name).value];
    }
  }

  lemma HeadPart(p: Part, rest: Page)
    requires ProperHead(p, rest)
    ensures Head(PartPage(p) + rest) == p && Rest(PartPage(p) + rest) == rest
  {
    var page := PartPage(p) + rest;
    match p
    case Loose(token) => assert page[1..] == rest;
    case Block(start, body, end) =>
      assert page[1..] == body + ([end] + rest);
      EndForConcat(body, [end] + rest, start.name);
      assert page[1..|body| + 1] == body;
  }

  /** Splitting into parts is exact: nothing is lost, and every page splits one way only. */
  lemma {:induction false} PartsOfPage(page: Page)
    ensures Flatten(Parts(page)) == page && Proper(Parts(page))
    decreases |page|
  {
    if page != [] {
      HeadAndRest(page);
      PartsOfPage(Rest(page));
      assert Parts(page)[1..] == Parts(Rest(page));
    }
  }

  lemma {:induction false} PageOfParts(parts: seq<Part>)
    requires Proper(parts)
    ensures Parts(Flatten(parts)) == parts
  {
    if parts != [] {
      PageOfParts(parts[1..]);
      HeadPart(parts[0], Flatten(parts[1..]));
    }
  }

  // ---------------------------------------------------------------- rewriting, block by block

  function SetBody(p: Part, target: string, body: Page): Part {
    if p.Block? && p.start.ZoneStart? && p.start.name == target then p.(body := body) else p
  }

  function SetBodies(parts: seq<Part>, target: string, body: Page): seq<Part> {
    seq(|parts|, i requires 0 <= i < |parts| => SetBody(parts[i], target, body))
  }

  lemma SetBodiesTail(parts: seq<Part>, target: string, body: Page)
    requires parts != []
    ensures SetBodies(parts, target, body) == [SetBody(parts[0], target, body)] + SetBodies(parts[1..], target, body)
  {
  }

  lemma RewriteHead(page: Page, target: string, body: Page)
    requires page != []
    ensures Rewrite(page, target, body) ==
            PartPage(SetBody(Head(page), target, body)) + Rewrite(Rest(page), target, body)
  {
    var head := Head(page);
    if head.Block? {
      var next := EndFor(page[1..], page[0].name).value + 1;
      assert |head.body| + 2 == next + 1;
      var inner := if head.start.name == target then body else head.body;
      assert PartPage(SetBody(head, target, body)) == [page[0]] + inner + [page[next]];
    }
  }

  /** The pass rewrites the bodies of the target's blocks and nothing else. */
  lemma {:induction false} RewriteSetsBodies(page: Page, target: string, body: Page)
    ensures Rewrite(page, target, body) == Flatten(SetBodies(Parts(page), target, body))
    decreases |page|
  {
    if page != [] {
      RewriteHead(page, target, body);
      RewriteSetsBodies(Rest(page), target, body);
      assert Parts(page)[1..] == Parts(Rest(page));
      SetBodiesTail(Parts(page), target, body);
      assert SetBodies(Parts(page), target, body)[1..] == SetBodies(Parts(Rest(page)), target, body);
    }
  }

  predicate EndFree(page: Page) {
    forall k :: 0 <= k < |page| ==> !page[k].ZoneEnd?
  }

  lemma {:induction false} NoEndFor(page: Page, name: string)
    requires EndFree(page)
    ensures EndFor(page, name) == None
  {
    if page != [] {
      NoEndFor(page[1..], name);
    }
  }

  /** Putting in a body without end markers cannot give any marker an end it did not have. */
  lemma {:induction false} SetKeepsUnended(parts: seq<Part>, target: string, body: Page, name: string)
    requires EndFree(body) && EndFor(Flatten(parts), name) == None
    ensures EndFor(Flatten(SetBodies(parts, target, body)), name) == None
  {
    if parts != [] {
      var set_ := SetBodies(parts, target, body);
      SetBodiesTail(parts, target, body);
      assert set_[1..] == SetBodies(parts[1..], target, body);
      EndForConcat(PartPage(parts[0]), Flatten(parts[1..]), name);
      SetKeepsUnended(parts[1..], target, body, name);
      HeadKeepsUnended(parts[0], target, body, name);
      EndForConcat(PartPage(set_[0]), Flatten(set_[1..]), name);
    }
  }

  lemma HeadKeepsUnended(p: Part, target: string, body: Page, name: string)
    requires EndFree(body) && EndFor(PartPage(p), name) == None
    ensures EndFor(PartPage(SetBody(p, target, body)), name) == None
  {
    if p.Block? && SetBody(p, target, body) != p {
      EndForConcat([p.start] + p.body, [p.end], name);
      NoEndFor(body, name);
      EndForConcat([p.start], body, name);
      EndForConcat([p.start] + body, [p.end], name);
    }
  }

  lemma {:induction false} SetKeepsProper(parts: seq<Part>, target: string, body: Page)
    requires EndFree(body) && Proper(parts)
    ensures Proper(SetBodies(parts, target, body))
  {
    if parts != [] {
      var p := parts[0];
      var set_ := SetBodies(parts, target, body);
      SetBodiesTail(parts, target, body);
      assert set_[1..] == SetBodies(parts[1..], target, body);
      SetKeepsProper(parts[1..], target, body);
      if p.Loose? && p.token.ZoneStart? {
        SetKeepsUnended(parts[1..], target, body, p.token.name);
      }
      if p.Block? {
        NoEndFor(body, p.start.name);
      }
    }
  }

  // ---------------------------------------------------------------- laws

  lemma {:induction false} TrimEndFree(page: Page)
    requires EndFree(page)
    ensures EndFree(TrimEnd(page))
  {
    if page != [] && page[|page| - 1].Plain? {
      TrimEndFree(page[..|page| - 1]);
    }
  }

  /** Exactly the target's blocks are set; every other block, every marker and every loose token stays,
      in the same order. */
  lemma ReplaceSetsTarget(page: Page, zone: string, replacement: Page)
    requires EndFree(replacement) && Strip(zone) != ""
    ensures Parts(ReplaceZone(page, zone, replacement)) ==
            SetBodies(Parts(page), Strip(zone), NewBody(replacement))
  {
    var target, body := Strip(zone), NewBody(replacement);
    TrimEndFree(replacement);
    PartsOfPage(page);
    RewriteSetsBodies(page, target, body);
    SetKeepsProper(Parts(page), target, body);
    PageOfParts(SetBodies(Parts(page), target, body));
  }

  lemma SamePage(a: Page, b: Page)
    requires Parts(a) == Parts(b)
    ensures a == b
  {
    PartsOfPage(a);
    PartsOfPage(b);
  }

  /** The last of two writes to a zone wins. */
  lemma LastWriteWins(page: Page, zone: string, first: Page, second: Page)
    requires EndFree(first) && EndFree(second)
    ensures ReplaceZone(ReplaceZone(page, zone, first), zone, second) == ReplaceZone(page, zone, second)
  {
    if Strip(zone) != "" {
      var once := ReplaceZone(page, zone, first);
      ReplaceSetsTarget(page, zone, first);
      ReplaceSetsTarget(once, zone, second);
      ReplaceSetsTarget(page, zone, second);
      SamePage(ReplaceZone(once, zone, second), ReplaceZone(page, zone, second));
    }
  }

  /** Writes to distinct zones commute. */
  lemma DistinctWritesCommute(page: Page, zone: string, zone': string, a: Page, b: Page)
    requires EndFree(a) && EndFree(b) && Strip(zone) != Strip(zone')
    ensures ReplaceZone(ReplaceZone(page, zone, a), zone', b) == ReplaceZone(ReplaceZone(page, zone', b), zone, a)
  {
    if Strip(zone) != "" && Strip(zone') != "" {
      var p, q := ReplaceZone(page, zone, a), ReplaceZone(page, zone', b);
      ReplaceSetsTarget(page, zone, a);
      ReplaceSetsTarget(p, zone', b);
      ReplaceSetsTarget(page, zone', b);
      ReplaceSetsTarget(q, zone, a);
      assert Parts(ReplaceZone(p, zone', b)) == Parts(ReplaceZone(q, zone, a));
      SamePage(ReplaceZone(p, zone', b), ReplaceZone(q, zone, a));
    }
  }

  /** A page changes exactly when it holds a block of the target with another body. */
  lemma ReplaceChangesIff(page: Page, zone: string, replacement: Page)
    requires EndFree(replacement) && Strip(zone) != ""
    ensures ReplaceZone(page, zone, replacement) == page <==>
            forall k :: 0 <= k < |Parts(page)| ==>
              SetBody(Parts(page)[k], Strip(zone), NewBody(replacement)) == Parts(page)[k]
  {
    var parts, set_ := Parts(page), SetBodies(Parts(page), Strip(zone), NewBody(replacement));
    ReplaceSetsTarget(page, zone, replacement);
    if forall k :: 0 <= k < |parts| ==> SetBody(parts[k], Strip(zone), NewBody(replacement)) == parts[k] {
      assert set_ == parts;
      SamePage(ReplaceZone(page, zone, replacement), page);
    } else {
      var k :| 0 <= k < |parts| && SetBody(parts[k], Strip(zone), NewBody(replacement)) != parts[k];
      assert set_[k] != parts[k];
    }
  }

  /** The laws do need replacements without end markers: one that closes its own zone is written again
      inside the shorter block it makes. */
  lemma ClosingReplacementGrows(mark: string)
    ensures var page := [ZoneStart("hero", mark), ZoneEnd("hero", mark)];
      var r := [ZoneEnd("hero", mark)];
      ReplaceZone(ReplaceZone(page, "hero", r), "hero", r) != ReplaceZone(page, "hero", r)
  {
    var open, close, nl := ZoneStart("hero", mark), ZoneEnd("hero", mark), Plain("\n");
    var r := [close];
    var body := NewBody(r);
    assert Strip("hero") == "hero";
    assert body == [nl, close, nl];
    var p0: Page := [open, close];
    var p1: Page := [open, nl, close, nl, close];
    assert p0[1..] == [close] && p0[2..] == [];
    assert EndFor([close], "hero") == Some(0);
    assert Rewrite(p0, "hero", body) == p1;
    assert p1[1..] == [nl, close, nl, close] && p1[1..][1..] == [close, nl, close];
    assert EndFor(p1[1..], "hero") == Some(1);
    assert Rewrite(p1, "hero", body) == [open] + body + [close] + Rewrite(p1[3..], "hero", body);
    assert Rewrite(p1, "hero", body)[3] == nl && Rewrite(p1, "hero", body)[4] == close;
    assert p1[3..] == [nl, close] && [nl, close][1..] == [close];
    assert |Rewrite(p1[3..], "hero", body)| == 2;
  }
}
