/** Normalising a landing page: the bodies of the known zones are collected, missing ones inferred from
    section components or filled with a placeholder, and the page is written out anew around them. A page
    is a sequence of tokens: the tags the code looks for, each with its exact spelling, and text. */
module Landing {
  import opened Wrappers
  import opened Text

  datatype Zone = Hero | Feature | Testimonials | Cta

  const ZONES: seq<Zone> := [Hero, Feature, Testimonials, Cta]

  /** The components the code knows by name. */
  datatype Component =
    | HeroSection | FeatureSection | FeaturesSection | ProblemSolutionSection | CapabilitiesGridSection
    | HowItWorksSection | ROICalculatorSection | ProofSection | PricingSection | TestimonialsSection | CTASection
    | LeadCaptureSection | HeroPlaceholder | FeaturePlaceholder | TestimonialsPlaceholder | CTAPlaceholder
    | OtherComponent(name: string)

  /** How a tag is written: as the code writes it, or otherwise; `exact` says whether the name is in the
      code's own case. */
  datatype Spelling = Canonical | Written(text: string, exact: bool)

  datatype Token =
    | Chars(text: string)
    | ZoneOpen(zone: Zone, spelling: Spelling)
    | ZoneClose(zone: Zone, spelling: Spelling)
    | Shell(spelling: Spelling)
    | ScriptOpen(spelling: Spelling)
    | ScriptClose(spelling: Spelling)
    | StyleOpen(spelling: Spelling)
    | StyleClose(spelling: Spelling)
    | CompOpen(component: Component, selfClosing: bool, spelling: Spelling)
    | CompClose(component: Component, spelling: Spelling)

  type Page = seq<Token>

  function DefaultOf(zone: Zone): Component {
    match zone
    case Hero => HeroPlaceholder
    case Feature => FeaturePlaceholder
    case Testimonials => TestimonialsPlaceholder
    case Cta => CTAPlaceholder
  }

  function SectionsOf(zone: Zone): seq<Component> {
    match zone
    case Hero => [HeroSection]
    case Feature =>
      [FeatureSection, FeaturesSection, ProblemSolutionSection, CapabilitiesGridSection, HowItWorksSection,
       ROICalculatorSection, ProofSection, PricingSection]
    case Testimonials => [TestimonialsSection]
    case Cta => [CTASection, LeadCaptureSection]
  }

  // ---------------------------------------------------------------- trimming

  function TrimLeft(page: Page): Page {
    if page == [] || !page[0].Chars? then page
    else
      var s := LeftStrip(page[0].text);
      if s == "" then TrimLeft(page[1..]) else [Chars(s)] + page[1..]
  }

  function TrimRight(page: Page): Page {
    if page == [] || !page[|page| - 1].Chars? then page
    else
      var s, rest := RightStrip(page[|page| - 1].text), page[..|page| - 1];
      if s == "" then TrimRight(rest) else rest + [Chars(s)]
  }

  function Trim(page: Page): Page {
    TrimRight(TrimLeft(page))
  }

  predicate StartsSolid(page: Page) {
    page != [] && (page[0].Chars? ==> page[0].text != "" && !IsSpace(page[0].text[0]))
  }

  predicate EndsSolid(page: Page) {
    page != [] && (page[|page| - 1].Chars? ==>
                     var s := page[|page| - 1].text; s != "" && !IsSpace(s[|s| - 1]))
  }

  predicate Solid(page: Page) {
    StartsSolid(page) && EndsSolid(page)
  }

  lemma {:induction false} TrimLeftStarts(page: Page)
    ensures TrimLeft(page) == [] || StartsSolid(TrimLeft(page))
  {
    if page != [] && page[0].Chars? && LeftStrip(page[0].text) == "" {
      TrimLeftStarts(page[1..]);
    }
  }

  lemma {:induction false} TrimRightEnds(page: Page)
    ensures TrimRight(page) == [] || EndsSolid(TrimRight(page))
    ensures StartsSolid(page) && TrimRight(page) != [] ==> StartsSolid(TrimRight(page))
  {
    if page != [] && page[|page| - 1].Chars? {
      if RightStrip(page[|page| - 1].text) == "" {
        TrimRightEnds(page[..|page| - 1]);
      } else {
        assert RightStrip(page[|page| - 1].text) <= page[|page| - 1].text;
      }
    }
  }

  lemma TrimSolid(page: Page)
    ensures Trim(page) == [] || Solid(Trim(page))
  {
    TrimLeftStarts(page);
    TrimRightEnds(TrimLeft(page));
  }

  lemma TrimPadded(before: string, body: Page, after: string)
    requires Solid(body) && Blank(before) && Blank(after)
    ensures Trim([Chars(before)] + body + [Chars(after)]) == body
  {
    var page := [Chars(before)] + body + [Chars(after)];
    LeftStripBlank(before);
    RightStripBlank(after);
    assert page[1..] == body + [Chars(after)];
    assert TrimLeft(page) == TrimLeft(body + [Chars(after)]);
    SolidStart(body, [Chars(after)]);
    assert (body + [Chars(after)])[..|body|] == body;
    assert TrimRight(body + [Chars(after)]) == TrimRight(body);
    SolidEnd(body);
  }

  lemma SolidStart(body: Page, rest: Page)
    requires StartsSolid(body)
    ensures TrimLeft(body + rest) == body + rest
  {
    var page := body + rest;
    if page[0].Chars? {
      assert LeftStrip(page[0].text) == page[0].text;
      assert page == [page[0]] + page[1..];
    }
  }

  lemma SolidEnd(body: Page)
    requires EndsSolid(body)
    ensures TrimRight(body) == body
  {
    if body[|body| - 1].Chars? {
      assert RightStrip(body[|body| - 1].text) == body[|body| - 1].text;
      assert body == body[..|body| - 1] + [body[|body| - 1]];
    }
  }

  // ---------------------------------------------------------------- finding tags and blocks

  function Index(page: Page, p: Token -> bool): (r: Option<nat>)
    ensures r.Some? ==> r.value < |page| && p(page[r.value])
  {
    if page == [] then None
    else if p(page[0]) then Some(0)
    else
      var r := Index(page[1..], p);
      if r.None? then None else Some(r.value + 1)
  }

  predicate Free(page: Page, p: Token -> bool) {
    forall k :: 0 <= k < |page| ==> !p(page[k])
  }

  lemma {:induction false} IndexConcat(a: Page, b: Page, p: Token -> bool)
    ensures Index(a + b, p) ==
            (if Index(a, p).Some? then Index(a, p)
             else if Index(b, p).Some? then Some(|a| + Index(b, p).value)
             else None)
    ensures Index(a, p).None? <==> Free(a, p)
    decreases |a|
  {
    if a == [] {
      assert a + b == b;
    } else {
      assert (a + b)[1..] == a[1..] + b;
      IndexConcat(a[1..], b, p);
      assert a == [a[0]] + a[1..];
    }
  }

  /** The first block from an opening token to the first closing token after it. */
  function Block(page: Page, open: Token -> bool, close: Token -> bool): Option<Page> {
    var i := Index(page, open);
    if i.None? then None else BlockFrom(page, i.value, close)
  }

  function BlockFrom(page: Page, i: nat, close: Token -> bool): Option<Page>
    requires i < |page|
  {
    var j := Index(page[i + 1..], close);
    if j.None? then None else Some(page[i..i + j.value + 2])
  }

  function IsShell(): Token -> bool { (t: Token) => t.Shell? }

  function IsZoneOpen(): Token -> bool { (t: Token) => t.ZoneOpen? }

  function ClosesZone(zone: Zone): Token -> bool { (t: Token) => t.ZoneClose? && t.zone == zone }

  function IsScriptOpen(): Token -> bool { (t: Token) => t.ScriptOpen? }

  function IsScriptClose(): Token -> bool { (t: Token) => t.ScriptClose? }

  function IsStyleOpen(): Token -> bool { (t: Token) => t.StyleOpen? }

  function IsStyleClose(): Token -> bool { (t: Token) => t.StyleClose? }

  function Opens(c: Component): Token -> bool { (t: Token) => t.CompOpen? && t.component == c }

  function SelfCloses(c: Component): Token -> bool { (t: Token) => t.CompOpen? && t.component == c && t.selfClosing }

  function Closes(c: Component): Token -> bool { (t: Token) => t.CompClose? && t.component == c }

  function Script(page: Page): Option<Page> {
    Block(page, IsScriptOpen(), IsScriptClose())
  }

  function Style(page: Page): Option<Page> {
    Block(page, IsStyleOpen(), IsStyleClose())
  }

  /** The first use of a component: as a pair of tags if one is closed, else as a self-closing tag. */
  function Markup(page: Page, c: Component): Option<Page> {
    var paired := Block(page, Opens(c), Closes(c));
    if paired.Some? then paired
    else
      var i := Index(page, SelfCloses(c));
      if i.None? then None else Some([page[i.value]])
  }

  predicate HasShell(page: Page) {
    Index(page, IsShell()).Some?
  }

  // ---------------------------------------------------------------- the bodies of the zones

  /** The zones of a page with their bodies, leftmost first and without overlap; a zone ends at its first
      closing tag. */
  function Matches(page: Page): seq<(Zone, Page)>
    decreases |page|
  {
    if page == [] then []
    else if !page[0].ZoneOpen? then Matches(page[1..])
    else
      var end := Index(page[1..], ClosesZone(page[0].zone));
      if end.None? then Matches(page[1..])
      else [(page[0].zone, page[1..end.value + 1])] + Matches(page[end.value + 2..])
  }

  /** The last body of a zone that is not blank, trimmed. */
  function LastBody(ms: seq<(Zone, Page)>, zone: Zone): Option<Page> {
    if ms == [] then None
    else
      var later := LastBody(ms[1..], zone);
      if later.Some? then later
      else if ms[0].0 == zone && Trim(ms[0].1) != [] then Some(Trim(ms[0].1))
      else None
  }

  function Existing(page: Page, zone: Zone): Option<Page> {
    LastBody(Matches(page), zone)
  }

  function Infer(page: Page, names: seq<Component>): Option<Page> {
    if names == [] then None
    else
      var found := Markup(page, names[0]);
      if found.Some? then found else Infer(page, names[1..])
  }

  function Placeholder(zone: Zone): Token {
    CompOpen(DefaultOf(zone), true, Canonical)
  }

  function BodyOf(page: Page, zone: Zone): Page {
    var existing := Existing(page, zone);
    if existing.Some? then existing.value
    else
      var inferred := Infer(page, SectionsOf(zone));
      if inferred.Some? then inferred.value else [Placeholder(zone)]
  }

  // ---------------------------------------------------------------- the page written out anew

  function Inner(body: Page): Page {
    [Chars("\n      ")] + body + [Chars("\n    ")]
  }

  function ZoneBlock(zone: Zone, body: Page): Page {
    [Chars("    "), ZoneOpen(zone, Canonical)] + Inner(body) + [ZoneClose(zone, Canonical)]
  }

  function ZoneLines(zone: Zone, body: Page): Page {
    ZoneBlock(zone, body) + [Chars("\n")]
  }

  function Blocks(page: Page, zones: seq<Zone>): Page {
    if zones == [] then []
    else ZoneLines(zones[0], BodyOf(page, zones[0])) + Blocks(page, zones[1..])
  }

  function Head(shell: bool): Page {
    if shell then [Chars("<template>\n  "), Shell(Canonical), Chars("\n")]
    else [Chars("<template>\n  <main class=\"landing-page\">\n")]
  }

  function Foot(shell: bool): Page {
    [Chars(if shell then "  </PageShell>\n</template>\n" else "  </main>\n</template>\n")]
  }

  function Attached(block: Option<Page>): Page {
    if block.None? then [] else [Chars("\n")] + block.value + [Chars("\n")]
  }

  function Template(page: Page): Page {
    Head(HasShell(page)) + Blocks(page, ZONES) + Foot(HasShell(page))
  }

  function Output(page: Page): Page {
    Template(page) + (Attached(Script(page)) + Attached(Style(page)))
  }

  datatype Note = EmptyContent | ShellMissing | ShellMissingInStability

  datatype Outcome = Outcome(page: Page, notes: seq<Note>, ok: bool)

  function Normalize(page: Page, stability: bool): Outcome {
    if Trim(page) == [] then Outcome(page, [EmptyContent], false)
    else if HasShell(page) then Outcome(Output(page), [], true)
    else if !stability then Outcome(page, [ShellMissing], false)
    else Outcome(Output(page), [ShellMissingInStability], true)
  }

  datatype Violation = MissingShell | MissingZone(zone: Zone)

  /** The zone's tag occurs with its exact spelling. */
  function Spelled(zone: Zone): Token -> bool {
    (t: Token) => t.ZoneOpen? && t.zone == zone && (t.spelling.Canonical? || t.spelling.exact)
  }

  predicate HasZone(page: Page, zone: Zone) {
    Index(page, Spelled(zone)).Some?
  }

  function ZoneViolations(page: Page, zone: Zone): seq<Violation> {
    if HasZone(page, zone) then [] else [MissingZone(zone)]
  }

  function MissingZones(page: Page, zones: seq<Zone>): seq<Violation> {
    if zones == [] then []
    else ZoneViolations(page, zones[0]) + MissingZones(page, zones[1..])
  }

  function Violations(page: Page, stability: bool): seq<Violation> {
    (if !HasShell(page) && !stability then [MissingShell] else []) + MissingZones(page, ZONES)
  }

  // ---------------------------------------------------------------- step by step

  method ValidateGraphIntegrity(page: Page, stability: bool) returns (violations: seq<Violation>)
    ensures violations == Violations(page, stability)
  {
    violations := [];
    if !HasShell(page) && !stability {
      violations := violations + [MissingShell];
    }
    var zones := MissingFrom(page, ZONES);
    violations := violations + zones;
  }

  method MissingFrom(page: Page, zones: seq<Zone>) returns (violations: seq<Violation>)
    ensures violations == MissingZones(page, zones)
  {
    violations := [];
    for i := 0 to |zones|
      invariant violations + MissingZones(page, zones[i..]) == MissingZones(page, zones)
    {
      MissingNext(page, zones, i, violations);
      if !HasZone(page, zones[i]) {
        violations := violations + [MissingZone(zones[i])];
      }
    }
  }

  lemma MissingNext(page: Page, zones: seq<Zone>, i: nat, violations: seq<Violation>)
    requires i < |zones|
    ensures violations + MissingZones(page, zones[i..]) ==
            (violations + ZoneViolations(page, zones[i])) + MissingZones(page, zones[i + 1..])
    ensures HasZone(page, zones[i]) ==> violations + ZoneViolations(page, zones[i]) == violations
  {
    assert zones[i..][0] == zones[i] && zones[i..][1..] == zones[i + 1..];
  }

  method NormalizeLandingGraphContent(page: Page, stability: bool) returns (r: Outcome)
    ensures r == Normalize(page, stability)
  {
    if Trim(page) == [] {
      return Outcome(page, [EmptyContent], false);
    }
    var bodies := CollectBodies(page);
    var blocks := WriteBlocks(page, bodies, ZONES);
    var shell := HasShell(page);
    if !shell && !stability {
      return Outcome(page, [ShellMissing], false);
    }
    var normalized := Head(shell) + blocks + Foot(shell);
    normalized := normalized + (Attached(Script(page)) + Attached(Style(page)));
    r := Outcome(normalized, if shell then [] else [ShellMissingInStability], true);
  }

  /** The dictionary holds the last body of every zone. */
  predicate Holds(bodies: map<Zone, Page>, ms: seq<(Zone, Page)>) {
    forall z :: (if z in bodies then Some(bodies[z]) else None) == LastBody(ms, z)
  }

  method CollectBodies(page: Page) returns (bodies: map<Zone, Page>)
    ensures Holds(bodies, Matches(page))
  {
    bodies := map[];
    var ms := Matches(page);
    for i := 0 to |ms|
      invariant Holds(bodies, ms[..i])
    {
      assert ms[..i + 1] == ms[..i] + [ms[i]];
      var zone, body := ms[i].0, Trim(ms[i].1);
      HoldsMore(bodies, ms[..i], ms[i]);
      if body != [] {
        bodies := bodies[zone := body];
      }
    }
    assert ms[..|ms|] == ms;
  }

  lemma HoldsMore(bodies: map<Zone, Page>, ms: seq<(Zone, Page)>, m: (Zone, Page))
    requires Holds(bodies, ms)
    ensures Holds(if Trim(m.1) != [] then bodies[m.0 := Trim(m.1)] else bodies, ms + [m])
  {
    forall z ensures LastBody(ms + [m], z) ==
                     if m.0 == z && Trim(m.1) != [] then Some(Trim(m.1)) else LastBody(ms, z)
    {
      LastBodySnoc(ms, m, z);
    }
  }

  lemma {:induction false} LastBodySnoc(ms: seq<(Zone, Page)>, m: (Zone, Page), zone: Zone)
    ensures LastBody(ms + [m], zone) ==
            if m.0 == zone && Trim(m.1) != [] then Some(Trim(m.1)) else LastBody(ms, zone)
  {
    if ms == [] {
      assert ms + [m] == [m] && [m][1..] == [];
    } else {
      assert (ms + [m])[1..] == ms[1..] + [m];
      LastBodySnoc(ms[1..], m, zone);
    }
  }

  method WriteBlocks(page: Page, bodies: map<Zone, Page>, zones: seq<Zone>) returns (blocks: Page)
    requires Holds(bodies, Matches(page))
    ensures blocks == Blocks(page, zones)
  {
    blocks := [];
    for i := 0 to |zones|
      invariant blocks + Blocks(page, zones[i..]) == Blocks(page, zones)
    {
      assert zones[i..][0] == zones[i] && zones[i..][1..] == zones[i + 1..];
      var body := ChooseBody(page, bodies, zones[i]);
      var lines := ZoneLines(zones[i], body);
      AppendLines(blocks, lines, Blocks(page, zones[i + 1..]));
      blocks := blocks + lines;
    }
  }

  lemma AppendLines(blocks: Page, lines: Page, rest: Page)
    ensures (blocks + lines) + rest == blocks + (lines + rest)
  {
  }

  method ChooseBody(page: Page, bodies: map<Zone, Page>, zone: Zone) returns (body: Page)
    requires Holds(bodies, Matches(page))
    ensures body == BodyOf(page, zone)
  {
    if zone in bodies {
      return bodies[zone];
    }
    var names := SectionsOf(zone);
    for i := 0 to |names|
      invariant Infer(page, names[i..]) == Infer(page, names)
    {
      assert names[i..][0] == names[i] && names[i..][1..] == names[i + 1..];
      var inferred := Markup(page, names[i]);
      if inferred.Some? {
        return inferred.value;
      }
    }
    return [Placeholder(zone)];
  }

  // ---------------------------------------------------------------- blocks in a larger page

  lemma IndexFree(page: Page, p: Token -> bool)
    ensures Index(page, p).None? <==> Free(page, p)
  {
    IndexConcat(page, [], p);
  }

  lemma {:induction false} IndexIs(page: Page, p: Token -> bool, k: nat)
    requires k < |page| && p(page[k]) && Free(page[..k], p)
    ensures Index(page, p) == Some(k)
  {
    if k > 0 {
      assert page[..k][0] == page[0];
      assert page[1..][..k - 1] == page[..k][1..];
      IndexIs(page[1..], p, k - 1);
    }
  }

  lemma BlockSkip(a: Page, b: Page, open: Token -> bool, close: Token -> bool)
    requires Free(a, open)
    ensures Block(a + b, open, close) == Block(b, open, close)
  {
    IndexConcat(a, b, open);
    var i := Index(b, open);
    if i.Some? {
      BlockFromShift(a, b, i.value, close);
    }
  }

  lemma BlockFromShift(a: Page, b: Page, i: nat, close: Token -> bool)
    requires i < |b|
    ensures BlockFrom(a + b, |a| + i, close) == BlockFrom(b, i, close)
  {
    assert (a + b)[|a| + i + 1..] == b[i + 1..];
    var j := Index(b[i + 1..], close);
    if j.Some? {
      assert (a + b)[|a| + i..|a| + i + j.value + 2] == b[i..i + j.value + 2];
    }
  }

  /** A block found is a block: it starts with its opening tag and ends with its only closing one. */
  predicate Bracketed(block: Page, open: Token -> bool, close: Token -> bool) {
    && |block| >= 2 && open(block[0]) && close(block[|block| - 1])
    && forall k :: 1 <= k < |block| - 1 ==> !close(block[k])
  }

  lemma {:induction false} IndexFirst(page: Page, p: Token -> bool)
    requires Index(page, p).Some?
    ensures Free(page[..Index(page, p).value], p)
  {
    var i := Index(page, p).value;
    if i > 0 {
      IndexFirst(page[1..], p);
      assert page[..i] == [page[0]] + page[1..][..i - 1];
    }
  }

  predicate IsSlice(page: Page, i: nat, j: nat, part: Page) {
    i <= j <= |page| && part == page[i..j]
  }

  lemma BlockIsBracketed(page: Page, open: Token -> bool, close: Token -> bool)
    requires Block(page, open, close).Some?
    ensures Bracketed(Block(page, open, close).value, open, close)
    ensures exists i: nat, j: nat :: IsSlice(page, i, j, Block(page, open, close).value)
  {
    var block := Block(page, open, close).value;
    var i := Index(page, open).value;
    var j := Index(page[i + 1..], close).value;
    var tail := page[i + 1..];
    IndexFirst(tail, close);
    assert IsSlice(page, i, i + j + 2, block);
    assert open(page[i]) && close(tail[j]);
    assert block[0] == page[i] && block[|block| - 1] == tail[j];
    forall k | 1 <= k < |block| - 1 ensures !close(block[k]) {
      assert block[k] == tail[..j][k - 1];
    }
  }

  lemma BlockHere(block: Page, rest: Page, open: Token -> bool, close: Token -> bool)
    requires Bracketed(block, open, close)
    ensures Block(block + rest, open, close) == Some(block)
  {
    var page := block + rest;
    var n := |block| - 2;
    assert page[0] == block[0];
    forall k | 0 <= k < n ensures !close(page[1..][..n][k]) {
      assert page[1..][..n][k] == block[k + 1];
    }
    assert page[1..][n] == block[n + 1];
    IndexIs(page[1..], close, n);
    assert page[0..n + 2] == block;
  }

  /** No block means no closing tag anywhere after an opening one. */
  lemma NoBlock(page: Page, open: Token -> bool, close: Token -> bool)
    ensures Block(page, open, close).None? <==>
            forall i, j :: 0 <= i < j < |page| ==> !(open(page[i]) && close(page[j]))
  {
    IndexFree(page, open);
    var i := Index(page, open);
    if i.Some? {
      IndexFirst(page, open);
      IndexFree(page[i.value + 1..], close);
      var j := Index(page[i.value + 1..], close);
      if j.Some? {
        assert open(page[i.value]) && close(page[i.value + 1 + j.value]);
      } else {
        forall k, l | 0 <= k < l < |page| ensures !(open(page[k]) && close(page[l])) {
          if k < i.value {
            assert page[..i.value][k] == page[k];
          } else {
            assert page[i.value + 1..][l - i.value - 1] == page[l];
          }
        }
      }
    }
  }

  lemma NoBlockInSlice(page: Page, i: nat, j: nat, open: Token -> bool, close: Token -> bool)
    requires i <= j <= |page| && Block(page, open, close).None?
    ensures Block(page[i..j], open, close).None?
  {
    NoBlock(page, open, close);
    NoBlock(page[i..j], open, close);
  }

  // ---------------------------------------------------------------- bodies survive being written out

  lemma MarkupSolid(page: Page, c: Component)
    requires Markup(page, c).Some?
    ensures Solid(Markup(page, c).value)
  {
    if Block(page, Opens(c), Closes(c)).Some? {
      BlockIsBracketed(page, Opens(c), Closes(c));
    }
  }

  lemma {:induction false} InferSolid(page: Page, names: seq<Component>)
    ensures Infer(page, names).Some? ==> Solid(Infer(page, names).value)
  {
    if names != [] {
      if Markup(page, names[0]).Some? {
        MarkupSolid(page, names[0]);
      } else {
        InferSolid(page, names[1..]);
      }
    }
  }

  lemma {:induction false} LastBodySolid(ms: seq<(Zone, Page)>, zone: Zone)
    ensures LastBody(ms, zone).Some? ==> Solid(LastBody(ms, zone).value)
  {
    if ms != [] {
      LastBodySolid(ms[1..], zone);
      TrimSolid(ms[0].1);
    }
  }

  lemma BodySolid(page: Page, zone: Zone)
    ensures Solid(BodyOf(page, zone))
  {
    LastBodySolid(Matches(page), zone);
    InferSolid(page, SectionsOf(zone));
  }

  lemma {:induction false} MatchesSkip(a: Page, b: Page)
    requires Free(a, IsZoneOpen())
    ensures Matches(a + b) == Matches(b)
    decreases |a|
  {
    if a == [] {
      assert a + b == b;
    } else {
      assert IsZoneOpen()(a[0]) == a[0].ZoneOpen?;
      assert (a + b)[1..] == a[1..] + b;
      MatchesSkip(a[1..], b);
    }
  }

  lemma MatchesBlock(zone: Zone, inner: Page, rest: Page)
    requires Free(inner, ClosesZone(zone))
    ensures Matches([ZoneOpen(zone, Canonical)] + inner + [ZoneClose(zone, Canonical)] + rest) ==
            [(zone, inner)] + Matches(rest)
  {
    var page := [ZoneOpen(zone, Canonical)] + inner + [ZoneClose(zone, Canonical)] + rest;
    var n := |inner|;
    assert page[1..][..n] == inner && ClosesZone(zone)(page[1..][n]);
    IndexIs(page[1..], ClosesZone(zone), n);
    assert page[1..n + 1] == inner && page[n + 2..] == rest;
  }

  function Pairs(page: Page, zones: seq<Zone>): seq<(Zone, Page)> {
    if zones == [] then [] else [(zones[0], Inner(BodyOf(page, zones[0])))] + Pairs(page, zones[1..])
  }

  predicate SelfContained(page: Page, zones: seq<Zone>) {
    forall k :: 0 <= k < |zones| ==> Free(BodyOf(page, zones[k]), ClosesZone(zones[k]))
  }

  lemma MatchesZoneLines(zone: Zone, body: Page, later: Page)
    requires Free(body, ClosesZone(zone))
    ensures Matches(ZoneLines(zone, body) + later) == [(zone, Inner(body))] + Matches(later)
  {
    var block := [ZoneOpen(zone, Canonical)] + Inner(body) + [ZoneClose(zone, Canonical)];
    var after := [Chars("\n")] + later;
    assert ZoneLines(zone, body) + later == [Chars("    ")] + (block + after);
    InnerFree(body, ClosesZone(zone));
    MatchesSkip([Chars("    ")], block + after);
    MatchesBlock(zone, Inner(body), after);
    MatchesSkip([Chars("\n")], later);
  }

  lemma {:induction false} MatchesBlocks(page: Page, zones: seq<Zone>, rest: Page)
    requires SelfContained(page, zones)
    ensures Matches(Blocks(page, zones) + rest) == Pairs(page, zones) + Matches(rest)
    decreases |zones|
  {
    if zones == [] {
      assert Blocks(page, zones) + rest == rest;
    } else {
      MatchesBlocks(page, zones[1..], rest);
      assert Free(BodyOf(page, zones[0]), ClosesZone(zones[0]));
      MatchesFirst(zones[0], BodyOf(page, zones[0]), Blocks(page, zones[1..]), Pairs(page, zones[1..]), rest);
    }
  }

  lemma MatchesFirst(zone: Zone, body: Page, more: Page, pairs: seq<(Zone, Page)>, rest: Page)
    requires Free(body, ClosesZone(zone)) && Matches(more + rest) == pairs + Matches(rest)
    ensures Matches((ZoneLines(zone, body) + more) + rest) == ([(zone, Inner(body))] + pairs) + Matches(rest)
  {
    AppendLines(ZoneLines(zone, body), more, rest);
    MatchesZoneLines(zone, body, more + rest);
    assert [(zone, Inner(body))] + (pairs + Matches(rest)) == ([(zone, Inner(body))] + pairs) + Matches(rest);
  }

  lemma InnerFree(body: Page, p: Token -> bool)
    requires Free(body, p) && forall s :: !p(Chars(s))
    ensures Free(Inner(body), p)
  {
  }

  predicate DistinctZones(zones: seq<Zone>) {
    forall i, j :: 0 <= i < j < |zones| ==> zones[i] != zones[j]
  }

  lemma {:induction false} LastOfPairs(page: Page, zones: seq<Zone>, zone: Zone)
    requires DistinctZones(zones)
    ensures LastBody(Pairs(page, zones), zone) == if zone in zones then Some(BodyOf(page, zone)) else None
  {
    if zones != [] {
      assert forall i, j :: 0 <= i < j < |zones[1..]| ==>
               zones[1..][i] == zones[i + 1] && zones[1..][j] == zones[j + 1];
      LastOfPairs(page, zones[1..], zone);
      BodySolid(page, zones[0]);
      PaddingIsBlank();
      TrimPadded("\n      ", BodyOf(page, zones[0]), "\n    ");
    }
  }

  lemma PaddingIsBlank()
    ensures Blank("\n      ") && Blank("\n    ")
  {
  }

  // ---------------------------------------------------------------- what the output holds

  /** Every body that is written out closes no zone of its own kind and opens no script or style. */
  predicate PlainBodies(page: Page) {
    forall z :: var body := BodyOf(page, z);
      Free(body, ClosesZone(z)) && Free(body, IsScriptOpen()) && Free(body, IsStyleOpen())
  }

  predicate PlainBlock(block: Option<Page>) {
    block.Some? ==> Free(block.value, IsZoneOpen())
  }

  lemma ConcatFree(a: Page, b: Page, p: Token -> bool)
    ensures Free(a + b, p) <==> Free(a, p) && Free(b, p)
  {
    if Free(a + b, p) {
      forall k | 0 <= k < |a| ensures !p(a[k]) {
        assert (a + b)[k] == a[k];
      }
      forall k | 0 <= k < |b| ensures !p(b[k]) {
        assert (a + b)[|a| + k] == b[k];
      }
    }
  }

  /** Tokens that the writing itself adds. */
  ghost predicate Ours(p: Token -> bool) {
    (forall s :: !p(Chars(s))) && forall z :: !p(ZoneOpen(z, Canonical)) && !p(ZoneClose(z, Canonical))
  }

  lemma ZoneLinesFree(zone: Zone, body: Page, p: Token -> bool)
    requires Ours(p) && Free(body, p)
    ensures Free(ZoneLines(zone, body), p)
  {
    InnerFree(body, p);
  }

  lemma {:induction false} BlocksFree(page: Page, zones: seq<Zone>, p: Token -> bool)
    requires Ours(p) && forall z :: Free(BodyOf(page, z), p)
    ensures Free(Blocks(page, zones), p)
  {
    if zones != [] {
      BlocksFree(page, zones[1..], p);
      assert Free(BodyOf(page, zones[0]), p);
      ZoneLinesFree(zones[0], BodyOf(page, zones[0]), p);
      ConcatFree(ZoneLines(zones[0], BodyOf(page, zones[0])), Blocks(page, zones[1..]), p);
    }
  }

  lemma TemplateFree(page: Page, p: Token -> bool)
    requires Ours(p) && (HasShell(page) ==> !p(Shell(Canonical))) && forall z :: Free(BodyOf(page, z), p)
    ensures Free(Template(page), p)
  {
    BlocksFree(page, ZONES, p);
    ConcatFree(Head(HasShell(page)), Blocks(page, ZONES), p);
    ConcatFree(Head(HasShell(page)) + Blocks(page, ZONES), Foot(HasShell(page)), p);
  }

  lemma MatchesBetween(page: Page, head: Page, zones: seq<Zone>, rest: Page)
    requires Free(head, IsZoneOpen()) && SelfContained(page, zones) && Free(rest, IsZoneOpen())
    ensures Matches(head + (Blocks(page, zones) + rest)) == Pairs(page, zones)
  {
    MatchesSkip(head, Blocks(page, zones) + rest);
    MatchesBlocks(page, zones, rest);
    MatchesSkip(rest, []);
    assert rest + [] == rest;
  }

  lemma RegroupOutput(head: Page, blocks: Page, foot: Page, end: Page)
    ensures head + blocks + foot + end == head + (blocks + (foot + end))
  {
  }

  lemma AttachedFree(block: Option<Page>, p: Token -> bool)
    requires (block.Some? ==> Free(block.value, p)) && forall s :: !p(Chars(s))
    ensures Free(Attached(block), p)
  {
  }

  lemma EndFree(page: Page, p: Token -> bool)
    requires Script(page).Some? ==> Free(Script(page).value, p)
    requires Style(page).Some? ==> Free(Style(page).value, p)
    requires forall s :: !p(Chars(s))
    ensures Free(Attached(Script(page)) + Attached(Style(page)), p)
  {
    AttachedFree(Script(page), p);
    AttachedFree(Style(page), p);
    ConcatFree(Attached(Script(page)), Attached(Style(page)), p);
  }

  lemma OutputMatches(page: Page)
    requires PlainBodies(page) && PlainBlock(Script(page)) && PlainBlock(Style(page))
    ensures Matches(Output(page)) == Pairs(page, ZONES)
  {
    var head, foot := Head(HasShell(page)), Foot(HasShell(page));
    var end := Attached(Script(page)) + Attached(Style(page));
    assert Free(foot + end, IsZoneOpen()) by {
      EndFree(page, IsZoneOpen());
      ConcatFree(foot, end, IsZoneOpen());
    }
    RegroupOutput(head, Blocks(page, ZONES), foot, end);
    MatchesBetween(page, head, ZONES, foot + end);
  }

  /** The zones of the output have the bodies that were chosen for them. */
  lemma OutputBodies(page: Page, zone: Zone)
    requires PlainBodies(page) && PlainBlock(Script(page)) && PlainBlock(Style(page))
    ensures Existing(Output(page), zone) == Some(BodyOf(page, zone))
    ensures BodyOf(Output(page), zone) == BodyOf(page, zone)
  {
    assert Matches(Output(page)) == Pairs(page, ZONES) by {
      OutputMatches(page);
    }
    assert zone in ZONES && DistinctZones(ZONES) by {
      AllZones(zone);
    }
    LastOfPairs(page, ZONES, zone);
  }

  lemma AllZones(zone: Zone)
    ensures zone in ZONES && DistinctZones(ZONES)
  {
    match zone
    case Hero => assert ZONES[0] == zone;
    case Feature => assert ZONES[1] == zone;
    case Testimonials => assert ZONES[2] == zone;
    case Cta => assert ZONES[3] == zone;
  }

  lemma {:induction false} BlocksSame(a: Page, b: Page, zones: seq<Zone>)
    requires forall z :: BodyOf(a, z) == BodyOf(b, z)
    ensures Blocks(a, zones) == Blocks(b, zones)
  {
    if zones != [] {
      BlocksSame(a, b, zones[1..]);
    }
  }

  // The shell.

  lemma SliceFree(page: Page, i: nat, j: nat, p: Token -> bool)
    requires i <= j <= |page| && Free(page, p)
    ensures Free(page[i..j], p)
  {
  }

  lemma {:induction false} TrimRightFree(page: Page, p: Token -> bool)
    requires Free(page, p) && forall s :: !p(Chars(s))
    ensures Free(TrimRight(page), p)
  {
    if page != [] && page[|page| - 1].Chars? && RightStrip(page[|page| - 1].text) == "" {
      TrimRightFree(page[..|page| - 1], p);
    }
  }

  lemma {:induction false} TrimFree(page: Page, p: Token -> bool)
    requires Free(page, p) && forall s :: !p(Chars(s))
    ensures Free(Trim(page), p)
    decreases |page|
  {
    if page != [] && page[0].Chars? && LeftStrip(page[0].text) == "" {
      TrimFree(page[1..], p);
    } else {
      TrimRightFree(TrimLeft(page), p);
    }
  }

  lemma {:induction false} MatchesFree(page: Page, p: Token -> bool, zone: Zone)
    requires Free(page, p) && forall s :: !p(Chars(s))
    ensures LastBody(Matches(page), zone).Some? ==> Free(LastBody(Matches(page), zone).value, p)
    decreases |page|
  {
    if page != [] {
      var end := if page[0].ZoneOpen? then Index(page[1..], ClosesZone(page[0].zone)) else None;
      if end.None? {
        SliceFree(page, 1, |page|, p);
        MatchesFree(page[1..], p, zone);
      } else {
        SliceFree(page, 1, end.value + 1, p);
        TrimFree(page[1..end.value + 1], p);
        SliceFree(page, end.value + 2, |page|, p);
        MatchesFree(page[end.value + 2..], p, zone);
        assert Matches(page)[1..] == Matches(page[end.value + 2..]);
      }
    }
  }

  lemma BlockFree(page: Page, open: Token -> bool, close: Token -> bool, p: Token -> bool)
    requires Free(page, p)
    ensures Block(page, open, close).Some? ==> Free(Block(page, open, close).value, p)
  {
    if Block(page, open, close).Some? {
      BlockIsBracketed(page, open, close);
      var i: nat, j: nat :| IsSlice(page, i, j, Block(page, open, close).value);
      SliceFree(page, i, j, p);
    }
  }

  lemma {:induction false} InferFree(page: Page, names: seq<Component>, p: Token -> bool)
    requires Free(page, p)
    ensures Infer(page, names).Some? ==> Free(Infer(page, names).value, p)
  {
    if names != [] {
      BlockFree(page, Opens(names[0]), Closes(names[0]), p);
      InferFree(page, names[1..], p);
    }
  }

  lemma BodyFree(page: Page, zone: Zone)
    requires !HasShell(page)
    ensures Free(BodyOf(page, zone), IsShell())
  {
    IndexFree(page, IsShell());
    MatchesFree(page, IsShell(), zone);
    InferFree(page, SectionsOf(zone), IsShell());
  }

  lemma OutputShell(page: Page)
    ensures HasShell(Output(page)) <==> HasShell(page)
  {
    IndexFree(Output(page), IsShell());
    if HasShell(page) {
      var end := Attached(Script(page)) + Attached(Style(page));
      RegroupOutput(Head(true), Blocks(page, ZONES), Foot(true), end);
      assert Output(page)[1] == Head(true)[1] && IsShell()(Head(true)[1]);
    } else {
      NoShellAdded(page);
    }
  }

  lemma NoShellAdded(page: Page)
    requires !HasShell(page)
    ensures Free(Output(page), IsShell())
  {
    IndexFree(page, IsShell());
    forall z ensures Free(BodyOf(page, z), IsShell()) {
      BodyFree(page, z);
    }
    TemplateFree(page, IsShell());
    BlockFree(page, IsScriptOpen(), IsScriptClose(), IsShell());
    BlockFree(page, IsStyleOpen(), IsStyleClose(), IsShell());
    EndFree(page, IsShell());
    ConcatFree(Template(page), Attached(Script(page)) + Attached(Style(page)), IsShell());
  }

  // Script and style.

  lemma AttachedFirst(block: Page, rest: Page, open: Token -> bool, close: Token -> bool)
    requires Bracketed(block, open, close) && forall s :: !open(Chars(s))
    ensures Block(Attached(Some(block)) + rest, open, close) == Some(block)
  {
    var after := [Chars("\n")] + rest;
    assert Attached(Some(block)) + rest == [Chars("\n")] + (block + after);
    BlockSkip([Chars("\n")], block + after, open, close);
    BlockHere(block, after, open, close);
  }

  /** A part of a page without blocks has none either, also when it is attached. */
  lemma AttachedNone(page: Page, block: Option<Page>, open: Token -> bool, close: Token -> bool)
    requires Block(page, open, close).None? && forall s :: !open(Chars(s)) && !close(Chars(s))
    requires block.Some? ==> exists i: nat, j: nat :: IsSlice(page, i, j, block.value)
    ensures Block(Attached(block), open, close).None?
  {
    if block.Some? {
      var i: nat, j: nat :| IsSlice(page, i, j, block.value);
      NoBlockInSlice(page, i, j, open, close);
      NoBlock(block.value, open, close);
      NoBlock(Attached(block), open, close);
    }
  }

  lemma OutputScript(page: Page)
    requires PlainBodies(page)
    ensures Script(Output(page)) == Script(page)
  {
    TemplateFree(page, IsScriptOpen());
    var script, style := Script(page), Style(page);
    BlockSkip(Template(page), Attached(script) + Attached(style), IsScriptOpen(), IsScriptClose());
    if script.Some? {
      BlockIsBracketed(page, IsScriptOpen(), IsScriptClose());
      AttachedFirst(script.value, Attached(style), IsScriptOpen(), IsScriptClose());
    } else {
      if style.Some? {
        BlockIsBracketed(page, IsStyleOpen(), IsStyleClose());
      }
      AttachedNone(page, style, IsScriptOpen(), IsScriptClose());
      assert Attached(script) + Attached(style) == Attached(style);
    }
  }

  /** The style block is found again: no style tag opens inside the script, or the first style block was
      the one inside the script to begin with. */
  predicate StyleFoundAgain(page: Page) {
    || Script(page).None? || Style(page).None?
    || Free(Script(page).value, IsStyleOpen()) || Style(Script(page).value) == Style(page)
  }

  lemma OutputStyle(page: Page)
    requires PlainBodies(page)
    ensures Style(Output(page)) == Style(page) <==> StyleFoundAgain(page)
  {
    TemplateFree(page, IsStyleOpen());
    BlockSkip(Template(page), Attached(Script(page)) + Attached(Style(page)), IsStyleOpen(), IsStyleClose());
    StyleAfterScript(page);
  }

  lemma StyleAfterScript(page: Page)
    ensures Style(Attached(Script(page)) + Attached(Style(page))) == Style(page) <==> StyleFoundAgain(page)
  {
    var script, style := Script(page), Style(page);
    if script.Some? {
      BlockIsBracketed(page, IsScriptOpen(), IsScriptClose());
    }
    if style.None? {
      AttachedNone(page, script, IsStyleOpen(), IsStyleClose());
      assert Attached(script) + Attached(style) == Attached(script);
    } else {
      assert Bracketed(style.value, IsStyleOpen(), IsStyleClose()) by {
        BlockIsBracketed(page, IsStyleOpen(), IsStyleClose());
      }
      if script.None? || Free(script.value, IsStyleOpen()) {
        StyleOnItsOwn(script, style.value);
      } else {
        StyleInScript(script.value, style.value);
      }
    }
  }

  lemma StyleOnItsOwn(script: Option<Page>, style: Page)
    requires script.Some? ==> Free(script.value, IsStyleOpen())
    requires Bracketed(style, IsStyleOpen(), IsStyleClose())
    ensures Style(Attached(script) + Attached(Some(style))) == Some(style)
  {
    AttachedFree(script, IsStyleOpen());
    BlockSkip(Attached(script), Attached(Some(style)), IsStyleOpen(), IsStyleClose());
    AttachedFirst(style, [], IsStyleOpen(), IsStyleClose());
    assert Attached(Some(style)) + [] == Attached(Some(style));
  }

  /** A style tag opens inside the script: the block it starts is what is found. */
  lemma StyleInScript(script: Page, style: Page)
    requires !Free(script, IsStyleOpen()) && Bracketed(style, IsStyleOpen(), IsStyleClose())
    ensures Style(Attached(Some(script)) + Attached(Some(style))) == Some(style) <==> Style(script) == Some(style)
  {
    var nl := [Chars("\n")];
    var rest := nl + Attached(Some(style));
    assert Attached(Some(script)) + Attached(Some(style)) == nl + (script + rest);
    BlockSkip(nl, script + rest, IsStyleOpen(), IsStyleClose());
    IndexFree(script, IsStyleOpen());
    if Style(script).Some? {
      BlockPrefix(script, rest, IsStyleOpen(), IsStyleClose());
    } else {
      StyleEndsLate(style);
      BlockRunsOn(script, rest, IsStyleOpen(), IsStyleClose());
    }
  }

  lemma BlockPrefix(a: Page, b: Page, open: Token -> bool, close: Token -> bool)
    requires Block(a, open, close).Some?
    ensures Block(a + b, open, close) == Block(a, open, close)
  {
    var i := Index(a, open).value;
    IndexConcat(a, b, open);
    assert (a + b)[i + 1..] == a[i + 1..] + b;
    IndexConcat(a[i + 1..], b, close);
    var j := Index(a[i + 1..], close).value;
    assert (a + b)[i..i + j + 2] == a[i..i + j + 2];
  }

  /** A block that opens in `a` and does not end there runs on to the first closing tag of `b`. */
  lemma BlockRunsOn(a: Page, b: Page, open: Token -> bool, close: Token -> bool)
    requires Index(a, open).Some? && Block(a, open, close).None? && Index(b, close).Some?
    ensures Block(a + b, open, close).Some? && |Block(a + b, open, close).value| >= Index(b, close).value + 2
  {
    var i := Index(a, open).value;
    IndexConcat(a, b, open);
    assert (a + b)[i + 1..] == a[i + 1..] + b;
    IndexConcat(a[i + 1..], b, close);
  }

  lemma StyleEndsLate(style: Page)
    requires Bracketed(style, IsStyleOpen(), IsStyleClose())
    ensures Index([Chars("\n")] + Attached(Some(style)), IsStyleClose()) == Some(|style| + 1)
  {
    var page := [Chars("\n")] + Attached(Some(style));
    var n := |style| + 1;
    assert page[n] == style[|style| - 1];
    forall k | 0 <= k < n ensures !IsStyleClose()(page[..n][k]) {
      if k == 2 {
        assert page[k] == style[0];
      } else if k > 2 {
        assert page[k] == style[k - 2];
      }
    }
    IndexIs(page, IsStyleClose(), n);
  }

  // ---------------------------------------------------------------- the theorems

  lemma {:induction false} TrimRightKeepsTags(page: Page)
    requires exists k :: 0 <= k < |page| && !page[k].Chars?
    ensures TrimRight(page) != []
  {
    if page[|page| - 1].Chars? && RightStrip(page[|page| - 1].text) == "" {
      var k :| 0 <= k < |page| && !page[k].Chars?;
      assert !page[..|page| - 1][k].Chars?;
      TrimRightKeepsTags(page[..|page| - 1]);
    }
  }

  lemma {:induction false} TrimKeepsTags(page: Page)
    requires exists k :: 0 <= k < |page| && !page[k].Chars?
    ensures Trim(page) != []
    decreases |page|
  {
    var k :| 0 <= k < |page| && !page[k].Chars?;
    if page[0].Chars? && LeftStrip(page[0].text) == "" {
      assert !page[1..][k - 1].Chars?;
      TrimKeepsTags(page[1..]);
    } else {
      assert !TrimLeft(page)[k].Chars?;
      TrimRightKeepsTags(TrimLeft(page));
    }
  }

  lemma {:induction false} BlocksHaveZones(page: Page, zones: seq<Zone>, zone: Zone)
    requires zone in zones
    ensures ZoneOpen(zone, Canonical) in Blocks(page, zones)
  {
    if zones[0] == zone {
      assert ZoneLines(zone, BodyOf(page, zone))[1] == ZoneOpen(zone, Canonical);
    } else {
      BlocksHaveZones(page, zones[1..], zone);
    }
  }

  lemma OutputHasZones(page: Page, zone: Zone)
    ensures ZoneOpen(zone, Canonical) in Output(page)
    ensures HasZone(Output(page), zone)
  {
    AllZones(zone);
    BlocksHaveZones(page, ZONES, zone);
    var t := ZoneOpen(zone, Canonical);
    assert t in Template(page);
    assert t in Output(page);
    IndexFree(Output(page), Spelled(zone));
    assert Spelled(zone)(t);
  }

  lemma {:induction false} NoneMissing(page: Page, zones: seq<Zone>)
    requires forall z :: HasZone(page, z)
    ensures MissingZones(page, zones) == []
  {
    if zones != [] {
      NoneMissing(page, zones[1..]);
    }
  }

  /** Whatever the page, when normalising reports ok the validator finds nothing to complain about. */
  lemma NormalizedIsValid(page: Page, stability: bool)
    requires Normalize(page, stability).ok
    ensures Violations(Normalize(page, stability).page, stability) == []
  {
    forall z ensures HasZone(Output(page), z) {
      OutputHasZones(page, z);
    }
    NoneMissing(Output(page), ZONES);
    OutputShell(page);
  }

  // ---------------------------------------------------------------- which component fills which zone

  /** The zone a named section belongs to. */
  function LandsIn(c: Component): Option<Zone> {
    match c
    case HeroSection => Some(Hero)
    case TestimonialsSection => Some(Testimonials)
    case CTASection => Some(Cta)
    case LeadCaptureSection => Some(Cta)
    case FeatureSection => Some(Feature)
    case FeaturesSection => Some(Feature)
    case ProblemSolutionSection => Some(Feature)
    case CapabilitiesGridSection => Some(Feature)
    case HowItWorksSection => Some(Feature)
    case ROICalculatorSection => Some(Feature)
    case ProofSection => Some(Feature)
    case PricingSection => Some(Feature)
    case _ => None
  }

  /** Of the sections of one zone the one with the lower number is preferred. */
  function Preference(c: Component): nat {
    match c
    case LeadCaptureSection => 1
    case FeaturesSection => 1
    case ProblemSolutionSection => 2
    case CapabilitiesGridSection => 3
    case HowItWorksSection => 4
    case ROICalculatorSection => 5
    case ProofSection => 6
    case PricingSection => 7
    case _ => 0
  }

  /** The page uses this section, and none that is preferred to it. */
  ghost predicate Fills(page: Page, zone: Zone, c: Component, markup: Page) {
    && LandsIn(c) == Some(zone) && Markup(page, c) == Some(markup)
    && forall d :: LandsIn(d) == Some(zone) && Preference(d) < Preference(c) ==> Markup(page, d) == None
  }

  lemma {:induction false} InferIsFirst(page: Page, names: seq<Component>)
    ensures Infer(page, names) == None <==> forall k :: 0 <= k < |names| ==> Markup(page, names[k]) == None
    ensures Infer(page, names).Some? ==>
              exists k :: 0 <= k < |names| && Markup(page, names[k]) == Infer(page, names) &&
                          forall j :: 0 <= j < k ==> Markup(page, names[j]) == None
  {
    if names != [] && Markup(page, names[0]) == None {
      InferIsFirst(page, names[1..]);
      if k :| 0 <= k < |names| - 1 && Markup(page, names[1..][k]) == Infer(page, names) &&
              forall j :: 0 <= j < k ==> Markup(page, names[1..][j]) == None {
        assert Markup(page, names[k + 1]) == Infer(page, names);
        assert forall j :: 1 <= j < k + 1 ==> names[j] == names[1..][j - 1];
      }
    }
  }

  lemma SectionsAre(zone: Zone)
    ensures forall c :: LandsIn(c) == Some(zone) <==> c in SectionsOf(zone)
    ensures forall k :: 0 <= k < |SectionsOf(zone)| ==> Preference(SectionsOf(zone)[k]) == k
  {
    forall c ensures LandsIn(c) == Some(zone) <==> c in SectionsOf(zone) {
      if LandsIn(c) == Some(zone) {
        assert SectionsOf(zone)[Preference(c)] == c;
      }
    }
  }

  /** A zone without a body gets the preferred section of its own that the page uses, or its placeholder. */
  lemma BodyIsSection(page: Page, zone: Zone)
    requires Existing(page, zone) == None
    ensures || (exists c :: Fills(page, zone, c, BodyOf(page, zone)))
            || ((forall c :: LandsIn(c) == Some(zone) ==> Markup(page, c) == None) &&
                BodyOf(page, zone) == [CompOpen(match zone
                                                case Hero => HeroPlaceholder
                                                case Feature => FeaturePlaceholder
                                                case Testimonials => TestimonialsPlaceholder
                                                case Cta => CTAPlaceholder, true, Canonical)])
  {
    var names := SectionsOf(zone);
    SectionsAre(zone);
    InferIsFirst(page, names);
    if Infer(page, names).Some? {
      var k :| 0 <= k < |names| && Markup(page, names[k]) == Infer(page, names) &&
               forall j :: 0 <= j < k ==> Markup(page, names[j]) == None;
      assert names[k] in names;
      forall d | LandsIn(d) == Some(zone) && Preference(d) < Preference(names[k]) ensures Markup(page, d) == None {
        assert d in names;
        var j :| 0 <= j < |names| && names[j] == d;
      }
      assert Fills(page, zone, names[k], BodyOf(page, zone));
    } else {
      forall c | LandsIn(c) == Some(zone) ensures Markup(page, c) == None {
        assert c in names;
      }
    }
  }

  /** Match `k` is the last of the zone that is not blank, and trims to `body`. */
  predicate LastAt(ms: seq<(Zone, Page)>, zone: Zone, k: int, body: Page)
    requires 0 <= k < |ms|
  {
    && ms[k].0 == zone && Trim(ms[k].1) == body && body != []
    && forall j :: k < j < |ms| ==> ms[j].0 != zone || Trim(ms[j].1) == []
  }

  ghost predicate IsLastBody(ms: seq<(Zone, Page)>, zone: Zone, body: Option<Page>) {
    match body
    case None => forall k :: 0 <= k < |ms| ==> ms[k].0 != zone || Trim(ms[k].1) == []
    case Some(b) => exists k :: 0 <= k < |ms| && LastAt(ms, zone, k, b)
  }

  /** The body of a zone is its last one on the page that is not blank, trimmed. */
  lemma ExistingIs(page: Page, zone: Zone)
    ensures IsLastBody(Matches(page), zone, Existing(page, zone))
  {
    LastBodyIs(Matches(page), zone);
  }

  lemma {:induction false} LastBodyIs(ms: seq<(Zone, Page)>, zone: Zone)
    ensures IsLastBody(ms, zone, LastBody(ms, zone))
  {
    if ms != [] {
      LastBodyIs(ms[1..], zone);
      assert forall k :: 1 <= k < |ms| ==> ms[k] == ms[1..][k - 1];
      var later := LastBody(ms[1..], zone);
      if later.Some? {
        var k :| 0 <= k < |ms[1..]| && LastAt(ms[1..], zone, k, later.value);
        assert LastAt(ms, zone, k + 1, later.value);
      } else if ms[0].0 == zone && Trim(ms[0].1) != [] {
        assert LastAt(ms, zone, 0, Trim(ms[0].1));
      }
    }
  }

  /** What a block is: from the first opening token to the first closing token after it. */
  lemma BlockIff(page: Page, open: Token -> bool, close: Token -> bool, block: Page)
    ensures Block(page, open, close) == Some(block) <==>
            exists i, j :: 0 <= i < j < |page| && Spans(page, open, close, i, j) && block == page[i..j + 1]
  {
    IndexIsFirst(page, open);
    var i := Index(page, open);
    if i.Some? {
      IndexIsFirst(page[i.value + 1..], close);
      var j := Index(page[i.value + 1..], close);
      if j.Some? {
        assert Spans(page, open, close, i.value, i.value + 1 + j.value);
      }
    }
  }

  predicate Spans(page: Page, open: Token -> bool, close: Token -> bool, i: int, j: int)
    requires 0 <= i < j < |page|
  {
    && open(page[i]) && (forall k :: 0 <= k < i ==> !open(page[k]))
    && close(page[j]) && (forall k :: i < k < j ==> !close(page[k]))
  }

  lemma {:induction false} IndexIsFirst(page: Page, p: Token -> bool)
    ensures var r := Index(page, p);
      && (r.None? ==> forall k :: 0 <= k < |page| ==> !p(page[k]))
      && (r.Some? ==> p(page[r.value]) && forall k :: 0 <= k < r.value ==> !p(page[k]))
  {
    if page != [] && !p(page[0]) {
      IndexIsFirst(page[1..], p);
      assert forall k :: 1 <= k < |page| ==> page[k] == page[1..][k - 1];
    }
  }

  /** The markup of a component: the pair of its tags if one is closed, else its first self-closing tag. */
  lemma MarkupIs(page: Page, c: Component)
    ensures var paired := Block(page, (t: Token) => t.CompOpen? && t.component == c,
                                (t: Token) => t.CompClose? && t.component == c);
      && (paired.Some? ==> Markup(page, c) == paired)
      && (paired.None? ==>
            match Markup(page, c)
            case None => forall k :: 0 <= k < |page| ==> !SelfClosing(page[k], c)
            case Some(m) => exists i :: 0 <= i < |page| && m == [page[i]] && SelfClosing(page[i], c) &&
                                        forall k :: 0 <= k < i ==> !SelfClosing(page[k], c))
  {
    IndexIsFirst(page, SelfCloses(c));
    assert Opens(c) == ((t: Token) => t.CompOpen? && t.component == c);
    assert Closes(c) == ((t: Token) => t.CompClose? && t.component == c);
  }

  predicate SelfClosing(t: Token, c: Component) {
    t.CompOpen? && t.component == c && t.selfClosing
  }

  /** Which pages are refused, and what the caller is told; a refused page is left alone. */
  lemma OutcomeIs(page: Page, stability: bool)
    ensures var out := Normalize(page, stability);
      && (out.ok <==> Trim(page) != [] && (stability || exists k :: 0 <= k < |page| && page[k].Shell?))
      && (!out.ok ==> out.page == page)
      && (EmptyContent in out.notes <==> Trim(page) == [])
      && (ShellMissing in out.notes <==> Trim(page) != [] && !out.ok)
      && (ShellMissingInStability in out.notes <==> out.ok && !HasShell(page))
  {
    IndexIsFirst(page, IsShell());
  }

  /** A tag of the zone, with its exact name. */
  predicate Tags(t: Token, zone: Zone) {
    t.ZoneOpen? && t.zone == zone && (t.spelling == Canonical || t.spelling.exact)
  }

  /** What the validator complains of: a missing shell, unless in stability mode, and every zone without a tag of its
      exact name. */
  lemma ViolationsAre(page: Page, stability: bool)
    ensures MissingShell in Violations(page, stability) <==>
            !stability && forall k :: 0 <= k < |page| ==> !page[k].Shell?
    ensures forall zone ::
              MissingZone(zone) in Violations(page, stability) <==> forall k :: 0 <= k < |page| ==> !Tags(page[k], zone)
  {
    IndexIsFirst(page, IsShell());
    MissingAre(page, ZONES);
    forall zone
      ensures MissingZone(zone) in Violations(page, stability) <==>
              forall k :: 0 <= k < |page| ==> !Tags(page[k], zone)
    {
      IndexIsFirst(page, Spelled(zone));
      AllZones(zone);
      assert MissingZone(zone) in Violations(page, stability) <==> MissingZone(zone) in MissingZones(page, ZONES);
    }
  }

  lemma {:induction false} MissingAre(page: Page, zones: seq<Zone>)
    ensures MissingShell !in MissingZones(page, zones)
    ensures forall zone :: MissingZone(zone) in MissingZones(page, zones) <==> zone in zones && !HasZone(page, zone)
  {
    if zones != [] {
      MissingAre(page, zones[1..]);
      assert zones == [zones[0]] + zones[1..];
    }
  }

  /** What is written around the zones opens and closes alike. */
  lemma Wrapped(page: Page)
    ensures var t := Template(page);
      if HasShell(page) then
        && |t| > 2 && t[0] == Chars("<template>\n  ") && t[1] == Shell(Canonical)
        && t[|t| - 1] == Chars("  </PageShell>\n</template>\n")
      else
        && |t| > 1 && t[0] == Chars("<template>\n  <main class=\"landing-page\">\n")
        && t[|t| - 1] == Chars("  </main>\n</template>\n")
  {
    Between(Head(HasShell(page)), Blocks(page, ZONES), Foot(HasShell(page)));
  }

  lemma Between(head: Page, blocks: Page, foot: Page)
    requires head != [] && foot != []
    ensures var t := head + blocks + foot;
      && |t| >= |head| + |foot| && t[|t| - 1] == foot[|foot| - 1]
      && forall k :: 0 <= k < |head| ==> t[k] == head[k]
  {
  }

  /** Every zone body that was there is still there, and is the body of its zone. */
  lemma BodiesPreserved(page: Page, stability: bool, zone: Zone)
    requires Normalize(page, stability).ok && Existing(page, zone).Some?
    requires PlainBodies(page) && PlainBlock(Script(page)) && PlainBlock(Style(page))
    ensures Existing(Normalize(page, stability).page, zone) == Existing(page, zone)
  {
    OutputBodies(page, zone);
  }

  /** Normalising twice is normalising once exactly when the style block is found again. */
  lemma NormalizeIdempotentIff(page: Page, stability: bool)
    requires Normalize(page, stability).ok
    requires PlainBodies(page) && PlainBlock(Script(page)) && PlainBlock(Style(page))
    ensures var out := Normalize(page, stability);
      Normalize(out.page, stability) == out <==> StyleFoundAgain(page)
  {
    var out := Output(page);
    OutputShell(page);
    OutputHasZones(page, Hero);
    TrimKeepsTags(out);
    forall z ensures BodyOf(out, z) == BodyOf(page, z) {
      OutputBodies(page, z);
    }
    BlocksSame(out, page, ZONES);
    OutputScript(page);
    OutputStyle(page);
    AttachedDiffers(Template(page), Script(page), Style(page), Style(out));
  }

  /** A style tag that opens in the script and closes after it is found again with more text. */
  lemma StyleAcrossScriptGrows() returns (page: Page)
    ensures PlainBodies(page) && PlainBlock(Script(page)) && PlainBlock(Style(page))
    ensures Normalize(page, false).ok
    ensures Normalize(Normalize(page, false).page, false) != Normalize(page, false)
  {
    page := [Shell(Canonical)] + ACROSS + [StyleClose(Canonical)];
    AcrossIsPlain(page);
    AcrossIsOk(page);
    AcrossIsLost(page);
    NormalizeIdempotentIff(page, false);
  }

  const ACROSS: Page := [ScriptOpen(Canonical), StyleOpen(Canonical), ScriptClose(Canonical)]

  lemma AcrossIsPlain(page: Page)
    requires page == [Shell(Canonical)] + ACROSS + [StyleClose(Canonical)]
    ensures PlainBodies(page) && PlainBlock(Script(page)) && PlainBlock(Style(page))
  {
    AcrossBlocks(page, ACROSS);
    AcrossBodies(page);
  }

  lemma AcrossIsOk(page: Page)
    requires page == [Shell(Canonical)] + ACROSS + [StyleClose(Canonical)]
    ensures Normalize(page, false).ok
  {
    IndexIs(page, IsShell(), 0);
    assert !page[0].Chars?;
    TrimKeepsTags(page);
  }

  lemma AcrossIsLost(page: Page)
    requires page == [Shell(Canonical)] + ACROSS + [StyleClose(Canonical)]
    ensures !StyleFoundAgain(page)
  {
    AcrossBlocks(page, ACROSS);
    assert IsStyleOpen()(ACROSS[1]);
    assert !Free(ACROSS, IsStyleOpen());
  }

  lemma AcrossBodies(page: Page)
    requires Free(page, IsZoneOpen()) && forall k :: 0 <= k < |page| ==> !page[k].CompOpen?
    ensures PlainBodies(page)
  {
    MatchesSkip(page, []);
    assert page + [] == page;
    forall z ensures BodyOf(page, z) == [Placeholder(z)] {
      NothingToInfer(page, SectionsOf(z));
    }
  }

  lemma AcrossBlocks(page: Page, script: Page)
    requires script == [ScriptOpen(Canonical), StyleOpen(Canonical), ScriptClose(Canonical)]
    requires page == [Shell(Canonical)] + script + [StyleClose(Canonical)]
    ensures Script(page) == Some(script) && Style(page) == Some(page[2..5]) && Style(script) == None
  {
    IndexIs(page, IsScriptOpen(), 1);
    IndexIs(page[2..], IsScriptClose(), 1);
    assert page[1..4] == script;
    IndexIs(page, IsStyleOpen(), 2);
    IndexIs(page[3..], IsStyleClose(), 1);
    NoBlock(script, IsStyleOpen(), IsStyleClose());
  }

  lemma {:induction false} NothingToInfer(page: Page, names: seq<Component>)
    requires forall k :: 0 <= k < |page| ==> !page[k].CompOpen?
    ensures Infer(page, names) == None
  {
    if names != [] {
      IndexFree(page, Opens(names[0]));
      IndexFree(page, SelfCloses(names[0]));
      NothingToInfer(page, names[1..]);
    }
  }

  lemma AttachedDiffers(template: Page, script: Option<Page>, a: Option<Page>, b: Option<Page>)
    ensures template + (Attached(script) + Attached(a)) == template + (Attached(script) + Attached(b)) <==> a == b
  {
    SamePrefix(template, Attached(script) + Attached(a), Attached(script) + Attached(b));
    SamePrefix(Attached(script), Attached(a), Attached(b));
    AttachedInjective(a, b);
  }

  lemma SamePrefix(lead: Page, a: Page, b: Page)
    ensures lead + a == lead + b <==> a == b
  {
    if lead + a == lead + b {
      assert (lead + a)[|lead|..] == a && (lead + b)[|lead|..] == b;
    }
  }

  lemma AttachedInjective(a: Option<Page>, b: Option<Page>)
    ensures Attached(a) == Attached(b) <==> a == b
  {
    if Attached(a) == Attached(b) && a.Some? {
      assert Attached(a)[1..|Attached(a)| - 1] == a.value;
      if b.Some? {
        assert Attached(b)[1..|Attached(b)| - 1] == b.value;
      }
    }
  }
}
