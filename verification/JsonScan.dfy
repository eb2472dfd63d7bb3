/** Extraction of a JSON block from free text: a string-aware balanced scan that counts one kind
    of bracket only, behind a trim and a code-fence search. The documents are JSON texts as in
    sections 2, 4, 5 and 7 of RFC 8259, in any layout and with any choice of escapes. */
module JsonScan {
  import opened Wrappers
  import opened Text

  // ---------------------------------------------------------------- the scanner

  datatype Scan = Scan(depth: int, inString: bool, escaped: bool)

  const START := Scan(0, false, false)

  predicate Opens(c: char) { c == '{' || c == '[' }

  predicate Bracketless(pre: string) {
    forall k :: 0 <= k < |pre| ==> !Opens(pre[k])
  }

  function Closer(opener: char): char { if opener == '{' then '}' else ']' }

  /** The scanner after one more character. */
  function Step(st: Scan, ch: char, opener: char): Scan {
    if st.inString then
      if st.escaped then st.(escaped := false)
      else if ch == '\\' then st.(escaped := true)
      else if ch == '"' then st.(inString := false)
      else st
    else if ch == '"' then st.(inString := true)
    else if ch == opener then st.(depth := st.depth + 1)
    else if ch == Closer(opener) then st.(depth := st.depth - 1)
    else st
  }

  /** This character ends the block. */
  predicate Ends(st: Scan, ch: char, opener: char) {
    !st.inString && ch != '"' && ch != opener && ch == Closer(opener) && st.depth == 1
  }

  /** The scanner after all of `s`, or nothing if the block ends within it. */
  function Feed(st: Scan, s: string, opener: char): Option<Scan>
    decreases |s|
  {
    if s == "" then Some(st)
    else if Ends(st, s[0], opener) then None
    else Feed(Step(st, s[0], opener), s[1..], opener)
  }

  /** Where in `s` the block ends. */
  function EndOf(st: Scan, s: string, opener: char): (r: Option<nat>)
    ensures r.Some? ==> r.value < |s|
    decreases |s|
  {
    if s == "" then None
    else if Ends(st, s[0], opener) then Some(0)
    else
      var r := EndOf(Step(st, s[0], opener), s[1..], opener);
      if r.None? then None else Some(r.value + 1)
  }

  function FirstOpener(raw: string): (r: Option<nat>)
    ensures r.Some? ==> r.value < |raw| && Opens(raw[r.value])
    ensures r.Some? ==> forall k :: 0 <= k < r.value ==> !Opens(raw[k])
    ensures r.None? ==> forall k :: 0 <= k < |raw| ==> !Opens(raw[k])
  {
    if raw == "" then None
    else if Opens(raw[0]) then Some(0)
    else
      var r := FirstOpener(raw[1..]);
      if r.None? then None else Some(r.value + 1)
  }

  /** What the scanner returns. */
  function BalancedBlock(raw: string): Option<string> {
    var start := FirstOpener(raw);
    if start.None? then None
    else
      var end := EndOf(START, raw[start.value..], raw[start.value]);
      if end.None? then None else Some(raw[start.value..start.value + end.value + 1])
  }

  lemma {:induction false} FeedConcat(st: Scan, a: string, b: string, opener: char)
    requires Feed(st, a, opener).Some?
    ensures Feed(st, a + b, opener) == Feed(Feed(st, a, opener).value, b, opener)
    ensures EndOf(st, a + b, opener) ==
            (var r := EndOf(Feed(st, a, opener).value, b, opener); if r.None? then None else Some(|a| + r.value))
    decreases |a|
  {
    if a == "" {
      assert a + b == b;
    } else {
      assert (a + b)[1..] == a[1..] + b;
      FeedConcat(Step(st, a[0], opener), a[1..], b, opener);
    }
  }

  /** One more character of the text from `start`, scanned up to `idx` so far. */
  lemma FeedNext(raw: string, start: nat, idx: nat, st: Scan, opener: char)
    requires start <= idx < |raw| && Feed(START, raw[start..idx], opener) == Some(st)
    ensures !Ends(st, raw[idx], opener) ==>
              Feed(START, raw[start..idx + 1], opener) == Some(Step(st, raw[idx], opener))
    ensures Ends(st, raw[idx], opener) ==> EndOf(START, raw[start..], opener) == Some(idx - start)
  {
    var done := raw[start..idx];
    assert raw[start..idx + 1] == done + [raw[idx]];
    assert raw[start..] == done + raw[idx..];
    FeedConcat(START, done, [raw[idx]], opener);
    FeedConcat(START, done, raw[idx..], opener);
    assert [raw[idx]][1..] == "";
  }

  method ExtractBalancedJsonBlock(raw: string) returns (r: Option<string>)
    ensures r == BalancedBlock(raw)
  {
    var start := FirstOpener(raw);
    if start.None? {
      return None;
    }
    var opener := raw[start.value];
    var closer := Closer(opener);
    var depth, inString, escaped := 0, false, false;
    assert raw[start.value..start.value] == "";
    for idx := start.value to |raw|
      invariant Feed(START, raw[start.value..idx], opener) == Some(Scan(depth, inString, escaped))
    {
      var ch := raw[idx];
      FeedNext(raw, start.value, idx, Scan(depth, inString, escaped), opener);
      if inString {
        if escaped {
          escaped := false;
        } else if ch == '\\' {
          escaped := true;
        } else if ch == '"' {
          inString := false;
        }
        continue;
      }
      if ch == '"' {
        inString := true;
        continue;
      }
      if ch == opener {
        depth := depth + 1;
      } else if ch == closer {
        depth := depth - 1;
        if depth == 0 {
          return Some(raw[start.value..idx + 1]);
        }
      }
    }
    assert raw[start.value..|raw|] == raw[start.value..];
    FeedMeansNoEnd(START, raw[start.value..], opener);
    return None;
  }

  lemma {:induction false} FeedMeansNoEnd(st: Scan, s: string, opener: char)
    ensures Feed(st, s, opener).Some? <==> EndOf(st, s, opener).None?
    decreases |s|
  {
    if s != "" && !Ends(st, s[0], opener) {
      FeedMeansNoEnd(Step(st, s[0], opener), s[1..], opener);
    }
  }

  // ---------------------------------------------------------------- JSON texts

  datatype StrChar =
    | Plain(c: char)
    | Escape(c: char)
    | Unicode(hex: string)

  /** A JSON text with its layout. `Atom` is a number or a literal name. */
  datatype Json =
    | Atom(text: string)
    | Str(chars: seq<StrChar>)
    | Arr(elems: Elems)
    | Obj(members: Members)

  datatype Elems =
    | NoElems(ws: string)
    | Elem(before: string, value: Json, after: string, rest: Elems)

  datatype Members =
    | NoMembers(ws: string)
    | Member(before: string, key: seq<StrChar>, colonBefore: string, colonAfter: string, value: Json, after: string,
             rest: Members)

  predicate Layout(s: string) {
    forall k :: 0 <= k < |s| ==> s[k] == ' ' || s[k] == '\t' || s[k] == '\n' || s[k] == '\r'
  }

  predicate AtomText(s: string) {
    && s != ""
    && forall k :: 0 <= k < |s| ==>
         '0' <= s[k] <= '9' || 'a' <= s[k] <= 'z' || s[k] == 'E' || s[k] == '+' || s[k] == '-' || s[k] == '.'
  }

  predicate Hex(c: char) {
    '0' <= c <= '9' || 'a' <= c <= 'f' || 'A' <= c <= 'F'
  }

  predicate ValidChar(c: StrChar) {
    match c
    case Plain(c) => c >= ' ' && c != '"' && c != '\\'
    case Escape(c) => c in "\"\\/bfnrt"
    case Unicode(hex) => |hex| == 4 && forall k :: 0 <= k < 4 ==> Hex(hex[k])
  }

  predicate ValidChars(cs: seq<StrChar>) {
    forall k :: 0 <= k < |cs| ==> ValidChar(cs[k])
  }

  predicate Valid(v: Json) {
    match v
    case Atom(text) => AtomText(text)
    case Str(chars) => ValidChars(chars)
    case Arr(elems) => ValidElems(elems)
    case Obj(members) => ValidMembers(members)
  }

  predicate ValidElems(e: Elems) {
    match e
    case NoElems(ws) => Layout(ws)
    case Elem(before, value, after, rest) => Layout(before) && Valid(value) && Layout(after) && ValidElems(rest)
  }

  predicate ValidMembers(m: Members) {
    match m
    case NoMembers(ws) => Layout(ws)
    case Member(before, key, cb, ca, value, after, rest) =>
      && Layout(before) && ValidChars(key) && Layout(cb) && Layout(ca) && Valid(value) && Layout(after)
      && ValidMembers(rest)
  }

  function PrintChar(c: StrChar): string {
    match c
    case Plain(c) => [c]
    case Escape(c) => ['\\', c]
    case Unicode(hex) => ['\\', 'u'] + hex
  }

  function PrintChars(cs: seq<StrChar>): string {
    if cs == [] then "" else PrintChar(cs[0]) + PrintChars(cs[1..])
  }

  function PrintString(cs: seq<StrChar>): string {
    ['"'] + PrintChars(cs) + ['"']
  }

  function Print(v: Json): string {
    match v
    case Atom(text) => text
    case Str(chars) => PrintString(chars)
    case Arr(elems) => ['['] + PrintElems(elems, true) + [']']
    case Obj(members) => ['{'] + PrintMembers(members, true) + ['}']
  }

  function PrintElems(e: Elems, first: bool): string {
    match e
    case NoElems(ws) => ws
    case Elem(before, value, after, rest) =>
      (if first then "" else ",") + before + Print(value) + after + PrintElems(rest, false)
  }

  function PrintMembers(m: Members, first: bool): string {
    match m
    case NoMembers(ws) => ws
    case Member(before, key, cb, ca, value, after, rest) =>
      (if first then "" else ",") + before + PrintString(key) + cb + ":" + ca + Print(value) + after
      + PrintMembers(rest, false)
  }

  // ---------------------------------------------------------------- scanning a printed value

  /** Outside strings, at a positive depth. */
  predicate Outside(st: Scan) {
    !st.inString && !st.escaped && st.depth >= 1
  }

  /** `s` passes through the scanner without a trace. */
  predicate Transparent(s: string, st: Scan, opener: char) {
    Feed(st, s, opener) == Some(st)
  }

  lemma TransparentConcat(a: string, b: string, st: Scan, opener: char)
    requires Transparent(a, st, opener) && Transparent(b, st, opener)
    ensures Transparent(a + b, st, opener)
  {
    FeedConcat(st, a, b, opener);
  }

  predicate Inert(c: char) {
    c != '"' && c != '{' && c != '}' && c != '[' && c != ']'
  }

  lemma {:induction false} InertText(s: string, st: Scan, opener: char)
    requires Outside(st) && Opens(opener) && forall k :: 0 <= k < |s| ==> Inert(s[k])
    ensures Transparent(s, st, opener)
  {
    if s != "" {
      InertText(s[1..], st, opener);
    }
  }

  lemma {:induction false} StringBody(cs: seq<StrChar>, st: Scan, opener: char)
    requires st.inString && !st.escaped && ValidChars(cs)
    ensures Transparent(PrintChars(cs), st, opener)
  {
    if cs != [] {
      StringBody(cs[1..], st, opener);
      OneChar(cs[0], st, opener);
      TransparentConcat(PrintChar(cs[0]), PrintChars(cs[1..]), st, opener);
    }
  }

  lemma OneChar(c: StrChar, st: Scan, opener: char)
    requires st.inString && !st.escaped && ValidChar(c)
    ensures Transparent(PrintChar(c), st, opener)
  {
    match c
    case Plain(p) => assert [p][1..] == "";
    case Escape(e) => Escaped(e, st, opener);
    case Unicode(hex) =>
      Escaped('u', st, opener);
      HexDigits(hex, st, opener);
      TransparentConcat(['\\', 'u'], hex, st, opener);
  }

  lemma Escaped(c: char, st: Scan, opener: char)
    requires st.inString && !st.escaped
    ensures Transparent(['\\', c], st, opener)
  {
    assert ['\\'][1..] == "" && [c][1..] == "";
    assert ['\\', c] == ['\\'] + [c];
    FeedConcat(st, ['\\'], [c], opener);
  }

  lemma {:induction false} HexDigits(s: string, st: Scan, opener: char)
    requires st.inString && !st.escaped && forall k :: 0 <= k < |s| ==> Hex(s[k])
    ensures Transparent(s, st, opener)
  {
    if s != "" {
      HexDigits(s[1..], st, opener);
    }
  }

  lemma StringToken(cs: seq<StrChar>, st: Scan, opener: char)
    requires Outside(st) && ValidChars(cs) && Opens(opener)
    ensures Transparent(PrintString(cs), st, opener)
  {
    var inside := st.(inString := true);
    StringBody(cs, inside, opener);
    assert ['"'][1..] == "";
    FeedConcat(st, ['"'], PrintChars(cs), opener);
    FeedConcat(st, ['"'] + PrintChars(cs), ['"'], opener);
  }

  /** Brackets around transparent content: the block cannot end inside, whichever kind they are. */
  lemma Bracketed(open: char, body: string, st: Scan, opener: char)
    requires Outside(st) && Opens(opener) && Opens(open)
    requires Transparent(body, if open == opener then st.(depth := st.depth + 1) else st, opener)
    ensures Transparent([open] + body + [Closer(open)], st, opener)
  {
    assert [open][1..] == "" && [Closer(open)][1..] == "";
    FeedConcat(st, [open], body, opener);
    FeedConcat(st, [open] + body, [Closer(open)], opener);
  }

  /** Every value, nested to any depth, is transparent to a scan that has already opened. */
  lemma {:induction false} ValueTransparent(v: Json, st: Scan, opener: char)
    requires Valid(v) && Outside(st) && Opens(opener)
    ensures Transparent(Print(v), st, opener)
    decreases v
  {
    match v
    case Atom(text) => InertText(text, st, opener);
    case Str(chars) => StringToken(chars, st, opener);
    case Arr(elems) =>
      var inner := if opener == '[' then st.(depth := st.depth + 1) else st;
      ElemsTransparent(elems, true, inner, opener);
      Bracketed('[', PrintElems(elems, true), st, opener);
    case Obj(members) =>
      var inner := if opener == '{' then st.(depth := st.depth + 1) else st;
      MembersTransparent(members, true, inner, opener);
      Bracketed('{', PrintMembers(members, true), st, opener);
  }

  lemma {:induction false} ElemsTransparent(e: Elems, first: bool, st: Scan, opener: char)
    requires ValidElems(e) && Outside(st) && Opens(opener)
    ensures Transparent(PrintElems(e, first), st, opener)
    decreases e
  {
    match e
    case NoElems(ws) => InertText(ws, st, opener);
    case Elem(before, value, after, rest) =>
      var comma := if first then "" else ",";
      InertText(comma, st, opener);
      InertText(before, st, opener);
      InertText(after, st, opener);
      ValueTransparent(value, st, opener);
      ElemsTransparent(rest, false, st, opener);
      TransparentConcat(comma, before, st, opener);
      TransparentConcat(comma + before, Print(value), st, opener);
      TransparentConcat(comma + before + Print(value), after, st, opener);
      TransparentConcat(comma + before + Print(value) + after, PrintElems(rest, false), st, opener);
  }

  lemma {:induction false} MembersTransparent(m: Members, first: bool, st: Scan, opener: char)
    requires ValidMembers(m) && Outside(st) && Opens(opener)
    ensures Transparent(PrintMembers(m, first), st, opener)
    decreases m
  {
    match m
    case NoMembers(ws) => InertText(ws, st, opener);
    case Member(before, key, cb, ca, value, after, rest) =>
      var comma := if first then "" else ",";
      InertText(comma, st, opener);
      InertText(before, st, opener);
      InertText(cb, st, opener);
      InertText(":", st, opener);
      InertText(ca, st, opener);
      InertText(after, st, opener);
      StringToken(key, st, opener);
      ValueTransparent(value, st, opener);
      MembersTransparent(rest, false, st, opener);
      var a := comma + before;
      var b := a + PrintString(key);
      var c := b + cb;
      var d := c + ":";
      var f := d + ca;
      var g := f + Print(value);
      TransparentConcat(comma, before, st, opener);
      TransparentConcat(a, PrintString(key), st, opener);
      TransparentConcat(b, cb, st, opener);
      TransparentConcat(c, ":", st, opener);
      TransparentConcat(d, ca, st, opener);
      TransparentConcat(f, Print(value), st, opener);
      TransparentConcat(g, after, st, opener);
      TransparentConcat(g + after, PrintMembers(rest, false), st, opener);
  }

  predicate Container(v: Json) {
    v.Arr? || v.Obj?
  }

  function Inside(v: Json): string
    requires Container(v)
  {
    if v.Arr? then PrintElems(v.elems, true) else PrintMembers(v.members, true)
  }

  lemma PrintedContainer(v: Json)
    requires Container(v)
    ensures var o := if v.Arr? then '[' else '{'; Print(v) == [o] + Inside(v) + [Closer(o)]
  {
  }

  /** The balanced scan inverts printing, whatever surrounds the value. */
  lemma ScanInvertsPrinting(pre: string, v: Json, suf: string)
    requires Container(v) && Valid(v) && Bracketless(pre)
    ensures BalancedBlock(pre + Print(v) + suf) == Some(Print(v))
  {
    var p, raw := Print(v), pre + Print(v) + suf;
    ScanEndsAtCloser(v, suf);
    assert FirstOpener(raw) == Some(|pre|) by {
      assert raw[|pre|] == p[0];
      assert forall k :: 0 <= k < |pre| ==> raw[k] == pre[k];
    }
    assert raw[|pre|..] == p + suf;
    assert raw[|pre|..|pre| + |p|] == p;
  }

  lemma ScanEndsAtCloser(v: Json, suf: string)
    requires Container(v) && Valid(v)
    ensures Print(v) != "" && Opens(Print(v)[0])
    ensures EndOf(START, Print(v) + suf, Print(v)[0]) == Some(|Print(v)| - 1)
  {
    var o := if v.Arr? then '[' else '{';
    PrintedContainer(v);
    InsideTransparent(v, o);
    BracketEnds(o, Inside(v), suf);
    assert Print(v) + suf == ([o] + Inside(v)) + ([Closer(o)] + suf);
  }

  lemma InsideTransparent(v: Json, o: char)
    requires Container(v) && Valid(v) && Opens(o)
    ensures Transparent(Inside(v), Scan(1, false, false), o)
  {
    if v.Arr? {
      ElemsTransparent(v.elems, true, Scan(1, false, false), o);
    } else {
      MembersTransparent(v.members, true, Scan(1, false, false), o);
    }
  }

  lemma BracketFeeds(o: char, inside: string)
    requires Opens(o) && Transparent(inside, Scan(1, false, false), o)
    ensures Feed(START, [o] + inside, o) == Some(Scan(1, false, false))
  {
    assert [o][1..] == "";
    FeedConcat(START, [o], inside, o);
  }

  lemma CloserEnds(o: char, suf: string)
    requires Opens(o)
    ensures EndOf(Scan(1, false, false), [Closer(o)] + suf, o) == Some(0)
  {
  }

  lemma BracketEnds(o: char, inside: string, suf: string)
    requires Opens(o) && Transparent(inside, Scan(1, false, false), o)
    ensures EndOf(START, ([o] + inside) + ([Closer(o)] + suf), o) == Some(|inside| + 1)
  {
    BracketFeeds(o, inside);
    CloserEnds(o, suf);
    FeedConcat(START, [o] + inside, [Closer(o)] + suf, o);
  }

  lemma {:induction false} EndOfPrefix(st: Scan, a: string, b: string, opener: char)
    ensures EndOf(st, a, opener).Some? ==> EndOf(st, a + b, opener) == EndOf(st, a, opener)
    decreases |a|
  {
    if a != "" && !Ends(st, a[0], opener) {
      assert (a + b)[1..] == a[1..] + b;
      EndOfPrefix(Step(st, a[0], opener), a[1..], b, opener);
    }
  }

  /** A value that is cut off anywhere gives nothing. */
  lemma TruncatedGivesNothing(pre: string, v: Json, n: nat)
    requires Container(v) && Valid(v) && Bracketless(pre) && n < |Print(v)|
    ensures BalancedBlock(pre + Print(v)[..n]) == None
  {
    var p, cut := Print(v), Print(v)[..n];
    var raw := pre + cut;
    assert forall k :: 0 <= k < |pre| ==> raw[k] == pre[k];
    if n > 0 {
      ScanEndsAtCloser(v, "");
      assert p + "" == cut + p[n..];
      EndOfPrefix(START, cut, p[n..], p[0]);
      assert FirstOpener(raw) == Some(|pre|) by {
        assert raw[|pre|] == p[0];
      }
      assert raw[|pre|..] == cut;
    } else {
      assert raw == pre;
    }
  }

  // ---------------------------------------------------------------- code fences

  const FENCE := "```"

  /** Some occurrence of a fence. */
  ghost predicate HasFence(s: string) {
    exists k :: 0 <= k < |s| && StartsAt(s, k, FENCE)
  }

  /** The optional language tag, in any case. */
  predicate TagAt(raw: string, j: nat) {
    && j + 4 <= |raw|
    && (raw[j] == 'j' || raw[j] == 'J') && (raw[j + 1] == 's' || raw[j + 1] == 'S' || raw[j + 1] == '\U{17F}')
    && (raw[j + 2] == 'o' || raw[j + 2] == 'O') && (raw[j + 3] == 'n' || raw[j + 3] == 'N')
  }

  lemma TagInAnyCase()
    ensures TagAt("json", 0) && TagAt("JSON", 0) && TagAt("Json", 0) && TagAt("jSoN", 0)
    ensures !TagAt("html", 0) && !TagAt("jso", 0)
  {
  }

  /** Only blanks separate position `k` from a fence after it. */
  predicate FenceAfter(raw: string, k: nat)
    requires k < |raw|
  {
    StartsAt(raw, SkipSpace(raw, k + 1), FENCE)
  }

  /** The first closing bracket from `m` on that a fence follows. */
  function LazyEnd(raw: string, m: nat, closer: char): (r: Option<nat>)
    ensures r.Some? ==> m <= r.value < |raw| && raw[r.value] == closer
    decreases |raw| - m
  {
    if m >= |raw| then None
    else if raw[m] == closer && FenceAfter(raw, m) then Some(m)
    else LazyEnd(raw, m + 1, closer)
  }

  lemma {:induction false} LazyEndExact(raw: string, m: nat, closer: char)
    ensures var r := LazyEnd(raw, m, closer);
      && (r.Some? ==> FenceAfter(raw, r.value))
      && forall k {:trigger FenceAfter(raw, k)} ::
           m <= k < (if r.Some? then r.value else |raw|) && raw[k] == closer ==> !FenceAfter(raw, k)
    decreases |raw| - m
  {
    if m < |raw| && !(raw[m] == closer && FenceAfter(raw, m)) {
      LazyEndExact(raw, m + 1, closer);
    }
  }

  function AfterTag(raw: string, j: nat): (k: nat)
    ensures j <= k && (j <= |raw| ==> k <= |raw|)
  {
    if TagAt(raw, j) then j + 4 else j
  }

  /** The group captured when the fence pattern matches at `i`. */
  function FenceAt(raw: string, i: nat): (r: Option<string>)
    ensures r.Some? ==> StartsAt(raw, i, FENCE)
  {
    if StartsAt(raw, i, FENCE) then Group(raw, SkipSpace(raw, AfterTag(raw, i + 3))) else None
  }

  /** A bracketed block at `k`, as short as a closing fence allows. */
  function Group(raw: string, k: nat): Option<string> {
    if k < |raw| && Opens(raw[k]) then
      var m := LazyEnd(raw, k + 1, Closer(raw[k]));
      if m.None? then None else Some(raw[k..m.value + 1])
    else None
  }

  /** The leftmost match from `i` on. */
  function FenceSearch(raw: string, i: nat): (r: Option<string>)
    ensures r.Some? ==> exists k :: i <= k < |raw| && FenceAt(raw, k) == r
    ensures r.None? ==> forall k :: i <= k ==> FenceAt(raw, k).None?
    decreases |raw| - i
  {
    if i >= |raw| then None
    else if FenceAt(raw, i).Some? then FenceAt(raw, i)
    else FenceSearch(raw, i + 1)
  }

  lemma {:induction false} FenceSearchFinds(raw: string, i: nat, k: nat)
    requires i <= k < |raw| && FenceAt(raw, k).Some?
    requires forall j :: i <= j < k ==> FenceAt(raw, j).None?
    ensures FenceSearch(raw, i) == FenceAt(raw, k)
    decreases k - i
  {
    if i < k {
      var here := FenceAt(raw, i);
      assert here.None?;
      FenceSearchFinds(raw, i + 1, k);
    }
  }

  /** The candidate handed to the JSON parser. */
  function StructuredCandidate(raw: string): Option<string> {
    var stripped := Strip(raw);
    if stripped == "" then None
    else if Opens(stripped[0]) then Some(stripped)
    else
      var fenced := FenceSearch(raw, 0);
      if fenced.Some? && Strip(fenced.value) != "" then Some(Strip(fenced.value))
      else BalancedBlock(raw)
  }

  // ---------------------------------------------------------------- extraction inverts printing

  lemma PrintedEdges(v: Json)
    requires Container(v)
    ensures |Print(v)| >= 2 && Opens(Print(v)[0]) && Print(v)[|Print(v)| - 1] == Closer(Print(v)[0])
    ensures !IsSpace(Print(v)[0]) && !IsSpace(Print(v)[|Print(v)| - 1])
  {
    PrintedContainer(v);
  }

  /** A fence match captures brackets at both ends, so trimming it changes nothing. */
  lemma FenceGroupIsTrimmed(raw: string, i: nat)
    requires FenceAt(raw, i).Some?
    ensures FenceAt(raw, i).value != "" && Strip(FenceAt(raw, i).value) == FenceAt(raw, i).value
  {
    var g := FenceAt(raw, i).value;
    assert Opens(g[0]) && g[|g| - 1] == Closer(g[0]);
    assert LeftStrip(g) == g;
    assert RightStrip(g) == g;
  }

  /** Extraction inverts printing: for any text free of opening brackets before the value and any
      text after it, the candidate is exactly the printed value if and only if the guards of the
      earlier branches let it be. A blank prefix sends the rest of the text along, so what follows
      must be blank too; a visible prefix leaves it to the fence search to find nothing else. */
  lemma ExtractionInvertsPrinting(pre: string, v: Json, suf: string)
    requires Container(v) && Valid(v) && Bracketless(pre)
    ensures var raw := pre + Print(v) + suf;
      StructuredCandidate(raw) == Some(Print(v)) <==>
        if Blank(pre) then Blank(suf)
        else FenceSearch(raw, 0) == None || FenceSearch(raw, 0) == Some(Print(v))
  {
    var p := Print(v);
    var raw := pre + p + suf;
    PrintedEdges(v);
    assert raw == pre + (p + suf);
    if Blank(pre) {
      LeftStripSkips(pre, p + suf);
      RightStripSkips(p, suf);
      assert Strip(raw)[0] == p[0] by {
        assert Strip(raw) <= p + suf;
      }
    } else {
      StripStart(pre, p + suf);
      ScanInvertsPrinting(pre, v, suf);
      var fenced := FenceSearch(raw, 0);
      if fenced.Some? {
        var k :| 0 <= k < |raw| && FenceAt(raw, k) == fenced;
        FenceGroupIsTrimmed(raw, k);
      }
    }
  }

  /** In particular a text without code fences always gives the value back. */
  lemma UnfencedExtraction(pre: string, v: Json, suf: string)
    requires Container(v) && Valid(v) && Bracketless(pre)
    requires !Blank(pre) && forall k :: 0 <= k < |pre + Print(v) + suf| ==> !StartsAt(pre + Print(v) + suf, k, FENCE)
    ensures StructuredCandidate(pre + Print(v) + suf) == Some(Print(v))
  {
    ExtractionInvertsPrinting(pre, v, suf);
  }

  /** The text ends in a fence with its tag and blanks, so that a fenced block could begin right after it. */
  ghost predicate OpensFence(pre: string) {
    exists i :: 0 <= i < |pre| && StartsAt(pre, i, FENCE) && SkipSpace(pre, AfterTag(pre, i + 3)) == |pre|
  }

  /** The text begins with a fence, blanks aside. */
  predicate ClosesFence(suf: string) {
    StartsAt(suf, SkipSpace(suf, 0), FENCE)
  }

  /** What decides a text with a visible start, by its parts: if the prefix opens a fence that some bracket closes,
      that bracket must be the value's last; otherwise a fence of the prefix matches nothing, and the search
      through value and suffix must find nothing else. */
  ghost predicate LeftAlone(pre: string, p: string, suf: string)
    requires p != ""
  {
    if OpensFence(pre) && Group(p + suf, 0).Some? then NoInnerFence(p) && ClosesFence(suf)
    else FenceSearch(p + suf, 0) == None || FenceSearch(p + suf, 0) == Some(p)
  }

  lemma ExtractionByParts(pre: string, v: Json, suf: string)
    requires Container(v) && Valid(v) && !Blank(pre) && Bracketless(pre)
    ensures Print(v) != ""
    ensures StructuredCandidate(pre + Print(v) + suf) == Some(Print(v)) <==> LeftAlone(pre, Print(v), suf)
  {
    PrintedEdges(v);
    ExtractionInvertsPrinting(pre, v, suf);
    FoundByParts(pre, Print(v), suf);
  }

  lemma FoundByParts(pre: string, p: string, suf: string)
    requires Enclosed(p) && Bracketless(pre)
    ensures FenceSearch(pre + p + suf, 0) == None || FenceSearch(pre + p + suf, 0) == Some(p) <==>
            LeftAlone(pre, p, suf)
  {
    assert pre + p + suf == pre + (p + suf);
    SearchByParts(pre, p + suf);
    GroupIsValue(p, suf);
  }

  /** After visible text, and with no fence in the suffix, the value alone decides: it comes back exactly if no
      fenced block can be read inside it, nor up to a bracket inside it from a fence that the prefix opens. */
  lemma FenceFreeExtraction(pre: string, v: Json, suf: string)
    requires Container(v) && Valid(v) && Bracketless(pre)
    requires !Blank(pre) && !HasFence(suf)
    ensures StructuredCandidate(pre + Print(v) + suf) == Some(Print(v)) <==>
            FenceSearch(Print(v), 0).None? && (OpensFence(pre) ==> NoInnerFence(Print(v)))
  {
    PrintedEdges(v);
    ExtractionByParts(pre, v, suf);
    LeftAloneUnfenced(pre, Print(v), suf);
  }

  lemma LeftAloneUnfenced(pre: string, p: string, suf: string)
    requires Enclosed(p) && !HasFence(suf)
    ensures LeftAlone(pre, p, suf) <==> FenceSearch(p, 0).None? && (OpensFence(pre) ==> NoInnerFence(p))
  {
    var rest := p + suf;
    assert "" + p + suf == rest && StartsAt(rest, 0, p);
    FencesStayInside("", p, suf);
    SearchMoves(rest, 0, p);
    GroupMoves(rest, 0, p, 0);
    InnerFenceGroups(p);
    assert ClosesFence(suf) ==> HasFence(suf);
  }

  lemma InnerFenceGroups(p: string)
    requires Enclosed(p)
    ensures Group(p, 0).None? <==> NoInnerFence(p)
  {
    var r := LazyEnd(p, 1, Closer(p[0]));
    LazyEndExact(p, 1, Closer(p[0]));
    if r.Some? {
      assert FenceAfter(p, r.value);
    }
  }

  /** What a fence opened before the value captures is the value exactly if a fence closes it and no bracket
      before. */
  lemma GroupIsValue(p: string, suf: string)
    requires Enclosed(p)
    ensures Group(p + suf, 0) == Some(p) <==> NoInnerFence(p) && ClosesFence(suf)
  {
    var rest := p + suf;
    assert StartsAt(rest, 0, p) && rest[|p|..] == suf;
    SkipShifts(rest, |p|, 0);
    StartShifts(rest, |p|, SkipSpace(suf, 0), FENCE);
    assert FenceAfter(rest, |p| - 1) <==> ClosesFence(suf);
    if ClosesFence(suf) {
      assert Closes(rest, 0, p);
      FenceCapture(rest, 0, p);
    } else {
      LazyEndExact(rest, 1, Closer(p[0]));
    }
  }

  lemma StartShifts(raw: string, at: nat, k: nat, t: string)
    requires at <= |raw|
    ensures StartsAt(raw, at + k, t) <==> StartsAt(raw[at..], k, t)
  {
    if at + k + |t| <= |raw| {
      assert raw[at..][k..k + |t|] == raw[at + k..at + k + |t|];
    }
  }

  lemma {:induction false} SkipShifts(raw: string, at: nat, k: nat)
    requires at + k <= |raw|
    ensures SkipSpace(raw, at + k) == at + SkipSpace(raw[at..], k)
    decreases |raw| - k
  {
    if at + k < |raw| && IsSpace(raw[at + k]) {
      SkipShifts(raw, at, k + 1);
    }
  }

  lemma AfterShifts(raw: string, at: nat, k: nat)
    requires at + k < |raw|
    ensures FenceAfter(raw, at + k) <==> FenceAfter(raw[at..], k)
  {
    SkipShifts(raw, at, k + 1);
    StartShifts(raw, at, SkipSpace(raw[at..], k + 1), FENCE);
  }

  lemma LazyEndShifts(raw: string, at: nat, m: nat, closer: char)
    requires at + m <= |raw|
    ensures LazyEnd(raw, at + m, closer) ==
            (var r := LazyEnd(raw[at..], m, closer); if r.None? then None else Some(at + r.value))
  {
    forall n | m <= n < |raw[at..]| ensures EndsAlike(raw, at, raw[at..], n) {
      AfterShifts(raw, at, n);
    }
    LazyEndMoves(raw, at, raw[at..], m, closer);
  }

  lemma GroupShifts(raw: string, at: nat, k: nat)
    requires at <= |raw|
    ensures Group(raw, at + k) == Group(raw[at..], k)
  {
    if at + k < |raw| && Opens(raw[at + k]) {
      LazyEndShifts(raw, at, k + 1, Closer(raw[at + k]));
      var m := LazyEnd(raw[at..], k + 1, Closer(raw[at + k]));
      if m.Some? {
        assert raw[at..][k..m.value + 1] == raw[at + k..at + m.value + 1];
      }
    }
  }

  lemma MatchShifts(raw: string, at: nat, k: nat)
    requires at <= |raw|
    ensures FenceAt(raw, at + k) == FenceAt(raw[at..], k)
  {
    StartShifts(raw, at, k, FENCE);
    if StartsAt(raw, at + k, FENCE) {
      var s := AfterTag(raw[at..], k + 3);
      assert AfterTag(raw, at + k + 3) == at + s;
      SkipShifts(raw, at, s);
      GroupShifts(raw, at, SkipSpace(raw[at..], s));
    }
  }

  /** What the pattern captures at each position. */
  ghost function Matches(raw: string): seq<Option<string>> {
    seq(|raw|, i requires 0 <= i < |raw| => FenceAt(raw, i))
  }

  function FirstFound(ms: seq<Option<string>>): Option<string> {
    if ms == [] then None else if ms[0].Some? then ms[0] else FirstFound(ms[1..])
  }

  lemma {:induction false} SearchIsFirst(raw: string, i: nat)
    requires i <= |raw|
    ensures FenceSearch(raw, i) == FirstFound(Matches(raw)[i..])
    decreases |raw| - i
  {
    if i < |raw| {
      SearchIsFirst(raw, i + 1);
      assert Matches(raw)[i..][0] == FenceAt(raw, i) && Matches(raw)[i..][1..] == Matches(raw)[i + 1..];
    }
  }

  lemma {:induction false} FirstOfConcat(a: seq<Option<string>>, b: seq<Option<string>>)
    ensures FirstFound(a + b) == if FirstFound(a).Some? then FirstFound(a) else FirstFound(b)
  {
    if a == [] {
      assert a + b == b;
    } else {
      assert (a + b)[1..] == a[1..] + b;
      FirstOfConcat(a[1..], b);
    }
  }

  lemma {:induction false} FirstOfAlike(ms: seq<Option<string>>, block: Option<string>)
    requires forall k :: 0 <= k < |ms| ==> ms[k] == None || ms[k] == block
    ensures FirstFound(ms) == None || FirstFound(ms) == block
    ensures (exists k :: 0 <= k < |ms| && ms[k] == block) ==> FirstFound(ms) == block
  {
    if ms != [] && ms[0].None? {
      FirstOfAlike(ms[1..], block);
      if k :| 0 <= k < |ms| && ms[k] == block {
        if k > 0 {
          assert ms[1..][k - 1] == block;
        }
      }
    }
  }

  lemma PrefixStarts(pre: string, rest: string, i: nat)
    requires rest != "" && Opens(rest[0]) && i < |pre|
    ensures StartsAt(pre + rest, i, FENCE) <==> StartsAt(pre, i, FENCE)
  {
    var raw := pre + rest;
    if i + 3 <= |pre| {
      assert raw[i..i + 3] == pre[i..i + 3];
    } else {
      assert i + 3 <= |raw| ==> raw[i..i + 3][|pre| - i] == rest[0];
      assert FENCE[|pre| - i] == '`';
    }
  }

  lemma PrefixTag(pre: string, rest: string, j: nat)
    requires rest != "" && Opens(rest[0]) && j <= |pre|
    ensures AfterTag(pre + rest, j) == AfterTag(pre, j)
  {
    var raw := pre + rest;
    assert raw[|pre|] == rest[0] && forall k :: 0 <= k < |pre| ==> raw[k] == pre[k];
  }

  lemma PrefixSkips(pre: string, rest: string, s: nat)
    requires rest != "" && Opens(rest[0]) && s <= |pre|
    ensures SkipSpace(pre + rest, s) == SkipSpace(pre, s)
  {
    var raw := pre + rest;
    assert raw[|pre|] == rest[0] && forall k :: 0 <= k < |pre| ==> raw[k] == pre[k];
    SkipSpaceExact(pre, s);
    assert !IsSpace(rest[0]);
    SkipSpaceTo(raw, s, SkipSpace(pre, s));
  }

  lemma PrefixGroup(pre: string, rest: string, j: nat)
    requires Bracketless(pre) && j <= |pre|
    ensures Group(pre + rest, j) == if j == |pre| then Group(rest, 0) else None
  {
    if j == |pre| {
      GroupShifts(pre + rest, |pre|, 0);
      assert (pre + rest)[|pre|..] == rest;
    } else {
      assert (pre + rest)[j] == pre[j];
    }
  }

  /** A fence in a prefix without brackets can only open a block that starts right after the prefix. */
  lemma PrefixMatch(pre: string, rest: string, i: nat)
    requires Bracketless(pre) && rest != "" && Opens(rest[0]) && i < |pre|
    ensures FenceAt(pre + rest, i) ==
            if StartsAt(pre, i, FENCE) && SkipSpace(pre, AfterTag(pre, i + 3)) == |pre| then Group(rest, 0) else None
  {
    PrefixStarts(pre, rest, i);
    if StartsAt(pre, i, FENCE) {
      var s := AfterTag(pre, i + 3);
      PrefixTag(pre, rest, i + 3);
      PrefixSkips(pre, rest, s);
      PrefixGroup(pre, rest, SkipSpace(pre, s));
    }
  }

  lemma MatchesByParts(pre: string, rest: string)
    requires Bracketless(pre) && rest != "" && Opens(rest[0])
    ensures |Matches(pre + rest)| == |pre| + |rest| && Matches(pre + rest)[|pre|..] == Matches(rest)
    ensures var ms := Matches(pre + rest)[..|pre|];
      && (forall i :: 0 <= i < |ms| ==> ms[i] == None || (ms[i] == Group(rest, 0) && OpensFence(pre)))
      && (OpensFence(pre) ==> exists i :: 0 <= i < |ms| && ms[i] == Group(rest, 0))
  {
    var raw := pre + rest;
    forall i | 0 <= i < |rest| ensures Matches(raw)[|pre| + i] == Matches(rest)[i] {
      MatchShifts(raw, |pre|, i);
      assert raw[|pre|..] == rest;
    }
    forall i | 0 <= i < |pre|
      ensures Matches(raw)[i] ==
              if StartsAt(pre, i, FENCE) && SkipSpace(pre, AfterTag(pre, i + 3)) == |pre| then Group(rest, 0) else None
    {
      PrefixMatch(pre, rest, i);
    }
    if i :| 0 <= i < |pre| && StartsAt(pre, i, FENCE) && SkipSpace(pre, AfterTag(pre, i + 3)) == |pre| {
      assert Matches(raw)[..|pre|][i] == Group(rest, 0);
    }
  }

  lemma SearchByParts(pre: string, rest: string)
    requires Bracketless(pre) && rest != "" && Opens(rest[0])
    ensures FenceSearch(pre + rest, 0) ==
            if OpensFence(pre) && Group(rest, 0).Some? then Group(rest, 0) else FenceSearch(rest, 0)
  {
    MatchesByParts(pre, rest);
    FirstByParts(Matches(pre + rest), |pre|, Group(rest, 0), OpensFence(pre));
    SearchIsFirst(pre + rest, 0);
    SearchIsFirst(rest, 0);
    assert Matches(pre + rest)[0..] == Matches(pre + rest) && Matches(rest)[0..] == Matches(rest);
  }

  lemma FirstByParts(ms: seq<Option<string>>, n: nat, block: Option<string>, opens: bool)
    requires n <= |ms| && forall i :: 0 <= i < n ==> ms[..n][i] == None || (ms[..n][i] == block && opens)
    requires opens ==> exists i :: 0 <= i < n && ms[..n][i] == block
    ensures FirstFound(ms) == if opens && block.Some? then block else FirstFound(ms[n..])
  {
    assert ms == ms[..n] + ms[n..];
    FirstOfConcat(ms[..n], ms[n..]);
    FirstOfAlike(ms[..n], if opens then block else None);
  }

  /** All fences of the text start and end inside the `n` characters at `at`, not at their last one. */
  ghost predicate FencesWithin(raw: string, at: nat, n: nat) {
    forall i: nat {:trigger StartsAt(raw, i, FENCE)} :: StartsAt(raw, i, FENCE) ==> at <= i && i + 3 < at + n
  }

  predicate Enclosed(p: string) {
    |p| >= 2 && Opens(p[0]) && p[|p| - 1] == Closer(p[0])
  }

  lemma FencesStayInside(pre: string, p: string, suf: string)
    requires Enclosed(p) && !HasFence(pre) && !HasFence(suf)
    ensures FencesWithin(pre + p + suf, |pre|, |p|)
  {
    var raw := pre + p + suf;
    forall i: nat | StartsAt(raw, i, FENCE) ensures |pre| <= i && i + 3 < |pre| + |p| {
      FenceChars(raw, i);
      assert raw[|pre|] == p[0] && raw[|pre| + |p| - 1] == p[|p| - 1];
      if i + 3 <= |pre| {
        assert pre[i..i + 3] == raw[i..i + 3];
        assert StartsAt(pre, i, FENCE);
      }
      if i >= |pre| + |p| {
        var j := i - |pre| - |p|;
        assert suf[j..j + 3] == raw[i..i + 3];
        assert StartsAt(suf, j, FENCE);
      }
    }
  }

  /** The search finds the same in the value as around it, and never the value itself. */
  lemma SearchMoves(raw: string, at: nat, p: string)
    requires StartsAt(raw, at, p) && Enclosed(p) && FencesWithin(raw, at, |p|)
    ensures FenceSearch(raw, 0).None? <==> FenceSearch(p, 0).None?
    ensures FenceSearch(raw, 0) != Some(p)
  {
    if FenceSearch(raw, 0).Some? {
      var i :| 0 <= i < |raw| && FenceAt(raw, i) == FenceSearch(raw, 0);
      MatchIsInside(raw, at, p, i);
    }
    if FenceSearch(p, 0).Some? {
      var k :| 0 <= k < |p| && FenceAt(p, k) == FenceSearch(p, 0);
      MatchMoves(raw, at, p, k);
    }
  }

  lemma MatchIsInside(raw: string, at: nat, p: string, i: nat)
    requires StartsAt(raw, at, p) && Enclosed(p) && FencesWithin(raw, at, |p|) && FenceAt(raw, i).Some?
    ensures at <= i < at + |p| && FenceAt(p, i - at) == FenceAt(raw, i) && |FenceAt(raw, i).value| < |p|
  {
    assert StartsAt(raw, i, FENCE);
    MatchMoves(raw, at, p, i - at);
    GroupIsShort(p, i - at);
  }

  lemma GroupIsShort(p: string, k: nat)
    requires FenceAt(p, k).Some?
    ensures |FenceAt(p, k).value| < |p|
  {
  }

  lemma MatchMoves(raw: string, at: nat, p: string, k: nat)
    requires StartsAt(raw, at, p) && Enclosed(p) && FencesWithin(raw, at, |p|) && k < |p|
    ensures FenceAt(raw, at + k) == FenceAt(p, k)
  {
    FenceMoves(raw, at, p, k);
    if StartsAt(p, k, FENCE) {
      var s := AfterTag(p, k + 3);
      assert AfterTag(raw, at + k + 3) == at + s && s < |p| by {
        assert StartsAt(raw, at + k, FENCE);
        TagMoves(raw, at, p, k + 3);
      }
      SkipMoves(raw, at, p, s);
      GroupMoves(raw, at, p, SkipSpace(p, s));
    }
  }

  lemma TagMoves(raw: string, at: nat, p: string, j: nat)
    requires StartsAt(raw, at, p) && Enclosed(p) && j < |p|
    ensures AfterTag(raw, at + j) == at + AfterTag(p, j) && AfterTag(p, j) < |p|
  {
    Copied(raw, at, p);
  }

  lemma SkipMoves(raw: string, at: nat, p: string, s: nat)
    requires StartsAt(raw, at, p) && Enclosed(p) && s < |p|
    ensures SkipSpace(raw, at + s) == at + SkipSpace(p, s) && SkipSpace(p, s) < |p|
  {
    var j := SkipSpace(p, s);
    Copied(raw, at, p);
    SkipSpaceExact(p, s);
    assert !IsSpace(p[|p| - 1]);
    SkipSpaceTo(raw, at + s, at + j);
  }

  lemma GroupMoves(raw: string, at: nat, p: string, g: nat)
    requires StartsAt(raw, at, p) && Enclosed(p) && FencesWithin(raw, at, |p|) && g < |p|
    ensures Group(raw, at + g) == Group(p, g)
  {
    Copied(raw, at, p);
    if Opens(p[g]) {
      var closer := Closer(p[g]);
      NoEndBeyond(raw, at, p, closer);
      forall n | g + 1 <= n < |p| ensures EndsAlike(raw, at, p, n) {
        AfterMoves(raw, at, p, n);
      }
      LazyEndMoves(raw, at, p, g + 1, closer);
      var m := LazyEnd(p, g + 1, Closer(p[g]));
      if m.Some? {
        assert raw[at + g..at + m.value + 1] == p[g..m.value + 1];
      }
    }
  }

  /** Position `n` ends a block in `p` as it does in the text around it. */
  ghost predicate EndsAlike(raw: string, at: nat, p: string, n: nat)
    requires n < |p| && at + |p| <= |raw|
  {
    raw[at + n] == p[n] && (FenceAfter(raw, at + n) <==> FenceAfter(p, n))
  }

  lemma LazyEndMoves(raw: string, at: nat, p: string, m: nat, closer: char)
    requires m <= |p| && at + |p| <= |raw| && LazyEnd(raw, at + |p|, closer).None?
    requires forall n :: m <= n < |p| ==> EndsAlike(raw, at, p, n)
    ensures LazyEnd(raw, at + m, closer) ==
            (var r := LazyEnd(p, m, closer); if r.None? then None else Some(at + r.value))
  {
    var r := LazyEnd(p, m, closer);
    LazyEndExact(p, m, closer);
    var stop := if r.None? then |p| else r.value;
    forall k | at + m <= k < at + stop ensures !(raw[k] == closer && FenceAfter(raw, k)) {
      assert EndsAlike(raw, at, p, k - at);
      assert p[k - at] == closer ==> !FenceAfter(p, k - at);
    }
    LazyEndSkips(raw, at + m, at + stop, closer);
    if r.Some? {
      assert EndsAlike(raw, at, p, r.value);
    }
  }

  lemma {:induction false} LazyEndSkips(raw: string, m: nat, stop: nat, closer: char)
    requires m <= stop <= |raw|
    requires forall k :: m <= k < stop ==> !(raw[k] == closer && FenceAfter(raw, k))
    ensures LazyEnd(raw, m, closer) == LazyEnd(raw, stop, closer)
    decreases stop - m
  {
    if m < stop {
      LazyEndSkips(raw, m + 1, stop, closer);
    }
  }

  lemma NoEndBeyond(raw: string, at: nat, p: string, closer: char)
    requires StartsAt(raw, at, p) && FencesWithin(raw, at, |p|)
    ensures LazyEnd(raw, at + |p|, closer).None?
  {
    LazyEndExact(raw, at + |p|, closer);
  }

  lemma AfterMoves(raw: string, at: nat, p: string, m: nat)
    requires StartsAt(raw, at, p) && Enclosed(p) && FencesWithin(raw, at, |p|) && m < |p|
    ensures EndsAlike(raw, at, p, m)
  {
    Copied(raw, at, p);
    if m + 1 < |p| {
      FenceLooksInside(raw, at, p, m);
    }
  }

  /** In a text without fences a value that is cut off leaves no candidate. */
  lemma TruncatedLeavesNothing(pre: string, v: Json, n: nat)
    requires Container(v) && Valid(v) && Bracketless(pre) && !Blank(pre) && n < |Print(v)|
    requires !HasFence(pre + Print(v)[..n])
    ensures StructuredCandidate(pre + Print(v)[..n]) == None
  {
    TruncatedGivesNothing(pre, v, n);
    StripStart(pre, Print(v)[..n]);
  }

  /** Text after a value that comes first is never cut off. */
  lemma TrailingTextStays(v: Json)
    requires Container(v) && Valid(v)
    ensures StructuredCandidate("" + Print(v) + ".") != Some(Print(v))
  {
    assert !IsSpace("."[0]);
    ExtractionInvertsPrinting("", v, ".");
  }

  /** The fence condition is real even when neither side holds a fence: a string that quotes a fenced
      block of its own is what the search finds. */
  lemma FenceInsideStringWins() returns (pre: string, v: Json)
    ensures Container(v) && Valid(v) && |pre| == 1 && !Opens(pre[0]) && !Blank(pre)
    ensures StructuredCandidate(pre + Print(v) + "") == Some("{}")
  {
    v := QuotingValue();
    pre := ['x'];
    var raw := pre + Print(v) + "";
    assert raw == "x[\"```{}```\"]";
    QuotedTextIs(raw);
    QuotedCandidate(raw);
  }

  lemma QuotedCandidate(raw: string)
    requires QuotedText(raw)
    ensures StructuredCandidate(raw) == Some("{}")
  {
    QuotedFence(raw);
    OnlyFenced(raw);
  }

  lemma QuotingValue() returns (v: Json)
    ensures Container(v) && Valid(v) && Print(v) == "[\"```{}```\"]"
  {
    var quoted := [Plain('`'), Plain('`'), Plain('`'), Plain('{'), Plain('}'), Plain('`'), Plain('`'), Plain('`')];
    PlainText(quoted, "```{}```");
    assert ValidChars(quoted);
    v := OneString(quoted);
  }

  lemma OneString(chars: seq<StrChar>) returns (v: Json)
    requires ValidChars(chars)
    ensures Container(v) && Valid(v) && Print(v) == "[\"" + PrintChars(chars) + "\"]"
  {
    var rest, s := NoElems(""), Str(chars);
    var elems := Elem("", s, "", rest);
    assert ValidElems(rest) && Valid(s);
    OneElem(s, rest);
    v := Arr(elems);
  }

  lemma OneElem(s: Json, rest: Elems)
    requires rest == NoElems("")
    ensures PrintElems(Elem("", s, "", rest), true) == Print(s)
  {
    assert PrintElems(rest, false) == "";
  }

  lemma VisibleStart(raw: string)
    requires raw != "" && !IsSpace(raw[0])
    ensures Strip(raw) != "" && Strip(raw)[0] == raw[0]
  {
    assert raw == [raw[0]] + raw[1..];
    StripStart([raw[0]], raw[1..]);
  }

  lemma SearchIsTrimmed(raw: string)
    requires FenceSearch(raw, 0).Some?
    ensures FenceSearch(raw, 0).value != "" && Strip(FenceSearch(raw, 0).value) == FenceSearch(raw, 0).value
  {
    var k :| 0 <= k < |raw| && FenceAt(raw, k) == FenceSearch(raw, 0);
    FenceGroupIsTrimmed(raw, k);
  }

  /** A text that does not start with a bracket and has a fenced block gives that block. */
  lemma OnlyFenced(raw: string)
    requires raw != "" && !IsSpace(raw[0]) && !Opens(raw[0]) && FenceSearch(raw, 0).Some?
    ensures StructuredCandidate(raw) == FenceSearch(raw, 0)
  {
    VisibleStart(raw);
    SearchIsTrimmed(raw);
  }

  /** x["```{}```"] */
  predicate QuotedText(raw: string) {
    && |raw| == 13 && raw[0] == 'x' && raw[1] == '[' && raw[2] == '"'
    && StartsAt(raw, 3, FENCE) && raw[6] == '{' && raw[7] == '}' && StartsAt(raw, 8, FENCE)
  }

  lemma QuotedTextIs(raw: string)
    requires raw == "x[\"```{}```\"]"
    ensures QuotedText(raw)
  {
    assert raw[3..6] == FENCE && raw[8..11] == FENCE;
  }

  lemma QuotedFence(raw: string)
    requires QuotedText(raw)
    ensures FenceSearch(raw, 0) == Some("{}")
  {
    QuotedMatch(raw);
    forall j | 0 <= j < 3 ensures FenceAt(raw, j).None? {
      if StartsAt(raw, j, FENCE) {
        FenceChars(raw, j);
      }
    }
    FenceSearchFinds(raw, 0, 3);
  }

  lemma QuotedMatch(raw: string)
    requires QuotedText(raw)
    ensures FenceAt(raw, 3) == Some("{}")
  {
    FenceChars(raw, 8);
    assert SkipSpace(raw, 6) == 6 && SkipSpace(raw, 8) == 8;
    assert FenceAfter(raw, 7);
    assert LazyEnd(raw, 7, '}') == Some(7);
    assert Group(raw, 6) == Some(raw[6..8]);
    assert raw[6..8] == "{}";
  }

  lemma {:induction false} PlainText(cs: seq<StrChar>, s: string)
    requires |cs| == |s| && forall k :: 0 <= k < |s| ==> cs[k] == Plain(s[k])
    ensures PrintChars(cs) == s
  {
    if cs != [] {
      PlainText(cs[1..], s[1..]);
      assert s == [s[0]] + s[1..];
    }
  }

  /** A value in a code fence, the form models are asked for. */
  function FencedText(pre: string, tag: string, lead: string, p: string, trail: string, post: string): string {
    pre + (FENCE + (tag + (lead + (p + (trail + (FENCE + post))))))
  }

  /** No closing bracket strictly inside `p` is followed by a fence. */
  ghost predicate NoInnerFence(p: string)
    requires p != ""
  {
    forall k {:trigger FenceAfter(p, k)} :: 0 < k < |p| - 1 && p[k] == Closer(p[0]) ==> !FenceAfter(p, k)
  }

  /** The first visible character opens a block. */
  predicate OpensFirst(s: string) {
    LeftStrip(s) != "" && Opens(LeftStrip(s)[0])
  }

  /** No tag, or `json` in any case. */
  predicate Tag(s: string) {
    s == "" || (|s| == 4 && TagAt(s, 0))
  }

  /** Extraction gives a fenced value back exactly when the text before the fence does not start with a block, and
      no closing bracket inside the value is followed, blanks aside, by a fence of its own. */
  lemma FencedExtraction(pre: string, tag: string, lead: string, v: Json, trail: string, post: string)
    requires Container(v) && Valid(v)
    requires !HasFence(pre) && Tag(tag) && Blank(lead) && Blank(trail)
    ensures StructuredCandidate(FencedText(pre, tag, lead, Print(v), trail, post)) == Some(Print(v)) <==>
            !OpensFirst(pre) && NoInnerFence(Print(v))
  {
    var p := Print(v);
    var raw := FencedText(pre, tag, lead, p, trail, post);
    PrintedEdges(v);
    var rest := tag + (lead + (p + (trail + (FENCE + post))));
    assert raw == (pre + FENCE) + rest;
    FenceOpensText(pre, rest);
    if OpensFirst(pre) {
      LeftStripBlank(pre);
      FencedIsLonger(pre, tag, lead, p, trail, post);
    } else {
      assert raw[|pre|..] == FENCE + rest;
      FencedLayout(raw, |pre|, tag, lead, p, trail, post);
      FirstFence(raw, pre, rest);
      FenceSearchFinds(raw, 0, |pre|);
      FenceGroupIsTrimmed(raw, |pre|);
    }
  }

  lemma FencedIsLonger(pre: string, tag: string, lead: string, p: string, trail: string, post: string)
    requires !Blank(pre)
    ensures |Strip(FencedText(pre, tag, lead, p, trail, post))| > |p|
  {
    var mid := FENCE + tag + lead + p + trail;
    StripKeeps(pre, mid, FENCE, post);
    assert FencedText(pre, tag, lead, p, trail, post) == pre + (mid + (FENCE + post));
  }

  /** What the stripped text starts with is decided before the fence, or by the fence. */
  lemma FenceOpensText(pre: string, rest: string)
    ensures var s := Strip(pre + FENCE + rest); s != "" && (Opens(s[0]) <==> OpensFirst(pre))
  {
    var head := pre + FENCE;
    assert !IsSpace(head[|pre|]);
    StripStart(head, rest);
    StripPrefix(head, rest);
    if Blank(pre) {
      LeftStripBlank(pre);
      LeftStripSkips(pre, FENCE);
    } else {
      LeftStripOf(pre, FENCE);
    }
  }

  /** Stripping keeps the first visible character. */
  lemma StripPrefix(a: string, b: string)
    requires !Blank(a) && Strip(a + b) != ""
    ensures LeftStrip(a) != "" && Strip(a + b)[0] == LeftStrip(a)[0]
  {
    LeftStripOf(a, b);
    assert RightStrip(LeftStrip(a + b)) <= LeftStrip(a + b);
  }

  /** Between visible text on both sides stripping removes nothing. */
  lemma StripKeeps(a: string, mid: string, end: string, post: string)
    requires !Blank(a) && end != "" && !IsSpace(end[|end| - 1])
    ensures |Strip(a + (mid + (end + post)))| >= |mid| + |end|
  {
    var head := LeftStrip(a) + mid + end;
    LeftStripOf(a, mid + (end + post));
    assert LeftStrip(a) + (mid + (end + post)) == head + post;
    assert head[|head| - 1] == end[|end| - 1];
    RightStripSkips(head, post);
  }

  /** The fence is the first one that could match: one that starts in the text before runs into the fence. */
  lemma FirstFence(raw: string, pre: string, rest: string)
    requires raw == pre + FENCE + rest && !HasFence(pre)
    ensures forall j :: 0 <= j < |pre| ==> FenceAt(raw, j).None?
  {
    forall j | 0 <= j < |pre| ensures FenceAt(raw, j).None? {
      if StartsAt(raw, j, FENCE) {
        if j + 3 <= |pre| {
          assert pre[j..j + 3] == raw[j..j + 3];
          assert StartsAt(pre, j, FENCE);
        }
        assert raw[j + 3] == FENCE[j + 3 - |pre|];
        assert FENCE[0] == FENCE[1] == FENCE[2] == '`';
      }
    }
  }

  lemma AfterBlank(raw: string, k: nat, blank: string, rest: string)
    requires k <= |raw| && raw[k..] == blank + rest && Blank(blank) && rest != "" && !IsSpace(rest[0])
    ensures SkipSpace(raw, k) == k + |blank| && raw[k + |blank|..] == rest
  {
    Peel(raw, k, blank, rest);
    forall i | k <= i < k + |blank| ensures IsSpace(raw[i]) {
      assert raw[k..k + |blank|][i - k] == blank[i - k];
    }
    assert raw[k + |blank|..][0] == rest[0];
    SkipSpaceTo(raw, k, k + |blank|);
  }

  /** What the fence pattern captures from a fenced value. */
  lemma FencedLayout(raw: string, i: nat, tag: string, lead: string, p: string, trail: string, post: string)
    requires i <= |raw| && raw[i..] == FENCE + (tag + (lead + (p + (trail + (FENCE + post)))))
    requires Tag(tag)
    requires Blank(lead) && Blank(trail)
    requires Enclosed(p)
    ensures FenceAt(raw, i).Some? && (FenceAt(raw, i).value == p <==> NoInnerFence(p))
  {
    var at := i + 3 + |tag| + |lead|;
    var tail := p + (trail + (FENCE + post));
    assert StartsAt(raw, i, FENCE) && raw[i + 3..] == tag + (lead + tail) by {
      Peel(raw, i, FENCE, tag + (lead + tail));
    }
    assert SkipSpace(raw, AfterTag(raw, i + 3)) == at && at <= |raw| && raw[at..] == tail by {
      Tagged(raw, i + 3, tag, lead, tail);
    }
    assert Closes(raw, at, p) by {
      ClosingFence(raw, at, p, trail, post);
    }
    FenceCapture(raw, at, p);
  }

  /** `p` stands at `at` and a fence closes it. */
  predicate Closes(raw: string, at: nat, p: string) {
    p != "" && StartsAt(raw, at, p) && FenceAfter(raw, at + |p| - 1)
  }

  lemma ClosingFence(raw: string, at: nat, p: string, trail: string, post: string)
    requires at <= |raw| && raw[at..] == p + (trail + (FENCE + post))
    requires p != "" && Blank(trail)
    ensures Closes(raw, at, p)
  {
    var ending := FENCE + post;
    Peel(raw, at, p, trail + ending);
    assert ending[0] == '`';
    AfterBlank(raw, at + |p|, trail, ending);
    Peel(raw, at + |p| + |trail|, FENCE, post);
  }

  lemma Tagged(raw: string, j: nat, tag: string, lead: string, tail: string)
    requires j <= |raw| && raw[j..] == tag + (lead + tail)
    requires Tag(tag)
    requires Blank(lead) && tail != "" && Opens(tail[0])
    ensures var at := j + |tag| + |lead|; SkipSpace(raw, AfterTag(raw, j)) == at && raw[at..] == tail
  {
    var k := j + |tag|;
    assert k <= |raw| && raw[k..] == lead + tail by {
      Peel(raw, j, tag, lead + tail);
    }
    assert AfterTag(raw, j) == k by {
      TagFound(raw, j, tag, lead, tail);
    }
    assert !IsSpace(tail[0]);
    AfterBlank(raw, k, lead, tail);
  }

  lemma TagFound(raw: string, k: nat, tag: string, lead: string, rest: string)
    requires k <= |raw| && raw[k..] == tag + (lead + rest)
    requires Tag(tag)
    requires Blank(lead) && rest != "" && Opens(rest[0])
    ensures AfterTag(raw, k) == k + |tag|
  {
    var body := lead + rest;
    if tag != "" {
      Peel(raw, k, tag, body);
      Copied(raw, k, tag);
    } else {
      assert raw[k..] == body;
      assert raw[k] == body[0];
      if lead == "" {
        assert body[0] == rest[0];
      } else {
        assert body[0] == lead[0];
      }
    }
  }

  lemma FenceCapture(raw: string, at: nat, p: string)
    requires Closes(raw, at, p)
    requires Enclosed(p)
    ensures Group(raw, at).Some? && (Group(raw, at).value == p <==> NoInnerFence(p))
  {
    var last := at + |p| - 1;
    assert raw[at] == p[0] && raw[last] == p[|p| - 1] by {
      Copied(raw, at, p);
    }
    InnerFenceTransfers(raw, at, p);
    LazyEndExact(raw, at + 1, Closer(p[0]));
    var m := LazyEnd(raw, at + 1, Closer(p[0])).value;
    assert |raw[at..m + 1]| == m + 1 - at;
    if m < last {
      assert FenceAfter(raw, m);
    }
  }

  /** Looking for a fence from inside `p` never leaves `p`, because `p` ends in a bracket. */
  lemma FenceLooksInside(raw: string, at: nat, p: string, n: nat)
    requires StartsAt(raw, at, p) && Enclosed(p) && n + 1 < |p|
    ensures FenceAfter(p, n) <==> FenceAfter(raw, at + n)
  {
    SkipMoves(raw, at, p, n + 1);
    FenceMoves(raw, at, p, SkipSpace(p, n + 1));
  }

  lemma Copied(raw: string, at: nat, p: string)
    requires StartsAt(raw, at, p)
    ensures forall i :: at <= i < at + |p| ==> raw[i] == p[i - at]
  {
    forall i | at <= i < at + |p| ensures raw[i] == p[i - at] {
      assert raw[at..at + |p|][i - at] == p[i - at];
    }
  }

  lemma FenceMoves(raw: string, at: nat, p: string, j: nat)
    requires StartsAt(raw, at, p) && j < |p| && (p[|p| - 1] == '}' || p[|p| - 1] == ']')
    ensures StartsAt(p, j, FENCE) <==> StartsAt(raw, at + j, FENCE)
  {
    Copied(raw, at, p);
    if StartsAt(raw, at + j, FENCE) {
      FenceChars(raw, at + j);
      assert raw[at + |p| - 1] == p[|p| - 1];
      assert p[j..j + 3] == raw[at + j..at + j + 3];
    }
    if StartsAt(p, j, FENCE) {
      assert raw[at + j..at + j + 3] == p[j..j + 3];
    }
  }

  lemma InnerFenceTransfers(raw: string, at: nat, p: string)
    requires StartsAt(raw, at, p) && Enclosed(p)
    ensures NoInnerFence(p) <==>
            forall k {:trigger FenceAfter(raw, k)} ::
              at < k < at + |p| - 1 && raw[k] == Closer(p[0]) ==> !FenceAfter(raw, k)
  {
    if NoInnerFence(p) {
      forall k | at < k < at + |p| - 1 && raw[k] == Closer(p[0])
        ensures !FenceAfter(raw, k)
      {
        assert p[k - at] == raw[at..at + |p|][k - at];
        FenceLooksInside(raw, at, p, k - at);
      }
    } else {
      var k :| 0 < k < |p| - 1 && p[k] == Closer(p[0]) && FenceAfter(p, k);
      assert p[k] == raw[at..at + |p|][k];
      FenceLooksInside(raw, at, p, k);
      assert FenceAfter(raw, at + k);
    }
  }

  lemma FenceChars(s: string, k: nat)
    requires StartsAt(s, k, FENCE)
    ensures s[k] == '`' && s[k + 1] == '`' && s[k + 2] == '`'
  {
    assert s[k..k + 3][0] == '`' && s[k..k + 3][1] == '`' && s[k..k + 3][2] == '`';
  }
}
