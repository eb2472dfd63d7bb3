/** Applying a unified diff by replacing blocks of text, the fallback used when the strict patch tool
    refuses a diff, and the line statistics the size guard takes from the same diff.
    A patch is the list of its lines; a file is its text, or nothing when the path leaves the
    repository or names no file. */
module Hunks {
  import opened Wrappers
  import opened Text

  predicate Opening(line: string, prefix: string) {
    prefix <= line
  }

  predicate FileHeader(line: string) {
    Opening(line, "diff --git ") || Opening(line, "--- ") || Opening(line, "+++ ")
  }

  // ---------------------------------------------------------------- reading hunks

  /** One hunk: the block to find and the block to put in its place. */
  datatype Hunk = Hunk(old_: string, new_: string)

  datatype Reader = Reader(done: seq<Hunk>, inHunk: bool, old_: string, new_: string)

  const NOTHING_READ := Reader([], false, "", "")

  function ReadLine(r: Reader, line: string): Reader {
    if Opening(line, "@@") then
      if r.inHunk then Reader(r.done + [Hunk(r.old_, r.new_)], true, "", "") else r.(inHunk := true)
    else if !r.inHunk || FileHeader(line) || line == "" then r
    else
      var rendered := line[1..] + "\n";
      if line[0] == ' ' then r.(old_ := r.old_ + rendered, new_ := r.new_ + rendered)
      else if line[0] == '-' then r.(old_ := r.old_ + rendered)
      else if line[0] == '+' then r.(new_ := r.new_ + rendered)
      else r
  }

  function ReadLines(r: Reader, lines: seq<string>): Reader
    decreases |lines|
  {
    if lines == [] then r else ReadLines(ReadLine(r, lines[0]), lines[1..])
  }

  function Flush(r: Reader): seq<Hunk> {
    if r.inHunk then r.done + [Hunk(r.old_, r.new_)] else r.done
  }

  function ParseHunks(lines: seq<string>): seq<Hunk> {
    Flush(ReadLines(NOTHING_READ, lines))
  }

  // ---------------------------------------------------------------- applying hunks

  /** Where a block is replaced: first at or after the cursor, else anywhere. */
  function Place(text: string, block: string, cursor: nat): (r: Option<nat>)
    ensures r.Some? ==> r.value + |block| <= |text|
  {
    var idx := Find(text, block, cursor);
    if idx.Some? then idx else Find(text, block, 0)
  }

  function Replace(text: string, idx: nat, h: Hunk): string
    requires idx + |h.old_| <= |text|
  {
    text[..idx] + h.new_ + text[idx + |h.old_|..]
  }

  /** The text after the hunks, in order; hunks with no old block are passed over. */
  function ApplyHunks(text: string, cursor: nat, hunks: seq<Hunk>): Option<string>
    decreases |hunks|
  {
    if hunks == [] then Some(text)
    else if hunks[0].old_ == "" then ApplyHunks(text, cursor, hunks[1..])
    else
      var idx := Place(text, hunks[0].old_, cursor);
      if idx.None? then None
      else ApplyHunks(Replace(text, idx.value, hunks[0]), idx.value + |hunks[0].new_|, hunks[1..])
  }

  predicate SomeOld(hunks: seq<Hunk>) {
    hunks != [] && (hunks[0].old_ != "" || SomeOld(hunks[1..]))
  }

  /** What the file is overwritten with, or nothing if the patch is refused. */
  function ApplyPatch(lines: seq<string>, file: Option<string>): Option<string> {
    var hunks := ParseHunks(lines);
    if file.None? || !SomeOld(hunks) then None else ApplyHunks(file.value, 0, hunks)
  }

  method ApplyPatchByHunkReplacement(lines: seq<string>, file: Option<string>) returns (written: Option<string>)
    ensures written == ApplyPatch(lines, file)
  {
    var hunks := CollectHunks(lines);
    if |hunks| == 0 || file.None? {
      return None;
    }
    var text := file.value;
    var cursor: nat := 0;
    var applied: nat := 0;
    for i := 0 to |hunks|
      invariant ApplyHunks(text, cursor, hunks[i..]) == ApplyHunks(file.value, 0, hunks)
      invariant SomeOld(hunks) <==> applied > 0 || SomeOld(hunks[i..])
    {
      var h := hunks[i];
      assert hunks[i..][0] == h && hunks[i..][1..] == hunks[i + 1..];
      if h.old_ == "" {
        continue;
      }
      var idx := FindPlace(text, h.old_, cursor);
      if idx.None? {
        return None;
      }
      text := text[..idx.value] + h.new_ + text[idx.value + |h.old_|..];
      cursor := idx.value + |h.new_|;
      applied := applied + 1;
    }
    if applied == 0 {
      return None;
    }
    return Some(text);
  }

  method FindPlace(text: string, block: string, cursor: nat) returns (idx: Option<nat>)
    ensures idx == Place(text, block, cursor)
  {
    idx := Find(text, block, cursor);
    if idx.None? {
      idx := Find(text, block, 0);
    }
  }

  method CollectHunks(lines: seq<string>) returns (hunks: seq<Hunk>)
    ensures hunks == ParseHunks(lines)
  {
    hunks := [];
    var inHunk := false;
    var oldLines, newLines := "", "";
    for i := 0 to |lines|
      invariant ReadLines(Reader(hunks, inHunk, oldLines, newLines), lines[i..]) == ReadLines(NOTHING_READ, lines)
    {
      var line := lines[i];
      assert lines[i..][0] == line && lines[i..][1..] == lines[i + 1..];
      if Opening(line, "@@") {
        if inHunk {
          hunks := hunks + [Hunk(oldLines, newLines)];
          oldLines, newLines := "", "";
        }
        inHunk := true;
        continue;
      }
      if !inHunk || FileHeader(line) {
        continue;
      }
      var marker := if line == "" then "" else line[..1];
      var body := if marker == " " || marker == "+" || marker == "-" then line[1..] else line;
      var rendered := body + "\n";
      if marker == " " || marker == "-" {
        oldLines := oldLines + rendered;
      }
      if marker == " " || marker == "+" {
        newLines := newLines + rendered;
      }
    }
    if inHunk {
      hunks := hunks + [Hunk(oldLines, newLines)];
    }
  }

  // ---------------------------------------------------------------- diffs and what they mean

  datatype Line = Context(body: string) | Deleted(body: string) | Added(body: string)

  /** One change: `gap` is the text left alone before it, `title` what follows the at signs. */
  datatype Edit = Edit(gap: string, title: string, lines: seq<Line>)

  function Render(l: Line): string {
    match l
    case Context(b) => [' '] + b
    case Deleted(b) => ['-'] + b
    case Added(b) => ['+'] + b
  }

  function RenderLines(ls: seq<Line>): seq<string> {
    if ls == [] then [] else [Render(ls[0])] + RenderLines(ls[1..])
  }

  function RenderEdits(es: seq<Edit>): seq<string> {
    if es == [] then [] else ["@@" + es[0].title] + (RenderLines(es[0].lines) + RenderEdits(es[1..]))
  }

  function OldBlock(ls: seq<Line>): string {
    if ls == [] then "" else (if ls[0].Added? then "" else ls[0].body + "\n") + OldBlock(ls[1..])
  }

  function NewBlock(ls: seq<Line>): string {
    if ls == [] then "" else (if ls[0].Deleted? then "" else ls[0].body + "\n") + NewBlock(ls[1..])
  }

  function BlocksOf(es: seq<Edit>): seq<Hunk> {
    if es == [] then [] else [Hunk(OldBlock(es[0].lines), NewBlock(es[0].lines))] + BlocksOf(es[1..])
  }

  /** The file the diff was taken from. */
  function Before(es: seq<Edit>, tail: string): string {
    if es == [] then tail else es[0].gap + OldBlock(es[0].lines) + Before(es[1..], tail)
  }

  /** The file it leads to. */
  function After(es: seq<Edit>, tail: string): string {
    if es == [] then tail else es[0].gap + NewBlock(es[0].lines) + After(es[1..], tail)
  }

  predicate PureInsertion(e: Edit) {
    OldBlock(e.lines) == "" && NewBlock(e.lines) != ""
  }

  /** The same without the changes that only insert. */
  function Written(es: seq<Edit>, tail: string): string {
    if es == [] then tail
    else es[0].gap + (if PureInsertion(es[0]) then "" else NewBlock(es[0].lines)) + Written(es[1..], tail)
  }

  // ---------------------------------------------------------------- reading inverts rendering

  /** A line that the reader takes for a file header. */
  predicate Misread(l: Line) {
    (l.Deleted? && Opening(l.body, "-- ")) || (l.Added? && Opening(l.body, "++ "))
  }

  predicate NoneMisread(ls: seq<Line>) {
    forall k :: 0 <= k < |ls| ==> !Misread(ls[k])
  }

  lemma PrefixTail(marker: char, body: string, prefix: string)
    ensures Opening([marker] + body, prefix) <==>
            prefix == "" || (prefix[0] == marker && Opening(body, prefix[1..]))
  {
    var s := [marker] + body;
    if prefix != "" && |prefix| <= |s| {
      assert s[..|prefix|] == [marker] + body[..|prefix| - 1];
    }
  }

  lemma HeaderIffMisread(l: Line)
    ensures FileHeader(Render(l)) <==> Misread(l)
    ensures !Opening(Render(l), "@@")
  {
    var marker := Render(l)[0];
    PrefixTail(marker, l.body, "--- ");
    PrefixTail(marker, l.body, "+++ ");
    PrefixTail(marker, l.body, "diff --git ");
    PrefixTail(marker, l.body, "@@");
    assert "--- "[1..] == "-- " && "+++ "[1..] == "++ ";
  }

  /** What a hunk body adds to the reader, misread lines left out. */
  function Kept(ls: seq<Line>): seq<Line> {
    if ls == [] then [] else (if Misread(ls[0]) then [] else [ls[0]]) + Kept(ls[1..])
  }

  lemma {:induction false} ReadBody(r: Reader, ls: seq<Line>, rest: seq<string>)
    requires r.inHunk
    ensures ReadLines(r, RenderLines(ls) + rest) ==
            ReadLines(r.(old_ := r.old_ + OldBlock(Kept(ls)), new_ := r.new_ + NewBlock(Kept(ls))), rest)
    decreases |ls|
  {
    if ls == [] {
      assert RenderLines(ls) + rest == rest;
      assert r.old_ + "" == r.old_ && r.new_ + "" == r.new_;
    } else {
      var line := Render(ls[0]);
      HeaderIffMisread(ls[0]);
      assert line[1..] == ls[0].body;
      assert (RenderLines(ls) + rest)[1..] == RenderLines(ls[1..]) + rest;
      var r' := ReadLine(r, line);
      ReadBody(r', ls[1..], rest);
      if !Misread(ls[0]) {
        assert Kept(ls)[0] == ls[0] && Kept(ls)[1..] == Kept(ls[1..]);
      }
      BlockStep(r, ls);
    }
  }

  lemma BlockStep(r: Reader, ls: seq<Line>)
    requires ls != [] && r.inHunk
    ensures var r' := ReadLine(r, Render(ls[0]));
      && r'.old_ + OldBlock(Kept(ls[1..])) == r.old_ + OldBlock(Kept(ls))
      && r'.new_ + NewBlock(Kept(ls[1..])) == r.new_ + NewBlock(Kept(ls))
      && r' == r.(old_ := r'.old_, new_ := r'.new_)
  {
    var l, more := ls[0], Kept(ls[1..]);
    HeaderIffMisread(l);
    assert Render(l)[1..] == l.body;
    if Misread(l) {
      assert Kept(ls) == more;
    } else {
      assert Kept(ls)[0] == l && Kept(ls)[1..] == more;
      KeptStep(r, l, OldBlock(more), NewBlock(more));
    }
  }

  lemma KeptStep(r: Reader, l: Line, a: string, b: string)
    requires r.inHunk && !Misread(l)
    ensures var r' := ReadLine(r, Render(l));
      && r'.old_ + a == r.old_ + ((if l.Added? then "" else l.body + "\n") + a)
      && r'.new_ + b == r.new_ + ((if l.Deleted? then "" else l.body + "\n") + b)
      && r' == r.(old_ := r'.old_, new_ := r'.new_)
  {
    HeaderIffMisread(l);
    assert Render(l)[1..] == l.body;
  }

  function KeptHunks(es: seq<Edit>): seq<Hunk> {
    if es == [] then [] else [Hunk(OldBlock(Kept(es[0].lines)), NewBlock(Kept(es[0].lines)))] + KeptHunks(es[1..])
  }

  lemma ReadEdit(r: Reader, e: Edit, rest: seq<string>)
    requires !r.inHunk ==> r.old_ == "" && r.new_ == ""
    ensures ReadLines(r, ["@@" + e.title] + (RenderLines(e.lines) + rest)) ==
            ReadLines(Reader(Flush(r), true, OldBlock(Kept(e.lines)), NewBlock(Kept(e.lines))), rest)
  {
    var open := Reader(Flush(r), true, "", "");
    var lines := RenderLines(e.lines) + rest;
    assert (["@@" + e.title] + lines)[1..] == lines;
    assert ReadLine(r, "@@" + e.title) == open;
    ReadBody(open, e.lines, rest);
    assert "" + OldBlock(Kept(e.lines)) == OldBlock(Kept(e.lines));
    assert "" + NewBlock(Kept(e.lines)) == NewBlock(Kept(e.lines));
  }

  lemma {:induction false} ReadEdits(r: Reader, es: seq<Edit>)
    requires !r.inHunk ==> r.old_ == "" && r.new_ == ""
    ensures Flush(ReadLines(r, RenderEdits(es))) == Flush(r) + KeptHunks(es)
    decreases |es|
  {
    if es != [] {
      var kept := Hunk(OldBlock(Kept(es[0].lines)), NewBlock(Kept(es[0].lines)));
      var read := Reader(Flush(r), true, kept.old_, kept.new_);
      ReadEdit(r, es[0], RenderEdits(es[1..]));
      ReadEdits(read, es[1..]);
      assert Flush(read) + KeptHunks(es[1..]) == Flush(r) + KeptHunks(es);
    }
  }

  /** Lines before the first at signs are skipped. */
  lemma {:induction false} ReadHeader(header: seq<string>, rest: seq<string>)
    requires forall k :: 0 <= k < |header| ==> !Opening(header[k], "@@")
    ensures ReadLines(NOTHING_READ, header + rest) == ReadLines(NOTHING_READ, rest)
    decreases |header|
  {
    if header == [] {
      assert header + rest == rest;
    } else {
      assert (header + rest)[1..] == header[1..] + rest;
      ReadHeader(header[1..], rest);
    }
  }

  predicate Legible(es: seq<Edit>) {
    forall k :: 0 <= k < |es| ==> NoneMisread(es[k].lines)
  }

  lemma {:induction false} KeptLength(ls: seq<Line>)
    ensures |OldBlock(Kept(ls))| <= |OldBlock(ls)| && |NewBlock(Kept(ls))| <= |NewBlock(ls)|
    ensures NoneMisread(ls) ==> Kept(ls) == ls
    ensures !NoneMisread(ls) ==>
              |OldBlock(Kept(ls))| + |NewBlock(Kept(ls))| < |OldBlock(ls)| + |NewBlock(ls)|
  {
    if ls != [] {
      KeptLength(ls[1..]);
      if Misread(ls[0]) {
        assert Kept(ls) == Kept(ls[1..]);
      } else {
        assert Kept(ls)[1..] == Kept(ls[1..]);
      }
      assert ls == [ls[0]] + ls[1..];
    }
  }

  lemma {:induction false} KeptHunksIff(es: seq<Edit>)
    ensures KeptHunks(es) == BlocksOf(es) <==> Legible(es)
  {
    if es != [] {
      KeptHunksIff(es[1..]);
      KeptLength(es[0].lines);
      assert KeptHunks(es)[1..] == KeptHunks(es[1..]) && BlocksOf(es)[1..] == BlocksOf(es[1..]);
      assert es == [es[0]] + es[1..];
      assert Legible(es) <==> NoneMisread(es[0].lines) && Legible(es[1..]);
    }
  }

  /** A rendered diff reads back as the blocks it was rendered from exactly when no deleted line
      starts with two dashes and a space and no added line with two pluses and a space. */
  lemma ParsingInvertsRendering(header: seq<string>, es: seq<Edit>)
    requires forall k :: 0 <= k < |header| ==> !Opening(header[k], "@@")
    ensures ParseHunks(header + RenderEdits(es)) == BlocksOf(es) <==> Legible(es)
  {
    ReadHeader(header, RenderEdits(es));
    ReadEdits(NOTHING_READ, es);
    KeptHunksIff(es);
  }

  /** Inside a hunk, file headers, empty lines and lines without a marker are passed over; the hunk stays open. */
  lemma PassedOver(r: Reader, line: string)
    requires r.inHunk && !Opening(line, "@@")
    requires FileHeader(line) || line == "" || (line[0] != ' ' && line[0] != '+' && line[0] != '-')
    ensures ReadLine(r, line) == r
  {
  }

  // ---------------------------------------------------------------- applying inverts taking the diff

  predicate FirstAfter(lead: string, ahead: string, block: string) {
    forall k :: 0 <= k < |lead| ==> !StartsAt(ahead, k, block)
  }

  /** Every block with old lines first occurs, counting from the end of the one before it, where the
      diff says it is. This is about the unchanged file only. */
  predicate Located(skipped: string, es: seq<Edit>, tail: string)
    decreases |es|
  {
    if es == [] then true
    else
      var block := OldBlock(es[0].lines);
      if block == "" then Located(skipped + es[0].gap, es[1..], tail)
      else
        var ahead := skipped + es[0].gap + (block + Before(es[1..], tail));
        FirstAfter(skipped + es[0].gap, ahead, block) && Located("", es[1..], tail)
  }

  /** Searching from the cursor sees only what is ahead of it. */
  lemma FindAhead(done: string, lead: string, block: string, rest: string)
    requires FirstAfter(lead, lead + (block + rest), block)
    ensures Place(done + (lead + (block + rest)), block, |done|) == Some(|done| + |lead|)
  {
    var ahead := lead + (block + rest);
    assert ahead[|lead|..|lead| + |block|] == block;
    assert StartsAt(ahead, |lead|, block);
    StartsShift(done, ahead, |lead|, block);
    forall j | |done| <= j < |done| + |lead| ensures !StartsAt(done + ahead, j, block) {
      StartsShift(done, ahead, j - |done|, block);
    }
    FindExact(done + ahead, block, |done|, |done| + |lead|);
  }

  lemma StartsShift(done: string, ahead: string, k: nat, block: string)
    ensures StartsAt(done + ahead, |done| + k, block) <==> StartsAt(ahead, k, block)
  {
    if k + |block| <= |ahead| {
      assert (done + ahead)[|done| + k..|done| + k + |block|] == ahead[k..k + |block|];
    }
  }

  lemma ApplyFirst(done: string, lead: string, h: Hunk, later: string, hunks: seq<Hunk>)
    requires h.old_ != "" && FirstAfter(lead, lead + (h.old_ + later), h.old_)
    ensures var done' := done + lead + h.new_;
      ApplyHunks(done + (lead + (h.old_ + later)), |done|, [h] + hunks) ==
      ApplyHunks(done' + ("" + later), |done'|, hunks)
  {
    FindAhead(done, lead, h.old_, later);
    ReplaceAhead(done, lead, h, later);
    ApplyHeadTo(done + (lead + (h.old_ + later)), |done|, h, hunks, |done| + |lead|,
                done + lead + h.new_ + ("" + later), |done + lead + h.new_|);
  }

  lemma ApplyHeadTo(text: string, cursor: nat, h: Hunk, hunks: seq<Hunk>, idx: nat, next: string, at: nat)
    requires h.old_ != "" && Place(text, h.old_, cursor) == Some(idx)
    requires Replace(text, idx, h) == next && at == idx + |h.new_|
    ensures ApplyHunks(text, cursor, [h] + hunks) == ApplyHunks(next, at, hunks)
  {
    ApplyHead(text, cursor, h, hunks, idx);
  }

  lemma ApplyHead(text: string, cursor: nat, h: Hunk, hunks: seq<Hunk>, idx: nat)
    requires h.old_ != "" && Place(text, h.old_, cursor) == Some(idx)
    ensures ApplyHunks(text, cursor, [h] + hunks) == ApplyHunks(Replace(text, idx, h), idx + |h.new_|, hunks)
  {
    assert ([h] + hunks)[1..] == hunks;
  }

  lemma {:induction false} ApplyAhead(done: string, skipped: string, es: seq<Edit>, tail: string)
    requires Located(skipped, es, tail)
    ensures ApplyHunks(done + (skipped + Before(es, tail)), |done|, BlocksOf(es)) ==
            Some(done + (skipped + Written(es, tail)))
    decreases |es|
  {
    if es != [] {
      var e := es[0];
      var h := Hunk(OldBlock(e.lines), NewBlock(e.lines));
      var later, written := Before(es[1..], tail), Written(es[1..], tail);
      if h.old_ == "" {
        ApplyAhead(done, skipped + e.gap, es[1..], tail);
        RegroupNone(skipped, e.gap, later);
        RegroupNone(skipped, e.gap, written);
        ApplySkipped(done + (skipped + Before(es, tail)), |done|, h, BlocksOf(es[1..]));
      } else {
        ApplyAhead(done + (skipped + e.gap) + h.new_, "", es[1..], tail);
        ApplyStep(done, skipped, e.gap, h, later, written, BlocksOf(es[1..]));
      }
    }
  }

  lemma ApplyStep(done: string, skipped: string, gap: string, h: Hunk, later: string, written: string, hunks: seq<Hunk>)
    requires h.old_ != "" && FirstAfter(skipped + gap, skipped + gap + (h.old_ + later), h.old_)
    requires var done' := done + (skipped + gap) + h.new_;
      ApplyHunks(done' + ("" + later), |done'|, hunks) == Some(done' + ("" + written))
    ensures ApplyHunks(done + (skipped + (gap + h.old_ + later)), |done|, [h] + hunks) ==
            Some(done + (skipped + (gap + h.new_ + written)))
  {
    ApplyFirst(done, skipped + gap, h, later, hunks);
    RegroupOld(skipped, gap, h.old_, later);
    Regroup(done, skipped, gap, h.new_, written);
  }

  lemma RegroupNone(skipped: string, gap: string, rest: string)
    ensures skipped + (gap + "" + rest) == skipped + gap + rest
  {
  }

  lemma ApplySkipped(text: string, cursor: nat, h: Hunk, hunks: seq<Hunk>)
    requires h.old_ == ""
    ensures ApplyHunks(text, cursor, [h] + hunks) == ApplyHunks(text, cursor, hunks)
  {
    assert ([h] + hunks)[1..] == hunks;
  }

  lemma RegroupOld(skipped: string, gap: string, block: string, rest: string)
    ensures skipped + (gap + block + rest) == skipped + gap + (block + rest)
  {
  }

  lemma ReplaceAhead(done: string, lead: string, h: Hunk, later: string)
    ensures Replace(done + (lead + (h.old_ + later)), |done| + |lead|, h) == done + lead + h.new_ + ("" + later)
  {
    var text := done + (lead + (h.old_ + later));
    assert text[..|done| + |lead|] == done + lead;
    assert text[|done| + |lead| + |h.old_|..] == later;
  }

  lemma Regroup(done: string, skipped: string, gap: string, block: string, rest: string)
    ensures done + (skipped + (gap + block + rest)) == done + (skipped + gap) + block + ("" + rest)
  {
  }

  lemma {:induction false} WrittenIff(es: seq<Edit>, tail: string)
    ensures |Written(es, tail)| <= |After(es, tail)|
    ensures Written(es, tail) == After(es, tail) <==> forall k :: 0 <= k < |es| ==> !PureInsertion(es[k])
  {
    if es != [] {
      WrittenIff(es[1..], tail);
      assert es == [es[0]] + es[1..];
      var e := es[0];
      if PureInsertion(e) {
        assert PureInsertion(es[0]);
      } else {
        var lead := e.gap + NewBlock(e.lines);
        assert After(es, tail)[|lead|..] == After(es[1..], tail);
        assert Written(es, tail)[|lead|..] == Written(es[1..], tail);
      }
    }
  }

  lemma {:induction false} SomeOldOf(es: seq<Edit>)
    ensures SomeOld(BlocksOf(es)) <==> exists k :: 0 <= k < |es| && OldBlock(es[k].lines) != ""
    ensures |BlocksOf(es)| == |es| && forall k :: 0 <= k < |es| ==>
              BlocksOf(es)[k] == Hunk(OldBlock(es[k].lines), NewBlock(es[k].lines))
  {
    if es != [] {
      SomeOldOf(es[1..]);
    }
  }

  /** Round trip: a diff applied to the file it was taken from gives the file it leads to, exactly when
      no change is a pure insertion; those are silently dropped, and the rest still applied. */
  lemma HunkRoundTrip(header: seq<string>, es: seq<Edit>, tail: string)
    requires forall k :: 0 <= k < |header| ==> !Opening(header[k], "@@")
    requires Legible(es) && Located("", es, tail)
    requires exists k :: 0 <= k < |es| && OldBlock(es[k].lines) != ""
    ensures ApplyPatch(header + RenderEdits(es), Some(Before(es, tail))) == Some(Written(es, tail))
    ensures ApplyPatch(header + RenderEdits(es), Some(Before(es, tail))) == Some(After(es, tail)) <==>
            forall k :: 0 <= k < |es| ==> !PureInsertion(es[k])
  {
    ParsingInvertsRendering(header, es);
    SomeOldOf(es);
    ApplyAhead("", "", es, tail);
    assert "" + ("" + Before(es, tail)) == Before(es, tail);
    assert "" + ("" + Written(es, tail)) == Written(es, tail);
    WrittenIff(es, tail);
  }

  /** A pure insertion next to another change is lost while the patch still counts as applied. */
  lemma InsertionIsLost() returns (es: seq<Edit>)
    ensures Legible(es) && Located("", es, "")
    ensures Before(es, "") == "b\n" && After(es, "") == "a\nb\n"
    ensures ApplyPatch(RenderEdits(es), Some(Before(es, ""))) == Some("b\n")
  {
    var added, kept := [Added("a")], [Context("b")];
    es := [Edit("", "", added), Edit("", "", kept)];
    assert added[1..] == [] && kept[1..] == [] && es[1..] == [es[1]] && [es[1]][1..] == [];
    assert OldBlock(added) == "" && NewBlock(added) == "a\n" && OldBlock(kept) == NewBlock(kept) == "b\n";
    assert !Misread(added[0]) && !Misread(kept[0]);
    assert Located("", [es[1]], "");
    assert Before([es[1]], "") == After([es[1]], "") == Written([es[1]], "") == "b\n";
    assert OldBlock(es[1].lines) != "";
    HunkRoundTrip([], es, "");
    assert [] + RenderEdits(es) == RenderEdits(es);
  }
}
