/** The line statistics the size guard takes from a diff, and what they say about the file once the diff
    has been applied block by block. */
module HunkStats {
  import opened Wrappers
  import opened Text
  import opened Hunks

  // ---------------------------------------------------------------- counting a diff

  datatype Stat = Stat(added: nat, deleted: nat)

  /** `current` is the file counted for, empty when there is none. `failed` marks a file header
      without a path, which raises. */
  datatype Tally = Tally(current: string, stats: map<string, Stat>, failed: bool)

  const NO_TALLY := Tally("", map[], false)

  datatype Header = NoPath | NoFile | Names(path: string)

  /** What follows the three pluses of a file header, less a leading a/ or b/. */
  function ReadHeader(rest: string): Header {
    var path := LeftStrip(rest);
    if path == "" then NoPath
    else if Strip(path) == "/dev/null" then NoFile
    else if Opening(path, "b/") || Opening(path, "a/") then Names(Strip(path[2..]))
    else Names(Strip(path))
  }

  function OpenFile(t: Tally, h: Header): Tally {
    match h
    case NoPath => t.(failed := true)
    case NoFile => t.(current := "")
    case Names(path) => Tally(path, if path in t.stats then t.stats else t.stats[path := Stat(0, 0)], t.failed)
  }

  function Bump(s: Stat, line: string): Stat {
    if Opening(line, "+") then s.(added := s.added + 1)
    else if Opening(line, "-") then s.(deleted := s.deleted + 1)
    else s
  }

  function CountLine(t: Tally, line: string): Tally {
    if t.failed then t
    else if Opening(line, "+++ ") then OpenFile(t, ReadHeader(line[4..]))
    else if t.current == "" || t.current !in t.stats || Opening(line, "+++") || Opening(line, "---") then t
    else t.(stats := t.stats[t.current := Bump(t.stats[t.current], line)])
  }

  function CountLines(t: Tally, lines: seq<string>): Tally
    decreases |lines|
  {
    if lines == [] then t else CountLines(CountLine(t, lines[0]), lines[1..])
  }

  method ParsePatchFileStats(lines: seq<string>) returns (stats: Option<map<string, Stat>>)
    ensures var t := CountLines(NO_TALLY, lines); stats == if t.failed then None else Some(t.stats)
  {
    var all: map<string, Stat> := map[];
    var current := "";
    for i := 0 to |lines|
      invariant CountLines(Tally(current, all, false), lines[i..]) == CountLines(NO_TALLY, lines)
      invariant current != "" ==> current in all
    {
      var line := lines[i];
      assert lines[i..][0] == line && lines[i..][1..] == lines[i + 1..];
      if Opening(line, "+++ ") {
        var path := LeftStrip(line[4..]);
        if path == "" {
          StaysFailed(Tally(current, all, true), lines[i + 1..]);
          return None;
        }
        if Strip(path) == "/dev/null" {
          current := "";
          continue;
        }
        if Opening(path, "b/") || Opening(path, "a/") {
          path := path[2..];
        }
        current := Strip(path);
        if current !in all {
          all := all[current := Stat(0, 0)];
        }
        continue;
      }
      assert current != "" ==> all[current := all[current]] == all;
      if Opening(line, "diff --git") {
        assert line[0] == 'd';
        continue;
      }
      if current != "" && line != "" && (line[0] == '+' || line[0] == '-')
         && !Opening(line, "+++") && !Opening(line, "---") {
        var s := all[current];
        all := all[current := if line[0] == '+' then s.(added := s.added + 1) else s.(deleted := s.deleted + 1)];
      }
    }
    return Some(all);
  }

  lemma {:induction false} StaysFailed(t: Tally, lines: seq<string>)
    requires t.failed
    ensures CountLines(t, lines) == t
    decreases |lines|
  {
    if lines != [] {
      StaysFailed(t, lines[1..]);
    }
  }

  // ---------------------------------------------------------------- line conservation

  function Newlines(s: string): nat {
    if s == "" then 0 else (if s[0] == '\n' then 1 else 0) + Newlines(s[1..])
  }

  /** The lines of a text, the last of which need not be ended. */
  function SplitLines(s: string): seq<string>
    decreases |s|
  {
    if s == "" then []
    else
      var end := Find(s, "\n", 0);
      if end.None? then [s] else [s[..end.value]] + SplitLines(s[end.value + 1..])
  }

  predicate Ragged(s: string) {
    s != "" && s[|s| - 1] != '\n'
  }

  lemma {:induction false} NewlinesConcat(a: string, b: string)
    ensures Newlines(a + b) == Newlines(a) + Newlines(b)
  {
    if a == "" {
      assert a + b == b;
    } else {
      assert (a + b)[1..] == a[1..] + b;
      NewlinesConcat(a[1..], b);
    }
  }

  lemma {:induction false} NoNewlines(s: string)
    requires '\n' !in s
    ensures Newlines(s) == 0
  {
    if s != "" {
      NoNewlines(s[1..]);
    }
  }

  lemma {:induction false} FirstBreak(s: string, from: nat)
    requires from <= |s|
    ensures var r := Find(s, "\n", from);
      && (r.Some? ==> s[r.value] == '\n' && '\n' !in s[from..r.value])
      && (r.None? ==> '\n' !in s[from..])
    decreases |s| - from
  {
    if from < |s| {
      FirstBreak(s, from + 1);
      assert s[from..from + 1] == [s[from]];
      assert StartsAt(s, from, "\n") <==> s[from] == '\n' by {
        assert s[from..from + 1][0] == s[from];
      }
      var r := Find(s, "\n", from + 1);
      if r.Some? {
        assert s[from..r.value] == [s[from]] + s[from + 1..r.value];
      } else {
        assert s[from..] == [s[from]] + s[from + 1..];
      }
    }
  }

  lemma {:induction false} LineCount(s: string)
    ensures |SplitLines(s)| == Newlines(s) + if Ragged(s) then 1 else 0
    decreases |s|
  {
    if s != "" {
      var end := Find(s, "\n", 0);
      FirstBreak(s, 0);
      if end.None? {
        assert s[0..] == s;
        NoNewlines(s);
      } else {
        assert s[0..end.value] == s[..end.value];
        OneLineOff(s, end.value);
        LineCount(s[end.value + 1..]);
      }
    }
  }

  lemma OneLineOff(s: string, end: nat)
    requires end < |s| && s[end] == '\n' && '\n' !in s[..end]
    ensures Newlines(s) == 1 + Newlines(s[end + 1..])
    ensures Ragged(s) <==> Ragged(s[end + 1..])
  {
    var a, b := s[..end], s[end + 1..];
    assert Newlines(s) == Newlines(a) + Newlines(['\n'] + b) by {
      assert s == a + (['\n'] + b);
      NewlinesConcat(a, ['\n'] + b);
    }
    NoNewlines(a);
    assert (['\n'] + b)[1..] == b;
    if b != "" {
      assert b[|b| - 1] == s[|s| - 1];
    }
  }

  predicate Ended(block: string) {
    block == "" || block[|block| - 1] == '\n'
  }

  predicate WellEnded(hunks: seq<Hunk>) {
    forall k :: 0 <= k < |hunks| ==> Ended(hunks[k].old_) && Ended(hunks[k].new_)
  }

  function Growth(hunks: seq<Hunk>): int {
    if hunks == [] then 0
    else (if hunks[0].old_ == "" then 0 else Newlines(hunks[0].new_) - Newlines(hunks[0].old_)) + Growth(hunks[1..])
  }

  /** Some hunk of the run deletes a block that starts in the middle of a line and ends the file. */
  predicate CutsLine(text: string, cursor: nat, hunks: seq<Hunk>)
    decreases |hunks|
  {
    if hunks == [] then false
    else if hunks[0].old_ == "" then CutsLine(text, cursor, hunks[1..])
    else
      var idx := Place(text, hunks[0].old_, cursor);
      && idx.Some?
      && (CutsHere(text, idx.value, hunks[0])
          || CutsLine(Replace(text, idx.value, hunks[0]), idx.value + |hunks[0].new_|, hunks[1..]))
  }

  predicate CutsHere(text: string, idx: nat, h: Hunk) {
    h.new_ == "" && idx + |h.old_| == |text| && 0 < idx <= |text| && text[idx - 1] != '\n'
  }

  lemma PlaceMatches(text: string, block: string, cursor: nat)
    ensures var idx := Place(text, block, cursor); idx.Some? ==> StartsAt(text, idx.value, block)
  {
    FindStarts(text, block, cursor);
    FindStarts(text, block, 0);
  }

  lemma ReplaceGrowth(text: string, idx: nat, h: Hunk)
    requires StartsAt(text, idx, h.old_)
    ensures Newlines(Replace(text, idx, h)) == Newlines(text) + Newlines(h.new_) - Newlines(h.old_)
  {
    var a, b := text[..idx], text[idx + |h.old_|..];
    assert text == a + (h.old_ + b);
    NewlinesConcat(a, h.old_ + b);
    NewlinesConcat(h.old_, b);
    NewlinesConcat(a + h.new_, b);
    NewlinesConcat(a, h.new_);
  }

  lemma ReplaceEnd(text: string, idx: nat, h: Hunk)
    requires StartsAt(text, idx, h.old_) && h.old_ != "" && Ended(h.old_) && Ended(h.new_)
    ensures Ragged(Replace(text, idx, h)) <==> Ragged(text) || CutsHere(text, idx, h)
    ensures Ragged(text) ==> !CutsHere(text, idx, h)
  {
    var next := idx + |h.old_|;
    var r := Replace(text, idx, h);
    assert text[idx..next][|h.old_| - 1] == text[next - 1];
    if next < |text| {
      assert r[|r| - 1] == text[|text| - 1];
    } else if h.new_ != "" {
      assert r[|r| - 1] == h.new_[|h.new_| - 1];
    } else {
      assert r == text[..idx];
    }
  }

  lemma {:induction false} RunGrowth(text: string, cursor: nat, hunks: seq<Hunk>)
    requires ApplyHunks(text, cursor, hunks).Some?
    ensures Newlines(ApplyHunks(text, cursor, hunks).value) == Newlines(text) + Growth(hunks)
    decreases |hunks|
  {
    if hunks != [] {
      var h := hunks[0];
      if h.old_ == "" {
        RunGrowth(text, cursor, hunks[1..]);
      } else {
        var idx := Place(text, h.old_, cursor);
        PlaceMatches(text, h.old_, cursor);
        ReplaceGrowth(text, idx.value, h);
        RunGrowth(Replace(text, idx.value, h), idx.value + |h.new_|, hunks[1..]);
      }
    }
  }

  lemma {:induction false} RunEnd(text: string, cursor: nat, hunks: seq<Hunk>)
    requires WellEnded(hunks) && ApplyHunks(text, cursor, hunks).Some?
    ensures Ragged(ApplyHunks(text, cursor, hunks).value) <==> Ragged(text) || CutsLine(text, cursor, hunks)
    ensures Ragged(text) ==> !CutsLine(text, cursor, hunks)
    decreases |hunks|
  {
    if hunks != [] {
      var h := hunks[0];
      if h.old_ == "" {
        RunEnd(text, cursor, hunks[1..]);
      } else {
        var idx := Place(text, h.old_, cursor);
        assert StartsAt(text, idx.value, h.old_) by {
          PlaceMatches(text, h.old_, cursor);
        }
        ReplaceEnd(text, idx.value, h);
        RunEnd(Replace(text, idx.value, h), idx.value + |h.new_|, hunks[1..]);
      }
    }
  }

  // Diffs of one file.

  function AddedIn(ls: seq<Line>): nat {
    if ls == [] then 0 else (if ls[0].Added? then 1 else 0) + AddedIn(ls[1..])
  }

  function DeletedIn(ls: seq<Line>): nat {
    if ls == [] then 0 else (if ls[0].Deleted? then 1 else 0) + DeletedIn(ls[1..])
  }

  function TotalAdded(es: seq<Edit>): nat {
    if es == [] then 0 else AddedIn(es[0].lines) + TotalAdded(es[1..])
  }

  function TotalDeleted(es: seq<Edit>): nat {
    if es == [] then 0 else DeletedIn(es[0].lines) + TotalDeleted(es[1..])
  }

  /** A line whose rendering cannot be taken for a file header by either reader, and that is one line. */
  predicate PlainLine(l: Line) {
    && '\n' !in l.body
    && !(l.Deleted? && Opening(l.body, "--"))
    && !(l.Added? && Opening(l.body, "++"))
  }

  predicate PlainLines(ls: seq<Line>) {
    forall k :: 0 <= k < |ls| ==> PlainLine(ls[k])
  }

  predicate PlainEdits(es: seq<Edit>) {
    forall k :: 0 <= k < |es| ==> PlainLines(es[k].lines)
  }

  lemma {:induction false} BlockGrowth(ls: seq<Line>)
    requires PlainLines(ls)
    ensures Newlines(NewBlock(ls)) - Newlines(OldBlock(ls)) == AddedIn(ls) - DeletedIn(ls)
    ensures Ended(OldBlock(ls)) && Ended(NewBlock(ls))
  {
    if ls != [] {
      BlockGrowth(ls[1..]);
      var line := ls[0].body + "\n";
      NoNewlines(ls[0].body);
      NewlinesConcat(ls[0].body, "\n");
      assert Newlines("\n") == 1 by {
        assert "\n"[1..] == "";
      }
      NewlinesConcat(line, OldBlock(ls[1..]));
      NewlinesConcat(line, NewBlock(ls[1..]));
      assert "" + OldBlock(ls[1..]) == OldBlock(ls[1..]) && "" + NewBlock(ls[1..]) == NewBlock(ls[1..]);
      EndedConcat(line, OldBlock(ls[1..]));
      EndedConcat(line, NewBlock(ls[1..]));
    }
  }

  lemma EndedConcat(a: string, b: string)
    requires Ended(a) && Ended(b)
    ensures Ended(a + b)
  {
    if b == "" {
      assert a + b == a;
    }
  }

  predicate AllOld(es: seq<Edit>) {
    forall k :: 0 <= k < |es| ==> OldBlock(es[k].lines) != ""
  }

  lemma {:induction false} EditGrowth(es: seq<Edit>)
    requires PlainEdits(es) && AllOld(es)
    ensures Growth(BlocksOf(es)) == TotalAdded(es) - TotalDeleted(es)
    ensures WellEnded(BlocksOf(es))
  {
    if es != [] {
      EditGrowth(es[1..]);
      BlockGrowth(es[0].lines);
      assert BlocksOf(es)[1..] == BlocksOf(es[1..]);
      SomeOldOf(es[1..]);
    }
  }

  predicate Counting(t: Tally) {
    !t.failed && t.current != "" && t.current in t.stats
  }

  function Grown(t: Tally, added: nat, deleted: nat): (r: Tally)
    requires Counting(t)
    ensures Counting(r)
  {
    var s := t.stats[t.current];
    t.(stats := t.stats[t.current := Stat(s.added + added, s.deleted + deleted)])
  }

  lemma GrownTwice(t: Tally, a: nat, d: nat, a': nat, d': nat)
    requires Counting(t)
    ensures Grown(Grown(t, a, d), a', d') == Grown(t, a + a', d + d')
  {
  }

  lemma GrownNone(t: Tally)
    requires Counting(t)
    ensures Grown(t, 0, 0) == t
  {
    assert t.stats[t.current := t.stats[t.current]] == t.stats;
  }

  lemma CountRendered(t: Tally, l: Line)
    requires Counting(t) && PlainLine(l)
    ensures CountLine(t, Render(l)) == Grown(t, if l.Added? then 1 else 0, if l.Deleted? then 1 else 0)
  {
    var marker := Render(l)[0];
    PrefixTail(marker, l.body, "+++ ");
    PrefixTail(marker, l.body, "+++");
    PrefixTail(marker, l.body, "---");
    PrefixTail(marker, l.body, "+");
    PrefixTail(marker, l.body, "-");
    assert "+++ "[1..] == "++ " && "+++"[1..] == "++" && "---"[1..] == "--" && "+"[1..] == "-"[1..] == "";
    ShorterPrefix(l.body, "++ ", "++");
    if l.Context? {
      GrownNone(t);
    }
  }

  /** What any line of a hunk counts for: added lines that start with two pluses and deleted ones with two dashes are
      not counted, and the first kind opens a file when a space follows. */
  lemma LineCountsFor(t: Tally, l: Line)
    requires Counting(t)
    ensures CountLine(t, Render(l)) ==
            if l.Added? && Opening(l.body, "++ ") then OpenFile(t, ReadHeader(l.body[3..]))
            else if l.Context? || (l.Added? && Opening(l.body, "++")) || (l.Deleted? && Opening(l.body, "--")) then t
            else Grown(t, if l.Added? then 1 else 0, if l.Deleted? then 1 else 0)
  {
    var marker := Render(l)[0];
    PrefixTail(marker, l.body, "+++ ");
    PrefixTail(marker, l.body, "+++");
    PrefixTail(marker, l.body, "---");
    PrefixTail(marker, l.body, "+");
    PrefixTail(marker, l.body, "-");
    assert "+++ "[1..] == "++ " && "+++"[1..] == "++" && "---"[1..] == "--" && "+"[1..] == "-"[1..] == "";
    assert Render(l)[1..] == l.body;
    if l.Added? && Opening(l.body, "++ ") {
      assert Render(l)[4..] == l.body[3..];
    }
    if l.Context? {
      GrownNone(t);
    }
  }

  /** After the header of a deleted file nothing is counted until the next file. */
  lemma DeletedUncounted(t: Tally, lines: seq<string>)
    requires !t.failed && forall k :: 0 <= k < |lines| ==> !Opening(lines[k], "+++ ")
    ensures CountLines(t, ["+++ /dev/null"] + lines) == t.(current := "")
  {
    var line := "+++ /dev/null";
    DeletedPath();
    assert Opening(line, "+++ ") && line[4..] == "/dev/null";
    CountFirst(t, line, lines);
    NoFileNoCount(t.(current := ""), lines);
  }

  lemma {:induction false} NoFileNoCount(t: Tally, lines: seq<string>)
    requires t.current == "" && !t.failed && forall k :: 0 <= k < |lines| ==> !Opening(lines[k], "+++ ")
    ensures CountLines(t, lines) == t
    decreases |lines|
  {
    if lines != [] {
      NoFileNoCount(t, lines[1..]);
    }
  }

  lemma ShorterPrefix(s: string, long: string, short: string)
    requires short <= long
    ensures Opening(s, long) ==> Opening(s, short)
  {
  }

  lemma {:induction false} CountBody(t: Tally, ls: seq<Line>, rest: seq<string>)
    requires Counting(t) && PlainLines(ls)
    ensures CountLines(t, RenderLines(ls) + rest) == CountLines(Grown(t, AddedIn(ls), DeletedIn(ls)), rest)
    decreases |ls|
  {
    if ls == [] {
      assert RenderLines(ls) + rest == rest;
      GrownNone(t);
    } else {
      var l := ls[0];
      var a: nat, d: nat := if l.Added? then 1 else 0, if l.Deleted? then 1 else 0;
      CountRendered(t, l);
      assert (RenderLines(ls) + rest)[1..] == RenderLines(ls[1..]) + rest;
      CountBody(Grown(t, a, d), ls[1..], rest);
      GrownTwice(t, a, d, AddedIn(ls[1..]), DeletedIn(ls[1..]));
    }
  }

  lemma CountFirst(t: Tally, line: string, rest: seq<string>)
    ensures CountLines(t, [line] + rest) == CountLines(CountLine(t, line), rest)
  {
    assert ([line] + rest)[1..] == rest;
  }

  lemma {:induction false} CountEdits(t: Tally, es: seq<Edit>)
    requires Counting(t) && PlainEdits(es)
    ensures CountLines(t, RenderEdits(es)) == Grown(t, TotalAdded(es), TotalDeleted(es))
    decreases |es|
  {
    if es == [] {
      GrownNone(t);
    } else {
      var a, d := AddedIn(es[0].lines), DeletedIn(es[0].lines);
      var body, rest := RenderLines(es[0].lines), RenderEdits(es[1..]);
      assert CountLines(t, RenderEdits(es)) == CountLines(t, body + rest) by {
        TitleUncounted(t, es[0].title);
        CountFirst(t, "@@" + es[0].title, body + rest);
      }
      assert CountLines(t, body + rest) == CountLines(Grown(t, a, d), rest) by {
        CountBody(t, es[0].lines, rest);
      }
      CountEdits(Grown(t, a, d), es[1..]);
      GrownTwice(t, a, d, TotalAdded(es[1..]), TotalDeleted(es[1..]));
    }
  }

  lemma TitleUncounted(t: Tally, title: string)
    ensures CountLine(t, "@@" + title) == t
  {
    var line := "@@" + title;
    assert line[0] == '@' && "+++ "[0] == '+';
    if Counting(t) {
      GrownNone(t);
    }
  }

  function HeaderOf(path: string): seq<string> {
    ["diff --git a/" + path + " b/" + path, "--- a/" + path, "+++ b/" + path]
  }

  lemma HeaderSetsPath(path: string)
    requires path != "" && Strip(path) == path
    ensures CountLines(NO_TALLY, HeaderOf(path)) == Tally(path, map[path := Stat(0, 0)], false)
    ensures forall k :: 0 <= k < 3 ==> !Opening(HeaderOf(path)[k], "@@")
  {
    var h, named := HeaderOf(path), Tally(path, map[path := Stat(0, 0)], false);
    assert h[0][0] == 'd' && h[1][0] == '-' && h[2][0] == '+' && "+++ "[0] == '+' && "@@"[0] == '@';
    assert CountLine(NO_TALLY, h[0]) == NO_TALLY && CountLine(NO_TALLY, h[1]) == NO_TALLY;
    PathLineCounts(path);
    assert h[2..] == [h[2]] && [h[2]][1..] == [];
    assert CountLines(NO_TALLY, h[2..]) == CountLines(named, []) == named;
    assert h[1..][1..] == h[2..] && CountLines(NO_TALLY, h[1..]) == CountLines(NO_TALLY, h[2..]);
  }

  lemma PathLineCounts(path: string)
    requires path != "" && Strip(path) == path
    ensures CountLine(NO_TALLY, "+++ b/" + path) == Tally(path, map[path := Stat(0, 0)], false)
  {
    var line := "+++ b/" + path;
    HeaderPath(path);
    assert Opening(line, "+++ ") && line[4..] == "b/" + path;
    var none: map<string, Stat> := map[];
    assert none[path := Stat(0, 0)] == map[path := Stat(0, 0)];
  }

  lemma HeaderPath(path: string)
    requires path != "" && Strip(path) == path
    ensures ReadHeader("b/" + path) == Names(path)
  {
    var named := "b/" + path;
    assert named[0] == 'b' && !IsSpace('b');
    assert LeftStrip(named) == named;
    assert named[2..] == path;
    assert RightStrip(named) <= named;
    assert "/dev/null"[0] == '/';
  }

  lemma {:induction false} CountConcat(t: Tally, a: seq<string>, b: seq<string>)
    ensures CountLines(t, a + b) == CountLines(CountLines(t, a), b)
    decreases |a|
  {
    if a == [] {
      assert a + b == b;
    } else {
      assert (a + b)[1..] == a[1..] + b;
      CountConcat(CountLine(t, a[0]), a[1..], b);
    }
  }

  /** How a file header names its file: with the prefix of either side or with none; a deleted file counts for
      nothing, and a header without a path fails. */
  lemma HeaderReadings(path: string)
    requires path != "" && Strip(path) == path
    ensures ReadHeader("b/" + path) == Names(path) && ReadHeader("a/" + path) == Names(path)
    ensures !Opening(path, "a/") && !Opening(path, "b/") && path != "/dev/null" ==> ReadHeader(path) == Names(path)
    ensures ReadHeader("/dev/null") == NoFile
    ensures forall s :: Blank(s) ==> ReadHeader(s) == NoPath
  {
    HeaderPath(path);
    SidePath(path);
    VisiblePath(path);
    DeletedPath();
    forall s | Blank(s) ensures ReadHeader(s) == NoPath {
      LeftStripBlank(s);
    }
  }

  lemma VisiblePath(path: string)
    requires path != "" && Strip(path) == path
    ensures LeftStrip(path) == path
  {
    assert RightStrip(LeftStrip(path)) <= LeftStrip(path);
    LeftStripShrinks(path);
  }

  lemma {:induction false} LeftStripShrinks(s: string)
    ensures |LeftStrip(s)| <= |s|
    ensures |LeftStrip(s)| == |s| ==> LeftStrip(s) == s
  {
    if s != "" && IsSpace(s[0]) {
      LeftStripShrinks(s[1..]);
    }
  }

  lemma SidePath(path: string)
    requires path != "" && Strip(path) == path
    ensures ReadHeader("a/" + path) == Names(path)
  {
    var named := "a/" + path;
    assert named[0] == 'a' && !IsSpace('a');
    assert LeftStrip(named) == named;
    assert named[2..] == path;
    assert RightStrip(named) <= named;
    assert "/dev/null"[0] == '/';
  }

  lemma DeletedPath()
    ensures ReadHeader("/dev/null") == NoFile
  {
    var s := "/dev/null";
    assert s[0] == '/' && s[|s| - 1] == 'l' && !IsSpace('/') && !IsSpace('l');
    assert LeftStrip(s) == s && RightStrip(s) == s;
  }

  // Diffs of several files.

  type FileDiff = (string, seq<Edit>)

  function RenderFiles(fs: seq<FileDiff>): seq<string> {
    if fs == [] then [] else (HeaderOf(fs[0].0) + RenderEdits(fs[0].1)) + RenderFiles(fs[1..])
  }

  predicate PlainFiles(fs: seq<FileDiff>) {
    forall k :: 0 <= k < |fs| ==> fs[k].0 != "" && Strip(fs[k].0) == fs[k].0 && PlainEdits(fs[k].1)
  }

  function AddedTo(fs: seq<FileDiff>, path: string): nat {
    if fs == [] then 0 else (if fs[0].0 == path then TotalAdded(fs[0].1) else 0) + AddedTo(fs[1..], path)
  }

  function DeletedFrom(fs: seq<FileDiff>, path: string): nat {
    if fs == [] then 0 else (if fs[0].0 == path then TotalDeleted(fs[0].1) else 0) + DeletedFrom(fs[1..], path)
  }

  function StatOf(t: Tally, path: string): Stat {
    if path in t.stats then t.stats[path] else Stat(0, 0)
  }

  predicate Between(t: Tally) {
    !t.failed && (t.current == "" || t.current in t.stats)
  }

  lemma HeaderOpens(t: Tally, path: string)
    requires path != "" && Strip(path) == path && Between(t)
    ensures CountLines(t, HeaderOf(path)) == OpenFile(t, Names(path))
  {
    var h := HeaderOf(path);
    assert h[0][0] == 'd' && h[1][0] == '-' && h[2][0] == '+' && "+++ "[0] == '+' && "---"[0] == '-';
    assert CountLine(t, h[0]) == t by {
      if t.current != "" {
        GrownNone(t);
      }
    }
    assert CountLine(t, h[1]) == t;
    assert CountLine(t, h[2]) == OpenFile(t, Names(path)) by {
      HeaderPath(path);
      assert Opening(h[2], "+++ ") && h[2][4..] == "b/" + path;
    }
    assert h[2..] == [h[2]] && [h[2]][1..] == [];
    assert CountLines(t, h[2..]) == CountLine(t, h[2]);
    assert h[1..][1..] == h[2..] && CountLines(t, h[1..]) == CountLines(t, h[2..]);
  }

  lemma OneFileCounted(t: Tally, f: FileDiff, path: string)
    requires Between(t) && f.0 != "" && Strip(f.0) == f.0 && PlainEdits(f.1)
    ensures var u := CountLines(t, HeaderOf(f.0) + RenderEdits(f.1));
      && Between(u)
      && (path in u.stats <==> path in t.stats || path == f.0)
      && StatOf(u, path) ==
           if path == f.0
           then Stat(StatOf(t, path).added + TotalAdded(f.1), StatOf(t, path).deleted + TotalDeleted(f.1))
           else StatOf(t, path)
  {
    CountConcat(t, HeaderOf(f.0), RenderEdits(f.1));
    HeaderOpens(t, f.0);
    CountEdits(OpenFile(t, Names(f.0)), f.1);
  }

  ghost predicate HasChange(fs: seq<FileDiff>, path: string) {
    exists k :: 0 <= k < |fs| && fs[k].0 == path
  }

  lemma ChangeFirstOrLater(fs: seq<FileDiff>, path: string)
    requires fs != []
    ensures HasChange(fs, path) <==> fs[0].0 == path || HasChange(fs[1..], path)
  {
    if k :| 0 <= k < |fs[1..]| && fs[1..][k].0 == path {
      assert fs[k + 1].0 == path;
    }
    if k :| 0 <= k < |fs| && fs[k].0 == path {
      if k > 0 {
        assert fs[1..][k - 1].0 == path;
      }
    }
  }

  /** Every file of a diff gets the lines of its own changes, wherever they stand, and no others. */
  lemma {:induction false} FilesCounted(t: Tally, fs: seq<FileDiff>, path: string)
    requires Between(t) && PlainFiles(fs)
    ensures var u := CountLines(t, RenderFiles(fs));
      && !u.failed
      && (path in u.stats <==> path in t.stats || HasChange(fs, path))
      && StatOf(u, path) ==
           Stat(StatOf(t, path).added + AddedTo(fs, path), StatOf(t, path).deleted + DeletedFrom(fs, path))
    decreases |fs|
  {
    if fs != [] {
      var next := CountLines(t, HeaderOf(fs[0].0) + RenderEdits(fs[0].1));
      OneFileCounted(t, fs[0], path);
      FilesCounted(next, fs[1..], path);
      ChangeFirstOrLater(fs, path);
      assert CountLines(t, RenderFiles(fs)) == CountLines(next, RenderFiles(fs[1..])) by {
        CountConcat(t, HeaderOf(fs[0].0) + RenderEdits(fs[0].1), RenderFiles(fs[1..]));
      }
    }
  }

  /** Line conservation: wherever the blocks of a one-file diff are found, the newlines of the file grow
      by the statistics taken from the diff, and so does its line count exactly when no deletion cuts
      the last line off its start. */
  lemma LineConservation(path: string, es: seq<Edit>, text: string)
    requires path != "" && Strip(path) == path
    requires PlainEdits(es) && AllOld(es)
    requires ApplyPatch(HeaderOf(path) + RenderEdits(es), Some(text)).Some?
    ensures var t := CountLines(NO_TALLY, HeaderOf(path) + RenderEdits(es));
      && !t.failed && path in t.stats
      && var result := ApplyPatch(HeaderOf(path) + RenderEdits(es), Some(text)).value;
      && Newlines(result) == Newlines(text) + t.stats[path].added - t.stats[path].deleted
      && (|SplitLines(result)| == |SplitLines(text)| + t.stats[path].added - t.stats[path].deleted <==>
          !CutsLine(text, 0, BlocksOf(es)))
  {
    HeaderSetsPath(path);
    CountConcat(NO_TALLY, HeaderOf(path), RenderEdits(es));
    CountEdits(CountLines(NO_TALLY, HeaderOf(path)), es);
    PlainIsLegible(es);
    ParsingInvertsRendering(HeaderOf(path), es);
    EditGrowth(es);
    RunGrowth(text, 0, BlocksOf(es));
    RunEnd(text, 0, BlocksOf(es));
    LineCount(text);
    LineCount(ApplyHunks(text, 0, BlocksOf(es)).value);
  }

  lemma PlainIsLegible(es: seq<Edit>)
    requires PlainEdits(es)
    ensures Legible(es)
  {
    forall k, j | 0 <= k < |es| && 0 <= j < |es[k].lines| ensures !Misread(es[k].lines[j]) {
      var l := es[k].lines[j];
      assert PlainLine(l);
      ShorterPrefix(l.body, "-- ", "--");
      ShorterPrefix(l.body, "++ ", "++");
    }
  }

  predicate Aligned(es: seq<Edit>) {
    forall k :: 0 <= k < |es| ==> Ended(es[k].gap)
  }

  lemma {:induction false} AlignedGrowth(es: seq<Edit>, tail: string)
    requires PlainEdits(es) && Aligned(es)
    ensures Newlines(After(es, tail)) - Newlines(Before(es, tail)) == TotalAdded(es) - TotalDeleted(es)
    ensures Ragged(After(es, tail)) == Ragged(Before(es, tail)) == Ragged(tail)
  {
    if es != [] {
      var gap, old_, new_ := es[0].gap, OldBlock(es[0].lines), NewBlock(es[0].lines);
      AlignedGrowth(es[1..], tail);
      BlockGrowth(es[0].lines);
      LeadingLines(gap, old_, Before(es[1..], tail));
      LeadingLines(gap, new_, After(es[1..], tail));
    }
  }

  lemma LeadingLines(gap: string, block: string, rest: string)
    requires Ended(gap) && Ended(block)
    ensures Newlines(gap + block + rest) == Newlines(gap) + Newlines(block) + Newlines(rest)
    ensures Ragged(gap + block + rest) == Ragged(rest)
  {
    NewlinesConcat(gap + block, rest);
    NewlinesConcat(gap, block);
    EndedConcat(gap, block);
    if rest == "" {
      assert gap + block + rest == gap + block;
    }
  }

  /** So a diff of whole lines, applied to its own file, changes the line count by its statistics. */
  lemma AlignedConservation(path: string, es: seq<Edit>, tail: string)
    requires path != "" && Strip(path) == path
    requires PlainEdits(es) && AllOld(es) && Aligned(es) && es != [] && Located("", es, tail)
    ensures var t := CountLines(NO_TALLY, HeaderOf(path) + RenderEdits(es));
      var result := ApplyPatch(HeaderOf(path) + RenderEdits(es), Some(Before(es, tail)));
      && result == Some(After(es, tail)) && path in t.stats
      && |SplitLines(result.value)| == |SplitLines(Before(es, tail))| + t.stats[path].added - t.stats[path].deleted
  {
    HeaderSetsPath(path);
    PlainIsLegible(es);
    assert OldBlock(es[0].lines) != "";
    HunkRoundTrip(HeaderOf(path), es, tail);
    CountConcat(NO_TALLY, HeaderOf(path), RenderEdits(es));
    CountEdits(CountLines(NO_TALLY, HeaderOf(path)), es);
    AlignedGrowth(es, tail);
    LineCount(Before(es, tail));
    LineCount(After(es, tail));
  }

  /** The last change deletes what the file ends with, and the text before that is cut off inside a line. */
  predicate CutsEnd(es: seq<Edit>, tail: string)
    requires es != []
  {
    var last := |es| - 1;
    tail == "" && NewBlock(es[last].lines) == "" && Ragged(After(es[..last], es[last].gap))
  }

  lemma {:induction false} LastChange(es: seq<Edit>, tail: string)
    requires es != []
    ensures var last := |es| - 1;
      && Before(es, tail) == Before(es[..last], es[last].gap + OldBlock(es[last].lines) + tail)
      && After(es, tail) == After(es[..last], es[last].gap + NewBlock(es[last].lines) + tail)
  {
    if |es| > 1 {
      var last := |es| - 1;
      LastChange(es[1..], tail);
      assert es[1..][last - 1] == es[last] && es[1..][..last - 1] == es[..last][1..];
    }
  }

  lemma {:induction false} TailEnds(es: seq<Edit>, tail: string)
    requires tail != ""
    ensures Before(es, tail) != "" && Ragged(Before(es, tail)) == Ragged(tail)
    ensures After(es, tail) != "" && Ragged(After(es, tail)) == Ragged(tail)
  {
    if es != [] {
      TailEnds(es[1..], tail);
    }
  }

  lemma RaggedAfterwards(es: seq<Edit>, tail: string)
    requires es != [] && PlainEdits(es) && AllOld(es)
    ensures Ragged(After(es, tail)) == Ragged(Before(es, tail)) <==> !CutsEnd(es, tail)
  {
    var last := |es| - 1;
    var gap, old_, new_ := es[last].gap, OldBlock(es[last].lines), NewBlock(es[last].lines);
    LastChange(es, tail);
    BlockGrowth(es[last].lines);
    TailEnds(es[..last], gap + old_ + tail);
    if tail != "" || new_ != "" {
      TailEnds(es[..last], gap + new_ + tail);
    } else {
      assert gap + new_ + tail == gap;
    }
  }

  /** For a diff applied to its own file the exception is plain to see: the line count moves by the statistics
      unless the last change deletes the end of the file and leaves a line without its end. */
  lemma LocatedConservation(path: string, es: seq<Edit>, tail: string)
    requires path != "" && Strip(path) == path
    requires PlainEdits(es) && AllOld(es) && es != [] && Located("", es, tail)
    ensures var t := CountLines(NO_TALLY, HeaderOf(path) + RenderEdits(es));
      var result := ApplyPatch(HeaderOf(path) + RenderEdits(es), Some(Before(es, tail)));
      && result == Some(After(es, tail)) && path in t.stats
      && (|SplitLines(result.value)| - |SplitLines(Before(es, tail))| == t.stats[path].added - t.stats[path].deleted
          <==> !CutsEnd(es, tail))
    ensures CutsLine(Before(es, tail), 0, BlocksOf(es)) <==> CutsEnd(es, tail)
  {
    var patch := HeaderOf(path) + RenderEdits(es);
    assert ApplyPatch(patch, Some(Before(es, tail))) == Some(After(es, tail)) by {
      HeaderSetsPath(path);
      PlainIsLegible(es);
      assert OldBlock(es[0].lines) != "";
      HunkRoundTrip(HeaderOf(path), es, tail);
    }
    LineConservation(path, es, Before(es, tail));
    RaggedAfterwards(es, tail);
    LineCount(Before(es, tail));
    LineCount(After(es, tail));
  }

  /** A block found in the middle of the last line: deleting one line of one leaves one. */
  lemma MidLineDeletion() returns (es: seq<Edit>, text: string)
    ensures PlainEdits(es) && AllOld(es) && CutsLine(text, 0, BlocksOf(es))
    ensures |SplitLines(text)| == 1 && TotalAdded(es) == 0 && TotalDeleted(es) == 1
    ensures ApplyHunks(text, 0, BlocksOf(es)) == Some("a")
  {
    var ls := [Deleted("b")];
    es, text := [Edit("", "", ls)], "ab\n";
    var h := Hunk("b\n", "");
    assert ls[1..] == [] && es[1..] == [];
    assert OldBlock(ls) == "b\n" && NewBlock(ls) == "";
    assert BlocksOf(es) == [h] && [h][1..] == [];
    assert Place(text, "b\n", 0) == Some(1) by {
      assert text[1..3] == "b\n" && text[0] != "b\n"[0];
      assert StartsAt(text, 1, "b\n") && !StartsAt(text, 0, "b\n") by {
        assert text[0..2][0] == 'a';
      }
      FindExact(text, "b\n", 0, 1);
    }
    assert Replace(text, 1, h) == "a";
    assert Newlines(text) == 1 by {
      assert text[1..][1..][1..] == "";
    }
    LineCount(text);
  }
}
