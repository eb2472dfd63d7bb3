/** What block replacement does to a file, in terms of where its blocks occur: which occurrence is replaced, which
    patches are refused, and that hunks may come out of file order. */
module Patches {
  import opened Wrappers
  import opened Text
  import opened Hunks

  ghost predicate Occurs(text: string, block: string) {
    exists i: nat :: StartsAt(text, i, block)
  }

  /** The occurrence to replace: the first from the cursor on if there is one there, else the first of all. */
  ghost predicate Chosen(text: string, block: string, cursor: nat, i: nat) {
    && StartsAt(text, i, block)
    && (forall j: nat :: j < i && (cursor <= j || i < cursor) ==> !StartsAt(text, j, block))
    && (i < cursor ==> forall j: nat :: cursor <= j ==> !StartsAt(text, j, block))
  }

  lemma {:induction false} FindIsFirst(text: string, block: string, from: nat)
    requires block != ""
    ensures var r := Find(text, block, from);
      && (r.Some? ==> from <= r.value && StartsAt(text, r.value, block))
      && forall j: nat :: from <= j && (r.Some? ==> j < r.value) ==> !StartsAt(text, j, block)
    decreases |text| - from
  {
    if from + |block| <= |text| && !StartsAt(text, from, block) {
      FindIsFirst(text, block, from + 1);
    }
  }

  /** The place is the chosen occurrence, and there is none exactly if the block does not occur. */
  lemma PlaceIff(text: string, block: string, cursor: nat, i: nat)
    requires block != ""
    ensures Place(text, block, cursor) == Some(i) <==> Chosen(text, block, cursor, i)
    ensures Place(text, block, cursor) == None <==> !Occurs(text, block)
  {
    FindIsFirst(text, block, cursor);
    FindIsFirst(text, block, 0);
  }

  // ---------------------------------------------------------------- whole patches

  /** One hunk takes `text` to `next`: it is passed over, or the chosen occurrence of its old block is replaced and
      the cursor put after the new one. */
  ghost predicate Takes(text: string, cursor: nat, h: Hunk, next: string, at: nat) {
    if h.old_ == "" then next == text && at == cursor
    else
      exists i: nat :: Chosen(text, h.old_, cursor, i) &&
        i + |h.old_| <= |text| && next == text[..i] + h.new_ + text[i + |h.old_|..] && at == i + |h.new_|
  }

  /** The texts as rewritten so far, with their cursors. */
  ghost predicate Rewrites(text: string, cursor: nat, hunks: seq<Hunk>, texts: seq<(string, nat)>) {
    && 0 < |texts| <= |hunks| + 1 && texts[0] == (text, cursor)
    && forall k :: 1 <= k < |texts| ==> Takes(texts[k - 1].0, texts[k - 1].1, hunks[k - 1], texts[k].0, texts[k].1)
  }

  /** The hunks are applied as far as the texts go, to the end or to a hunk whose old block occurs nowhere. */
  ghost predicate Stops(hunks: seq<Hunk>, texts: seq<(string, nat)>, result: Option<string>)
    requires 0 < |texts| <= |hunks| + 1
  {
    var last := |texts| - 1;
    if last == |hunks| then result == Some(texts[last].0)
    else result == None && hunks[last].old_ != "" && !Occurs(texts[last].0, hunks[last].old_)
  }

  lemma {:induction false} ApplyRewrites(text: string, cursor: nat, hunks: seq<Hunk>)
    returns (texts: seq<(string, nat)>)
    ensures Rewrites(text, cursor, hunks, texts) && Stops(hunks, texts, ApplyHunks(text, cursor, hunks))
    decreases |hunks|
  {
    if hunks == [] {
      return [(text, cursor)];
    }
    var h := hunks[0];
    if h.old_ == "" {
      texts := ApplyRewrites(text, cursor, hunks[1..]);
      texts := Prepend(text, cursor, hunks, texts, text, cursor);
      return;
    }
    var place := Place(text, h.old_, cursor);
    PlaceIff(text, h.old_, cursor, if place.Some? then place.value else 0);
    if place.None? {
      return [(text, cursor)];
    }
    var next, at := Replace(text, place.value, h), place.value + |h.new_|;
    texts := ApplyRewrites(next, at, hunks[1..]);
    texts := Prepend(text, cursor, hunks, texts, next, at);
  }

  lemma Prepend(text: string, cursor: nat, hunks: seq<Hunk>, rest: seq<(string, nat)>, next: string, at: nat)
    returns (texts: seq<(string, nat)>)
    requires hunks != [] && Rewrites(next, at, hunks[1..], rest) && Takes(text, cursor, hunks[0], next, at)
    ensures Rewrites(text, cursor, hunks, texts)
    ensures forall result :: Stops(hunks[1..], rest, result) ==> Stops(hunks, texts, result)
  {
    texts := [(text, cursor)] + rest;
    forall k | 1 <= k < |texts|
      ensures Takes(texts[k - 1].0, texts[k - 1].1, hunks[k - 1], texts[k].0, texts[k].1)
    {
      if k > 1 {
        assert texts[k - 1] == rest[k - 2] && texts[k] == rest[k - 1] && hunks[1..][k - 2] == hunks[k - 1];
      }
    }
    assert texts[|texts| - 1] == rest[|rest| - 1];
    assert |texts| - 1 < |hunks| ==> hunks[1..][|rest| - 1] == hunks[|texts| - 1];
  }

  /** The texts leave no choice. */
  lemma {:induction false} RewritesAgree(text: string, cursor: nat, hunks: seq<Hunk>, a: seq<(string, nat)>,
                                         b: seq<(string, nat)>, k: nat)
    requires Rewrites(text, cursor, hunks, a) && Rewrites(text, cursor, hunks, b) && k < |a| && k < |b|
    ensures a[k] == b[k]
  {
    if k > 0 {
      RewritesAgree(text, cursor, hunks, a, b, k - 1);
      TakesOnce(a[k - 1].0, a[k - 1].1, hunks[k - 1], a[k], b[k]);
    }
  }

  lemma TakesOnce(text: string, cursor: nat, h: Hunk, a: (string, nat), b: (string, nat))
    requires Takes(text, cursor, h, a.0, a.1) && Takes(text, cursor, h, b.0, b.1)
    ensures a == b
  {
  }

  lemma {:induction false} SomeOldIs(hunks: seq<Hunk>)
    ensures SomeOld(hunks) <==> exists k :: 0 <= k < |hunks| && hunks[k].old_ != ""
  {
    if hunks != [] {
      SomeOldIs(hunks[1..]);
      assert hunks == [hunks[0]] + hunks[1..];
    }
  }

  lemma OccursBefore(text: string, hunks: seq<Hunk>, texts: seq<(string, nat)>)
    requires Rewrites(text, 0, hunks, texts)
    ensures forall k :: 0 <= k < |texts| - 1 ==> hunks[k].old_ == "" || Occurs(texts[k].0, hunks[k].old_)
  {
    forall k | 0 <= k < |texts| - 1 ensures hunks[k].old_ == "" || Occurs(texts[k].0, hunks[k].old_) {
      assert Takes(texts[k + 1 - 1].0, texts[k + 1 - 1].1, hunks[k + 1 - 1], texts[k + 1].0, texts[k + 1].1);
    }
  }

  /** The texts lead to a hunk whose old block occurs nowhere. */
  ghost predicate Stuck(text: string, hunks: seq<Hunk>, texts: seq<(string, nat)>) {
    && Rewrites(text, 0, hunks, texts) && |texts| <= |hunks|
    && hunks[|texts| - 1].old_ != "" && !Occurs(texts[|texts| - 1].0, hunks[|texts| - 1].old_)
  }

  /** Which patches are refused, exactly: no file, no hunk with old lines, or an old block that occurs nowhere in the
      text as rewritten so far. */
  lemma RefusedIff(lines: seq<string>, file: Option<string>)
    ensures var hunks := ParseHunks(lines);
      ApplyPatch(lines, file) == None <==>
        || file.None?
        || (forall k :: 0 <= k < |hunks| ==> hunks[k].old_ == "")
        || exists texts: seq<(string, nat)> :: Stuck(file.value, hunks, texts)
  {
    var hunks := ParseHunks(lines);
    SomeOldIs(hunks);
    if file.Some? && SomeOld(hunks) {
      var texts := ApplyRewrites(file.value, 0, hunks);
      assert |texts| <= |hunks| ==> Stuck(file.value, hunks, texts);
      if b: seq<(string, nat)> :| Stuck(file.value, hunks, b) {
        StuckAt(file.value, hunks, texts, b);
        assert ApplyHunks(file.value, 0, hunks) == None;
      }
    }
  }

  /** What is written otherwise is the last of the texts. */
  lemma WrittenIff(lines: seq<string>, text: string, written: string)
    ensures var hunks := ParseHunks(lines);
      ApplyPatch(lines, Some(text)) == Some(written) <==>
        && (exists k :: 0 <= k < |hunks| && hunks[k].old_ != "")
        && exists texts: seq<(string, nat)> :: FullyRewritten(text, hunks, texts, written)
  {
    var hunks := ParseHunks(lines);
    SomeOldIs(hunks);
    var texts := ApplyRewrites(text, 0, hunks);
    if b: seq<(string, nat)> :| FullyRewritten(text, hunks, b, written) {
      FullAt(text, hunks, texts, b);
    }
    if ApplyHunks(text, 0, hunks) == Some(written) {
      assert FullyRewritten(text, hunks, texts, written);
    }
  }

  ghost predicate FullyRewritten(text: string, hunks: seq<Hunk>, texts: seq<(string, nat)>, written: string) {
    Rewrites(text, 0, hunks, texts) && |texts| == |hunks| + 1 && texts[|hunks|].0 == written
  }

  /** Texts that go all the way show that the hunks never stop. */
  lemma FullAt(text: string, hunks: seq<Hunk>, texts: seq<(string, nat)>, b: seq<(string, nat)>)
    requires Rewrites(text, 0, hunks, texts) && Stops(hunks, texts, ApplyHunks(text, 0, hunks))
    requires Rewrites(text, 0, hunks, b) && |b| == |hunks| + 1
    ensures |texts| == |b| && texts[|hunks|] == b[|hunks|]
  {
    OccursBefore(text, hunks, b);
    RewritesAgree(text, 0, hunks, texts, b, |texts| - 1);
  }

  lemma StuckAt(text: string, hunks: seq<Hunk>, texts: seq<(string, nat)>, b: seq<(string, nat)>)
    requires Rewrites(text, 0, hunks, texts) && Stuck(text, hunks, b)
    ensures |texts| <= |b|
  {
    OccursBefore(text, hunks, texts);
    if |texts| > |b| {
      RewritesAgree(text, 0, hunks, texts, b, |b| - 1);
    }
  }

  // ---------------------------------------------------------------- hunks out of file order

  /** Of two changes the later one in the file may come first in the patch: the other is then found by the search from
      the start. */
  lemma OutOfOrder(lead: string, a: Hunk, mid: string, b: Hunk, tail: string)
    requires a.old_ != "" && b.old_ != ""
    requires var text := lead + a.old_ + mid + b.old_ + tail;
      forall j: nat :: j < |lead| + |a.old_| + |mid| ==> !StartsAt(text, j, b.old_)
    requires var text := lead + a.old_ + mid + b.new_ + tail;
      forall j: nat :: j < |lead| || |lead| + |a.old_| + |mid| + |b.new_| <= j ==> !StartsAt(text, j, a.old_)
    ensures ApplyHunks(lead + a.old_ + mid + b.old_ + tail, 0, [b, a]) == Some(lead + a.new_ + mid + b.new_ + tail)
  {
    var text := lead + a.old_ + mid + b.old_ + tail;
    var next := lead + a.old_ + mid + b.new_ + tail;
    var before := lead + a.old_ + mid;
    assert ApplyHunks(text, 0, [b, a]) == ApplyHunks(next, |before| + |b.new_|, [a]) by {
      OneHunk(before, b, tail, 0, [a]);
      assert text == before + b.old_ + tail && next == before + b.new_ + tail && [b] + [a] == [b, a];
    }
    assert ApplyHunks(next, |before| + |b.new_|, [a]) == Some(lead + a.new_ + mid + b.new_ + tail) by {
      assert next == lead + a.old_ + (mid + b.new_ + tail) && [a] + [] == [a];
      OneHunk(lead, a, mid + b.new_ + tail, |before| + |b.new_|, []);
      assert lead + a.new_ + (mid + b.new_ + tail) == lead + a.new_ + mid + b.new_ + tail;
    }
  }

  lemma OneHunk(lead: string, h: Hunk, tail: string, cursor: nat, hunks: seq<Hunk>)
    requires h.old_ != ""
    requires var text := lead + h.old_ + tail;
      && (forall j: nat :: j < |lead| && (cursor <= j || |lead| < cursor) ==> !StartsAt(text, j, h.old_))
      && (|lead| < cursor ==> forall j: nat :: cursor <= j ==> !StartsAt(text, j, h.old_))
    ensures ApplyHunks(lead + h.old_ + tail, cursor, [h] + hunks) ==
            ApplyHunks(lead + h.new_ + tail, |lead| + |h.new_|, hunks)
  {
    var text := lead + h.old_ + tail;
    assert text[|lead|..|lead| + |h.old_|] == h.old_;
    PlaceIff(text, h.old_, cursor, |lead|);
    ApplyHead(text, cursor, h, hunks, |lead|);
    assert Replace(text, |lead|, h) == lead + h.new_ + tail;
  }

  /** The smallest case: the second line changed before the first. */
  lemma SecondSearch()
    ensures ApplyHunks("a\nb\n", 0, [Hunk("b\n", "B\n"), Hunk("a\n", "A\n")]) == Some("A\nB\n")
  {
    var a, b := Hunk("a\n", "A\n"), Hunk("b\n", "B\n");
    assert "" + a.old_ + "" + b.old_ + "" == "a\nb\n" && "" + a.new_ + "" + b.new_ + "" == "A\nB\n";
    assert "" + a.old_ + "" + b.new_ + "" == "a\nB\n";
    forall j: nat | j < 2 ensures !StartsAt("a\nb\n", j, "b\n") {
      assert j + 2 <= 4 && "a\nb\n"[j..j + 2][0] == "a\nb\n"[j] && "b\n"[0] == 'b';
    }
    forall j: nat | 4 <= j ensures !StartsAt("a\nB\n", j, "a\n") {
    }
    OutOfOrder("", a, "", b, "");
  }
}
