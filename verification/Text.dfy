/** String helpers with the meaning the Python library gives them. */
module Text {
  import opened Wrappers

  /** The characters that `str.strip` removes and that `\s` matches. */
  predicate IsSpace(c: char) {
    || c == ' ' || '\t' <= c <= '\r' || '\U{1C}' <= c <= '\U{1F}' || c == '\U{85}' || c == '\U{A0}'
    || c == '\U{1680}' || '\U{2000}' <= c <= '\U{200A}' || c == '\U{2028}' || c == '\U{2029}'
    || c == '\U{202F}' || c == '\U{205F}' || c == '\U{3000}'
  }

  predicate Blank(s: string) {
    forall k :: 0 <= k < |s| ==> IsSpace(s[k])
  }

  function LeftStrip(s: string): (r: string)
    ensures r != "" ==> !IsSpace(r[0])
  {
    if s == "" then "" else if IsSpace(s[0]) then LeftStrip(s[1..]) else s
  }

  lemma {:induction false} LeftStripBlank(s: string)
    ensures LeftStrip(s) == "" <==> Blank(s)
  {
    if s != "" && IsSpace(s[0]) {
      assert s == [s[0]] + s[1..];
      LeftStripBlank(s[1..]);
    }
  }

  function RightStrip(s: string): (r: string)
    ensures r != "" ==> !IsSpace(r[|r| - 1])
    ensures r <= s
  {
    if s == "" || !IsSpace(s[|s| - 1]) then s else RightStrip(s[..|s| - 1])
  }

  lemma {:induction false} RightStripBlank(s: string)
    ensures RightStrip(s) == "" <==> Blank(s)
  {
    if s != "" && IsSpace(s[|s| - 1]) {
      assert s == s[..|s| - 1] + [s[|s| - 1]];
      RightStripBlank(s[..|s| - 1]);
    }
  }

  function Strip(s: string): string {
    RightStrip(LeftStrip(s))
  }

  /** Where the first non-blank at or after `k` is. */
  function SkipSpace(s: string, k: nat): (j: nat)
    requires k <= |s|
    ensures k <= j <= |s|
    decreases |s| - k
  {
    if k < |s| && IsSpace(s[k]) then SkipSpace(s, k + 1) else k
  }

  lemma {:induction false} SkipSpaceExact(s: string, k: nat)
    requires k <= |s|
    ensures var j := SkipSpace(s, k); (forall i :: k <= i < j ==> IsSpace(s[i])) && (j == |s| || !IsSpace(s[j]))
    decreases |s| - k
  {
    if k < |s| && IsSpace(s[k]) {
      SkipSpaceExact(s, k + 1);
    }
  }

  lemma {:induction false} SkipSpaceTo(s: string, k: nat, j: nat)
    requires k <= j <= |s| && (forall i :: k <= i < j ==> IsSpace(s[i])) && (j == |s| || !IsSpace(s[j]))
    ensures SkipSpace(s, k) == j
    decreases j - k
  {
    if k < j {
      SkipSpaceTo(s, k + 1, j);
    }
  }

  predicate StartsAt(s: string, k: nat, t: string) {
    k + |t| <= |s| && s[k..k + |t|] == t
  }

  /** One part peeled off a text. */
  lemma Peel(s: string, k: nat, a: string, rest: string)
    requires k <= |s| && s[k..] == a + rest
    ensures StartsAt(s, k, a) && s[k + |a|..] == rest
  {
    assert s[k..][..|a|] == a && s[k..][|a|..] == rest;
    assert s[k..k + |a|] == s[k..][..|a|];
  }

  /** `s.find(t, from)`: the least index, if any. */
  function Find(s: string, t: string, from: nat): (r: Option<nat>)
    ensures r.Some? ==> from <= r.value && r.value + |t| <= |s|
    decreases |s| - from
  {
    if from + |t| > |s| then None
    else if StartsAt(s, from, t) then Some(from)
    else if from == |s| then None
    else Find(s, t, from + 1)
  }

  lemma {:induction false} FindExact(s: string, t: string, from: nat, k: nat)
    requires from <= k && StartsAt(s, k, t) && forall j :: from <= j < k ==> !StartsAt(s, j, t)
    ensures Find(s, t, from) == Some(k)
    decreases k - from
  {
    if from < k {
      FindExact(s, t, from + 1, k);
    }
  }

  lemma {:induction false} FindStarts(s: string, t: string, from: nat)
    ensures Find(s, t, from).Some? ==> StartsAt(s, Find(s, t, from).value, t)
    decreases |s| - from
  {
    if from + |t| <= |s| && !StartsAt(s, from, t) && from < |s| {
      FindStarts(s, t, from + 1);
    }
  }

  lemma {:induction false} LeftStripSkips(a: string, b: string)
    requires Blank(a) && b != "" && !IsSpace(b[0])
    ensures LeftStrip(a + b) == b
  {
    if a == "" {
      assert a + b == b;
    } else {
      assert (a + b)[1..] == a[1..] + b;
      LeftStripSkips(a[1..], b);
    }
  }

  lemma {:induction false} RightStripSkips(a: string, b: string)
    requires a != "" && !IsSpace(a[|a| - 1])
    ensures |RightStrip(a + b)| >= |a|
    ensures RightStrip(a + b) == a <==> Blank(b)
  {
    if b == "" {
      assert a + b == a;
    } else {
      var s := a + b;
      assert s[|s| - 1] == b[|b| - 1];
      assert s[..|s| - 1] == a + b[..|b| - 1];
      RightStripSkips(a, b[..|b| - 1]);
      assert b == b[..|b| - 1] + [b[|b| - 1]];
    }
  }

  /** The first visible character of a text decides how its stripped form starts. */
  lemma {:induction false} StripStart(a: string, b: string)
    requires !Blank(a)
    ensures Strip(a + b) != "" && exists k :: 0 <= k < |a| && a[k] == Strip(a + b)[0]
  {
    var t := LeftStrip(a + b);
    LeftStripOf(a, b);
    assert !Blank(t) by {
      assert !IsSpace(t[0]);
    }
    RightStripBlank(t);
    assert RightStrip(t) <= t;
  }

  lemma {:induction false} LeftStripOf(a: string, b: string)
    requires !Blank(a)
    ensures LeftStrip(a + b) == LeftStrip(a) + b
    ensures LeftStrip(a) != "" && exists k :: 0 <= k < |a| && a[k] == LeftStrip(a)[0]
  {
    if IsSpace(a[0]) {
      assert a == [a[0]] + a[1..];
      assert (a + b)[1..] == a[1..] + b;
      LeftStripOf(a[1..], b);
      var k :| 0 <= k < |a[1..]| && a[1..][k] == LeftStrip(a[1..])[0];
      assert a[k + 1] == LeftStrip(a)[0];
    } else {
      assert a[0] == LeftStrip(a)[0];
    }
  }
}
