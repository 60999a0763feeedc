/** The row index the server stores with each play: a random RFC 4122
    version 4 UUID split at its hyphens, with the five groups rejoined in the
    order 2, 1, 0, 3, 4. Randomness is not modelled: the UUID is an input. */
module Uuid {
  import opened Util

  /** The parts joined back with `sep` between them. */
  function JoinWith(parts: seq<string>, sep: char): string
    requires |parts| >= 1
  {
    if |parts| == 1 then parts[0] else parts[0] + [sep] + JoinWith(parts[1..], sep)
  }

  /** `s.split(sep)` for a one-character separator: the pieces between the
      separators, none of which holds one, and which join back to `s`. */
  function Split(s: string, sep: char): (r: seq<string>)
    decreases |s|
    ensures |r| >= 1
    ensures forall k :: 0 <= k < |r| ==> sep !in r[k]
    ensures JoinWith(r, sep) == s
  {
    var i := IndexOf(s, sep);
    if i < 0 then [s]
    else
      var rest := Split(s[i + 1..], sep);
      var r := [s[..i]] + rest;
      assert r[1..] == rest;
      assert s == s[..i] + [sep] + s[i + 1..];
      r
  }

  /** Splitting a join of separator-free parts gives the parts back. */
  lemma {:induction false} SplitJoin(parts: seq<string>, sep: char)
    requires |parts| >= 1 && forall k :: 0 <= k < |parts| ==> sep !in parts[k]
    ensures Split(JoinWith(parts, sep), sep) == parts
  {
    var p := parts[0];
    if |parts| == 1 {
      assert IndexOf(p, sep) == -1;
    } else {
      var s := JoinWith(parts, sep);
      var tail := JoinWith(parts[1..], sep);
      assert s == p + [sep] + tail;
      assert s[|p|] == sep && forall j :: 0 <= j < |p| ==> s[j] == p[j];
      assert IndexOf(s, sep) == |p|;
      assert s[..|p|] == p && s[|p| + 1..] == tail;
      SplitJoin(parts[1..], sep);
      assert parts == [p] + parts[1..];
    }
  }

  /** `tokens[k]` as text, `undefined` for a missing one. */
  function Token(tokens: seq<string>, k: nat): string {
    if k < |tokens| then tokens[k] else "undefined"
  }

  /** `uuid()` applied to the generated UUID `u`. JavaScript adds left to
      right: when groups 2 and 1 are both missing (no hyphen at all), the
      first `+` adds `undefined` to `undefined`, which is the number `NaN`,
      and only then does the sum turn into text. */
  function Reorder(u: string): string {
    var tokens := Split(u, '-');
    var front := if |tokens| == 1 then "NaN" else Token(tokens, 2) + Token(tokens, 1);
    front + Token(tokens, 0) + Token(tokens, 3) + Token(tokens, 4)
  }

  predicate HexDigit(c: char) {
    ('0' <= c <= '9') || ('a' <= c <= 'f')
  }

  /** The textual form `v4()` produces: 8-4-4-4-12 lower-case hex digits. */
  predicate Canonical(u: string) {
    && |u| == 36
    && u[8] == '-' && u[13] == '-' && u[18] == '-' && u[23] == '-'
    && forall j :: 0 <= j < 36 && j != 8 && j != 13 && j != 18 && j != 23 ==> HexDigit(u[j])
  }

  function Groups(u: string): seq<string>
    requires |u| == 36
  {
    [u[..8], u[9..13], u[14..18], u[19..23], u[24..]]
  }

  /** A canonical UUID splits into its five groups. */
  lemma CanonicalSplit(u: string)
    requires Canonical(u)
    ensures Split(u, '-') == Groups(u)
  {
    var g := Groups(u);
    forall k | 0 <= k < 5 ensures '-' !in g[k] {
      assert forall j :: 0 <= j < |g[k]| ==> HexDigit(g[k][j]);
    }
    assert JoinWith(g[4..], '-') == u[24..];
    assert JoinWith(g[3..], '-') == u[19..];
    assert JoinWith(g[2..], '-') == u[14..];
    assert JoinWith(g[1..], '-') == u[9..];
    assert JoinWith(g, '-') == u;
    SplitJoin(g, '-');
  }

  /** The stored index is the 32 hex digits of the UUID, group 2 first, then
      groups 1, 0, 3 and 4, with no hyphen left. */
  lemma ReorderCanonical(u: string)
    requires Canonical(u)
    ensures Reorder(u) == u[14..18] + u[9..13] + u[..8] + u[19..23] + u[24..]
    ensures |Reorder(u)| == 32
    ensures forall j :: 0 <= j < 32 ==> HexDigit(Reorder(u)[j])
  {
    CanonicalSplit(u);
    var r := Reorder(u);
    forall j | 0 <= j < 32 ensures HexDigit(r[j]) {
      if j < 4 { assert r[j] == u[14 + j]; }
      else if j < 8 { assert r[j] == u[9 + j - 4]; }
      else if j < 16 { assert r[j] == u[j - 8]; }
      else if j < 20 { assert r[j] == u[19 + j - 16]; }
      else { assert r[j] == u[24 + j - 20]; }
    }
  }

  /** Text without a hyphen is a single group: `NaN`, the text, then two
      missing groups. */
  lemma ReorderNoHyphen(s: string)
    requires '-' !in s
    ensures Reorder(s) == "NaN" + s + "undefinedundefined"
  {
    assert IndexOf(s, '-') == -1;
  }

  /** Two concatenations with equally long first halves agree half by half. */
  lemma ConcatCancel(a: string, b: string, c: string, d: string)
    requires |a| == |c| && a + b == c + d
    ensures a == c && b == d
  {
    assert a == (a + b)[..|a|] && c == (c + d)[..|c|];
    assert b == (a + b)[|a|..] && d == (c + d)[|c|..];
  }

  /** Distinct UUIDs give distinct indexes: the reorder loses nothing. */
  lemma ReorderInjective(u: string, v: string)
    requires Canonical(u) && Canonical(v) && Reorder(u) == Reorder(v)
    ensures u == v
  {
    ReorderCanonical(u);
    ReorderCanonical(v);
    var gu, gv := Groups(u), Groups(v);
    ConcatCancel(gu[2] + gu[1] + gu[0] + gu[3], gu[4], gv[2] + gv[1] + gv[0] + gv[3], gv[4]);
    ConcatCancel(gu[2] + gu[1] + gu[0], gu[3], gv[2] + gv[1] + gv[0], gv[3]);
    ConcatCancel(gu[2] + gu[1], gu[0], gv[2] + gv[1], gv[0]);
    ConcatCancel(gu[2], gu[1], gv[2], gv[1]);
    assert gu == gv;
    CanonicalSplit(u);
    CanonicalSplit(v);
    assert u == JoinWith(Split(u, '-'), '-') == JoinWith(Split(v, '-'), '-') == v;
  }
}
