/** Restoring masked values in structured data (app/services/pii/unmasker.py). */
module Unmasker {
  import opened Text

  /** The shape of every mask token: one pair of brackets around bracket-free text. */
  predicate BracketToken(t: string) {
    && |t| >= 2 && t[0] == '[' && t[|t| - 1] == ']'
    && Without(t[1..], '[') && Without(t[..|t| - 1], ']')
  }

  ghost predicate TokenKeys(m: map<string, string>) {
    forall t | t in m :: BracketToken(t)
  }

  ghost predicate PlainValues(m: map<string, string>) {
    forall t | t in m :: Without(m[t], '[')
  }

  /** The position of the first ']', or the length of the text. */
  function Close(s: string): (k: nat)
    ensures k <= |s|
    ensures s != "" && s[0] != ']' ==> k > 0
  {
    if s == "" || s[0] == ']' then 0 else 1 + Close(s[1..])
  }

  /** Every '[' that is closed later has no other '[' before the first ']' behind it. */
  predicate Flat(s: string) {
    s == "" || ((s[0] == '[' && Close(s) < |s| ==> Without(s[1..Close(s)], '[')) && Flat(s[1..]))
  }

  // ---------- The code's algorithm: one token after another ----------

  function ReplaceAll(s: string, m: map<string, string>, order: seq<string>): string
    requires forall t | t in order :: t in m
    decreases |order|
  {
    if order == [] then s
    else ReplaceAll(Replace(s, order[0], m[order[0]]), m, order[1..])
  }

  /** The string branch of `_walk`. */
  method WalkString(node: string, m: map<string, string>, order: seq<string>) returns (result: string)
    requires forall t | t in order :: t in m
    ensures result == ReplaceAll(node, m, order)
  {
    result := node;
    for i := 0 to |order|
      invariant ReplaceAll(result, m, order[i..]) == ReplaceAll(node, m, order)
    {
      var token := order[i];
      assert order[i..][1..] == order[i + 1..];
      if Contains(result, token) {
        result := Replace(result, token, m[token]);
      } else {
        ReplaceAbsent(result, token, m[token]);
      }
    }
  }

  // ---------- The reference: one simultaneous pass from left to right ----------

  /** At each position, a mapped token that starts there gives way to its value, which is not read again. */
  ghost function Substitute(s: string, m: map<string, string>): string
    decreases |s|
  {
    if s == "" then ""
    else if exists t :: t in m && t != "" && t <= s then
      var t :| t in m && t != "" && t <= s;
      m[t] + Substitute(s[|t|..], m)
    else
      [s[0]] + Substitute(s[1..], m)
  }

  // ---------- Brackets ----------

  lemma {:induction false} CloseUnique(s: string, k: nat)
    requires k <= |s| && Without(s[..k], ']') && (k < |s| ==> s[k] == ']')
    ensures Close(s) == k
  {
    if k > 0 {
      assert s[..k][0] == s[0];
      assert s[..k][1..] == s[1..][..k - 1];
      CloseUnique(s[1..], k - 1);
    }
  }

  lemma {:induction false} CloseFirst(s: string)
    ensures Without(s[..Close(s)], ']')
    ensures Close(s) < |s| ==> s[Close(s)] == ']'
  {
    if s != "" && s[0] != ']' {
      CloseFirst(s[1..]);
      assert s[..Close(s)] == [s[0]] + s[1..][..Close(s) - 1];
    }
  }

  lemma TokenPrefixClose(s: string, t: string)
    requires BracketToken(t) && t <= s
    ensures |t| == Close(s) + 1 && t == s[..Close(s) + 1]
  {
    assert s[|t| - 1] == t[|t| - 1];
    assert s[..|t| - 1] == t[..|t| - 1];
    CloseUnique(s, |t| - 1);
  }

  lemma TokenNeedsClose(s: string, t: string)
    requires BracketToken(t) && Without(s, ']')
    ensures !(t <= s)
  {}

  /** A closed bracket group is a prefix match for no token but itself. */
  lemma GroupMatchesOnlyItself(g: string, b: string, t: string)
    requires |g| >= 2 && Without(g[..|g| - 1], ']') && g[|g| - 1] == ']'
    requires BracketToken(t)
    ensures t <= g + b <==> t == g
  {
    var k := |g| - 1;
    if |t| - 1 < k {
      assert g[..k][|t| - 1] != ']';
      assert (g + b)[|t| - 1] != t[|t| - 1];
    } else if k < |t| - 1 <= k + |b| {
      assert t[..|t| - 1][k] != ']';
      assert (g + b)[k] != t[k];
    } else if |t| == |g| {
      assert (g + b)[..|g|] == g;
    }
  }

  lemma SubstituteToken(s: string, t: string, m: map<string, string>)
    requires TokenKeys(m) && t in m && t <= s
    ensures Substitute(s, m) == m[t] + Substitute(s[|t|..], m)
  {
    forall u | u in m && u != "" && u <= s ensures u == t {
      TokenPrefixClose(s, t);
      TokenPrefixClose(s, u);
    }
    assert BracketToken(t);
    var u :| u in m && u != "" && u <= s;
  }

  /** A character that starts no mapped token is copied. */
  lemma CopyChar(s: string, c: char, rest: string, m: map<string, string>)
    requires s == [c] + rest && forall t | t in m :: !(t <= s)
    ensures Substitute(s, m) == [c] + Substitute(rest, m)
  {
    assert s[1..] == rest;
  }

  lemma {:induction false} SubstitutePlain(a: string, b: string, m: map<string, string>)
    requires TokenKeys(m) && Without(a, '[')
    ensures Substitute(a + b, m) == a + Substitute(b, m)
  {
    if a == "" {
      assert a + b == b;
    } else {
      var c, rest := a[0], a[1..];
      assert a == [c] + rest;
      Assoc([c], rest, b);
      NoTokenAt(a + b, m);
      CopyChar(a + b, c, rest + b, m);
      SubstitutePlain(rest, b, m);
      Assoc([c], rest, Substitute(b, m));
    }
  }

  lemma NoTokenAt(s: string, m: map<string, string>)
    requires TokenKeys(m) && s != "" && s[0] != '['
    ensures forall t | t in m :: !(t <= s)
  {
    forall t | t in m ensures !(t <= s) {
      assert BracketToken(t) && t[0] != s[0];
    }
  }

  /** An opening bracket that starts no mapped token is copied, with everything up to its closing bracket. */
  lemma SubstituteGroup(g: string, b: string, m: map<string, string>)
    requires TokenKeys(m) && g !in m
    requires |g| >= 2 && Without(g[..|g| - 1], ']') && g[|g| - 1] == ']' && Without(g[1..], '[')
    ensures Substitute(g + b, m) == g + Substitute(b, m)
  {
    forall t | t in m ensures !(t <= g + b) {
      GroupMatchesOnlyItself(g, b, t);
    }
    var c, rest := g[0], g[1..];
    assert g == [c] + rest;
    Assoc([c], rest, b);
    CopyChar(g + b, c, rest + b, m);
    SubstitutePlain(rest, b, m);
    Assoc([c], rest, Substitute(b, m));
  }

  lemma {:induction false} SubstituteUnclosed(s: string, m: map<string, string>)
    requires TokenKeys(m) && Without(s, ']')
    ensures Substitute(s, m) == s
  {
    if s != "" {
      forall t | t in m ensures !(t <= s) {
        TokenNeedsClose(s, t);
      }
      SubstituteUnclosed(s[1..], m);
    }
  }

  lemma ReplaceChar(s: string, c: char, rest: string, t: string, v: string)
    requires t != "" && s == [c] + rest && !(t <= s)
    ensures Replace(s, t, v) == [c] + Replace(rest, t, v)
  {
    assert s[1..] == rest;
  }

  lemma {:induction false} ReplacePlain(a: string, b: string, t: string, v: string)
    requires BracketToken(t) && Without(a, '[')
    ensures Replace(a + b, t, v) == a + Replace(b, t, v)
  {
    if a == "" {
      assert a + b == b;
    } else {
      var c, rest := a[0], a[1..];
      assert a == [c] + rest;
      Assoc([c], rest, b);
      assert t[0] != (a + b)[0];
      ReplaceChar(a + b, c, rest + b, t, v);
      ReplacePlain(rest, b, t, v);
      Assoc([c], rest, Replace(b, t, v));
    }
  }

  lemma ReplaceUnclosed(s: string, t: string, v: string)
    requires BracketToken(t) && Without(s, ']')
    ensures Replace(s, t, v) == s
  {}

  lemma ReplaceToken(s: string, t: string, v: string)
    requires t != "" && t <= s
    ensures Replace(s, t, v) == v + Replace(s[|t|..], t, v)
  {}

  lemma ReplaceGroup(g: string, b: string, t: string, v: string)
    requires BracketToken(t) && g != t
    requires |g| >= 2 && Without(g[..|g| - 1], ']') && g[|g| - 1] == ']' && Without(g[1..], '[')
    ensures Replace(g + b, t, v) == g + Replace(b, t, v)
  {
    GroupMatchesOnlyItself(g, b, t);
    var c, rest := g[0], g[1..];
    assert g == [c] + rest;
    Assoc([c], rest, b);
    ReplaceChar(g + b, c, rest + b, t, v);
    ReplacePlain(rest, b, t, v);
    Assoc([c], rest, Replace(b, t, v));
  }

  lemma {:induction false} FlatSuffix(s: string, j: nat)
    requires Flat(s) && j <= |s|
    ensures Flat(s[j..])
  {
    if j > 0 {
      FlatSuffix(s[1..], j - 1);
      assert s[1..][j - 1..] == s[j..];
    }
  }

  /** In flat text, a '[' that is closed opens a group: bracket-free text up to the first ']'. */
  lemma FlatGroup(s: string) returns (g: string, b: string)
    requires Flat(s) && s != "" && s[0] == '[' && Close(s) < |s|
    ensures s == g + b && |g| == Close(s) + 1 && Flat(b)
    ensures |g| >= 2 && Without(g[..|g| - 1], ']') && g[|g| - 1] == ']' && g[0] == '[' && Without(g[1..], '[')
  {
    var k := Close(s);
    g, b := s[..k + 1], s[k + 1..];
    FlatSuffix(s, k + 1);
    CloseFirst(s);
    assert g[..k] == s[..k];
    assert g[1..] == s[1..k] + [s[k]];
  }

  /** Putting one token's value in first, then substituting the rest at once, is substituting everything at once. */
  lemma {:induction false} ReplaceThenSubstitute(s: string, t: string, v: string, m: map<string, string>)
    requires Flat(s) && BracketToken(t) && Without(v, '[') && TokenKeys(m) && t !in m
    ensures Substitute(Replace(s, t, v), m) == Substitute(s, m[t := v])
    decreases |s|
  {
    var m' := m[t := v];
    if s == "" {
    } else if s[0] != '[' {
      assert s == s[..1] + s[1..];
      ReplacePlain(s[..1], s[1..], t, v);
      SubstitutePlain(s[..1], Replace(s[1..], t, v), m);
      SubstitutePlain(s[..1], s[1..], m');
      ReplaceThenSubstitute(s[1..], t, v, m);
    } else if Close(s) == |s| {
      CloseFirst(s);
      assert s[..|s|] == s;
      ReplaceUnclosed(s, t, v);
      SubstituteUnclosed(s, m);
      SubstituteUnclosed(s, m');
    } else {
      var g, b := FlatGroup(s);
      ReplaceThenSubstitute(b, t, v, m);
      if g == t {
        ReplaceToken(s, t, v);
        SubstitutePlain(v, Replace(b, t, v), m);
        SubstituteToken(s, t, m');
      } else {
        ReplaceGroup(g, b, t, v);
        if g in m {
          SubstituteToken(g + Replace(b, t, v), g, m);
          SubstituteToken(s, g, m');
        } else {
          SubstituteGroup(g, Replace(b, t, v), m);
          SubstituteGroup(g, b, m');
        }
      }
    }
  }

  lemma {:induction false} FlatPlain(a: string, b: string)
    requires Without(a, '[')
    ensures Flat(a + b) == Flat(b)
  {
    if a == "" {
      assert a + b == b;
    } else {
      assert (a + b)[1..] == a[1..] + b;
      FlatPlain(a[1..], b);
    }
  }

  lemma FlatAfterGroup(g: string, b: string)
    requires |g| >= 2 && Without(g[..|g| - 1], ']') && g[|g| - 1] == ']' && Without(g[1..], '[')
    ensures Flat(g + b) == Flat(b)
  {
    var s := g + b;
    assert s[..|g| - 1] == g[..|g| - 1];
    CloseUnique(s, |g| - 1);
    assert s[1..|g| - 1] == g[1..][..|g| - 2];
    assert s[1..] == g[1..] + b;
    FlatPlain(g[1..], b);
  }

  lemma {:induction false} ReplaceKeepsFlat(s: string, t: string, v: string)
    requires Flat(s) && BracketToken(t) && Without(v, '[')
    ensures Flat(Replace(s, t, v))
    decreases |s|
  {
    if s == "" {
    } else if s[0] != '[' {
      assert s == s[..1] + s[1..];
      ReplacePlain(s[..1], s[1..], t, v);
      ReplaceKeepsFlat(s[1..], t, v);
      FlatPlain(s[..1], Replace(s[1..], t, v));
    } else if Close(s) == |s| {
      CloseFirst(s);
      assert s[..|s|] == s;
      ReplaceUnclosed(s, t, v);
    } else {
      var g, b := FlatGroup(s);
      ReplaceKeepsFlat(b, t, v);
      if g == t {
        ReplaceToken(s, t, v);
        FlatPlain(v, Replace(b, t, v));
      } else {
        ReplaceGroup(g, b, t, v);
        FlatAfterGroup(g, Replace(b, t, v));
      }
    }
  }

  // ---------- The loop refines the simultaneous pass ----------

  /** `order` lists the keys of `m`, each once. */
  ghost predicate Lists(order: seq<string>, m: map<string, string>) {
    && (forall t :: t in order <==> t in m)
    && (forall i, j | 0 <= i < j < |order| :: order[i] != order[j])
  }

  lemma {:induction false} SubstituteNothing(s: string, m: map<string, string>)
    requires m == map[]
    ensures Substitute(s, m) == s
  {
    if s != "" {
      SubstituteNothing(s[1..], m);
    }
  }

  /** On flat text, replacing token after token, in any order, is one simultaneous left-to-right substitution. */
  lemma {:induction false} SequentialIsSimultaneous(s: string, m: map<string, string>, order: seq<string>)
    requires Flat(s) && TokenKeys(m) && PlainValues(m) && Lists(order, m)
    ensures ReplaceAll(s, m, order) == Substitute(s, m)
    decreases |order|
  {
    if order == [] {
      SubstituteNothing(s, m);
    } else {
      var t, rest := order[0], order[1..];
      var m' := m - {t};
      assert Lists(rest, m') by {
        forall u ensures u in rest <==> u in m' {
          assert u in order <==> u == t || u in rest;
        }
      }
      assert m'[t := m[t]] == m;
      ReplaceKeepsFlat(s, t, m[t]);
      SequentialIsSimultaneous(Replace(s, t, m[t]), m', rest);
      ReplaceAllDependsOnOrder(Replace(s, t, m[t]), m, m', rest);
      ReplaceThenSubstitute(s, t, m[t], m');
    }
  }

  lemma {:induction false} ReplaceAllDependsOnOrder(
      s: string, m: map<string, string>, m': map<string, string>, order: seq<string>)
    requires forall t | t in order :: t in m && t in m' && m[t] == m'[t]
    ensures ReplaceAll(s, m, order) == ReplaceAll(s, m', order)
    decreases |order|
  {
    if order != [] {
      ReplaceAllDependsOnOrder(Replace(s, order[0], m[order[0]]), m, m', order[1..]);
    }
  }

  /** Nothing is left to substitute after one pass. */
  lemma {:induction false} SubstituteIdempotent(s: string, m: map<string, string>)
    requires Flat(s) && TokenKeys(m) && PlainValues(m)
    ensures Flat(Substitute(s, m)) && Substitute(Substitute(s, m), m) == Substitute(s, m)
    decreases |s|
  {
    if s == "" {
    } else if s[0] != '[' {
      assert s == s[..1] + s[1..];
      SubstituteIdempotent(s[1..], m);
      var r := Substitute(s[1..], m);
      SubstitutePlain(s[..1], s[1..], m);
      SubstitutePlain(s[..1], r, m);
      FlatPlain(s[..1], r);
    } else if Close(s) == |s| {
      CloseFirst(s);
      assert s[..|s|] == s;
      SubstituteUnclosed(s, m);
    } else {
      var g, b := FlatGroup(s);
      SubstituteIdempotent(b, m);
      var r := Substitute(b, m);
      if g in m {
        SubstituteToken(s, g, m);
        SubstitutePlain(m[g], r, m);
        FlatPlain(m[g], r);
      } else {
        SubstituteGroup(g, b, m);
        SubstituteGroup(g, r, m);
        FlatAfterGroup(g, r);
      }
    }
  }

  // ---------- Flat text is exactly where the order of the tokens cannot matter ----------

  /** An occurrence of a token splits the scan: no other occurrence can overlap it. */
  lemma {:induction false} ReplaceSplits(a: string, b: string, t: string, v: string)
    requires BracketToken(t)
    requires b != "" && b[0] == '['
    ensures Replace(a + b, t, v) == Replace(a, t, v) + Replace(b, t, v)
  {
    if a == "" {
      assert a + b == b;
    } else if t <= a {
      var rest := a[|t|..];
      assert a == t + rest;
      Assoc(t, rest, b);
      ReplaceSplits(rest, b, t, v);
      TokenFirst(t, rest + b, v);
      TokenFirst(t, rest, v);
      Assoc(v, Replace(rest, t, v), Replace(b, t, v));
    } else {
      var c, rest := a[0], a[1..];
      assert a == [c] + rest;
      Assoc([c], rest, b);
      TokenNotAcross(a, b, t);
      ReplaceSplits(rest, b, t, v);
      ReplaceChar(a + b, c, rest + b, t, v);
      ReplaceChar(a, c, rest, t, v);
      Assoc([c], Replace(rest, t, v), Replace(b, t, v));
    }
  }

  lemma ReplaceStep(s: string, t: string, v: string)
    requires t != "" && s != "" && !(t <= s)
    ensures Replace(s, t, v) == [s[0]] + Replace(s[1..], t, v)
  {}

  /** No token begins in front of a '[' and ends behind it. */
  lemma TokenNotAcross(a: string, b: string, t: string)
    requires BracketToken(t) && a != "" && !(t <= a) && b != "" && b[0] == '['
    ensures !(t <= a + b)
  {
    if |t| <= |a| {
      assert (a + b)[..|t|] == a[..|t|];
    } else {
      assert t[1..][|a| - 1] != (a + b)[|a|];
    }
  }

  lemma {:induction false} ErasingShortens(s: string, t: string)
    requires t != ""
    ensures |Replace(s, t, "")| <= |s|
    ensures Contains(s, t) ==> |Replace(s, t, "")| < |s|
  {
    if |s| >= |t| {
      if t <= s {
        ErasingShortens(s[|t|..], t);
      } else {
        ErasingShortens(s[1..], t);
        if Contains(s, t) {
          var i: nat :| i <= |s| && OccursAt(s, t, i);
          assert i > 0;
          assert OccursAt(s[1..], t, i - 1);
        }
      }
    }
  }

  /** Text that is not flat holds an unclosed '[' directly before a closed group. */
  lemma {:induction false} NestedGroup(s: string) returns (p: string, u: string, w: string, q: string)
    requires !Flat(s)
    ensures s == p + (("[" + u) + (("[" + w + "]") + q))
    ensures Without(u, '[') && Without(u, ']') && Without(w, '[') && Without(w, ']')
  {
    if Flat(s[1..]) {
      CloseFirst(s);
      var body := s[1..Close(s)];
      assert s[..Close(s)][1..] == body;
      u, w := SplitAtLast(body);
      p, q := "", s[Close(s) + 1..];
      GroupParts(s, body, u, w, q);
      if !Without(u, '[') {
        var front, back := SplitAtLast(u);
        RegroupOuter(front, back, (("[" + w + "]") + q));
        p, u := "[" + front, back;
      }
    } else {
      p, u, w, q := NestedGroup(s[1..]);
      p := [s[0]] + p;
    }
  }

  lemma SplitAtLast(body: string) returns (u: string, w: string)
    requires !Without(body, '[') && Without(body, ']')
    ensures body == u + "[" + w && Without(w, '[') && Without(w, ']') && Without(u, ']')
  {
    var i := LastBracket(body);
    u, w := body[..i], body[i + 1..];
  }

  lemma GroupParts(s: string, body: string, u: string, w: string, q: string)
    requires 0 < Close(s) < |s| && s[0] == '[' && s[Close(s)] == ']'
    requires body == s[1..Close(s)] == u + "[" + w && q == s[Close(s) + 1..]
    ensures s == "" + (("[" + u) + (("[" + w + "]") + q))
  {
    SplitBrackets(s, Close(s));
    Regroup("[", u, "[", w, "]", q);
  }

  lemma SplitBrackets(s: string, k: nat)
    requires 0 < k < |s| && s[0] == '[' && s[k] == ']'
    ensures s == "[" + s[1..k] + "]" + s[k + 1..]
  {}

  lemma Regroup(a: string, b: string, c: string, d: string, e: string, f: string)
    ensures a + (b + c + d) + e + f == "" + ((a + b) + ((c + d + e) + f))
  {}

  lemma RegroupOuter(front: string, back: string, rest: string)
    ensures "" + (("[" + (front + "[" + back)) + rest) == ("[" + front) + (("[" + back) + rest)
  {}

  lemma LastBracket(s: string) returns (i: nat)
    requires !Without(s, '[')
    ensures i < |s| && s[i] == '[' && Without(s[i + 1..], '[')
  {
    i := |s| - 1;
    while s[i] != '['
      invariant 0 <= i < |s| && Without(s[i + 1..], '[')
      decreases i
    {
      assert s[i..] == [s[i]] + s[i + 1..];
      i := i - 1;
    }
  }

  /** An unclosed '[' in front of a replaced token merges with the value put in. */
  lemma ReplaceCreatesToken(p: string, open: string, t: string, q: string, v: string)
    requires BracketToken(t) && open != "" && open[0] == '[' && Without(open, ']')
    ensures Contains(Replace(p + (open + (t + q)), t, v), open + v)
  {
    var rest := open + (t + q);
    assert rest[0] == '[';
    ReplaceSplits(p, rest, t, v);
    ReplaceBehindOpen(open, t, q, v);
    OccursNested(Replace(p, t, v), open, v, Replace(q, t, v));
  }

  lemma OccursNested(x: string, open: string, v: string, z: string)
    ensures Contains(x + (open + (v + z)), open + v)
  {
    OccursBetween(x, open + v, z);
    assert x + (open + (v + z)) == x + (open + v) + z;
  }

  lemma ReplaceBehindOpen(open: string, t: string, q: string, v: string)
    requires BracketToken(t) && Without(open, ']')
    ensures Replace(open + (t + q), t, v) == open + (v + Replace(q, t, v))
  {
    var tail := t + q;
    assert tail[0] == '[';
    ReplaceSplits(open, tail, t, v);
    ReplaceUnclosed(open, t, v);
    TokenFirst(t, q, v);
  }

  lemma TokenFirst(t: string, q: string, v: string)
    requires t != ""
    ensures Replace(t + q, t, v) == v + Replace(q, t, v)
  {}

  lemma OccursBetween(x: string, y: string, z: string)
    ensures Contains(x + y + z, y)
  {
    assert (x + y + z)[|x|..|x| + |y|] == y;
    assert OccursAt(x + y + z, y, |x|);
  }

  lemma TokenOfParts(u: string, v: string)
    requires Without(u, '[') && Without(u, ']') && Without(v, '[') && Without(v, ']')
    ensures BracketToken("[" + u + (v + "]"))
  {}

  /** Two tokens with plain values make a difference when replacing the first one creates the second. */
  lemma CreatedTokenOrderMatters(s: string, first: string, second: string, v: string)
    requires first != "" && second != "" && first != second && |second| > |s|
    requires Contains(Replace(s, first, v), second)
    ensures var m := map[first := v, second := ""];
            ReplaceAll(s, m, [first, second]) != ReplaceAll(s, m, [second, first])
  {
    var m := map[first := v, second := ""];
    ErasingShortens(Replace(s, first, v), second);
    TwoTokens(s, m, first, second);
    TwoTokens(s, m, second, first);
  }

  /** Where text is not flat, some two-token mapping with plain values makes the outcome depend on the order. */
  lemma NestedOrderMatters(s: string) returns (m: map<string, string>, first: string, second: string)
    requires !Flat(s)
    ensures TokenKeys(m) && PlainValues(m) && first != second && m.Keys == {first, second}
    ensures ReplaceAll(s, m, [first, second]) != ReplaceAll(s, m, [second, first])
  {
    var p, u, w, q := NestedGroup(s);
    var long: string := seq(|s| + 1, i => 'x');
    var open, v := "[" + u, long + "]";
    first, second := "[" + w + "]", open + v;
    m := map[first := v, second := ""];
    TokenOfParts("", w);
    TokenOfParts(u, long);
    assert first == "[" + "" + (w + "]");
    ReplaceCreatesToken(p, open, first, q, v);
    CreatedTokenOrderMatters(s, first, second, v);
  }

  lemma TwoTokens(s: string, m: map<string, string>, a: string, b: string)
    requires a in m && b in m
    ensures ReplaceAll(s, m, [a, b]) == Replace(Replace(s, a, m[a]), b, m[b])
  {
    assert [a, b][1..] == [b];
    assert [b][1..] == [];
    var s1 := Replace(s, a, m[a]);
    assert ReplaceAll(s, m, [a, b]) == ReplaceAll(s1, m, [b]);
    assert ReplaceAll(s1, m, [b]) == ReplaceAll(Replace(s1, b, m[b]), m, []);
  }

  /** The exact condition under which no mapping with plain values can make the token order matter. */
  lemma OrderIrrelevantIffFlat(s: string)
    ensures Flat(s) <==>
            forall m, o1, o2 | TokenKeys(m) && PlainValues(m) && Lists(o1, m) && Lists(o2, m) ::
              ReplaceAll(s, m, o1) == ReplaceAll(s, m, o2)
  {
    if Flat(s) {
      forall m, o1, o2 | TokenKeys(m) && PlainValues(m) && Lists(o1, m) && Lists(o2, m)
        ensures ReplaceAll(s, m, o1) == ReplaceAll(s, m, o2)
      {
        SequentialIsSimultaneous(s, m, o1);
        SequentialIsSimultaneous(s, m, o2);
      }
    } else {
      var m, a, b := NestedOrderMatters(s);
      assert Lists([a, b], m) && Lists([b, a], m);
    }
  }

  // ---------- JSON trees ----------

  datatype Json =
    | Null
    | Bool(b: bool)
    | Num(n: real)
    | Str(s: string)
    | Arr(items: seq<Json>)
    | Obj(fields: seq<(string, Json)>)

  /** The dict and list branches rebuild the node around their rewritten children; other leaves pass through. */
  function WalkTree(node: Json, m: map<string, string>, order: seq<string>): Json
    requires forall t | t in order :: t in m
  {
    match node
    case Str(s) => Str(ReplaceAll(s, m, order))
    case Arr(items) => Arr(seq(|items|, i requires 0 <= i < |items| => WalkTree(items[i], m, order)))
    case Obj(fields) =>
      Obj(seq(|fields|, i requires 0 <= i < |fields| => (fields[i].0, WalkTree(fields[i].1, m, order))))
    case _ => node
  }

  method Walk(node: Json, m: map<string, string>, order: seq<string>) returns (r: Json)
    requires forall t | t in order :: t in m
    ensures r == WalkTree(node, m, order)
    decreases node
  {
    match node
    case Str(s) =>
      var result := WalkString(s, m, order);
      r := Str(result);
    case Arr(items) =>
      var done: seq<Json> := [];
      for i := 0 to |items|
        invariant done == seq(i, j requires 0 <= j < i => WalkTree(items[j], m, order))
      {
        var item := Walk(items[i], m, order);
        done := done + [item];
      }
      r := Arr(done);
    case Obj(fields) =>
      var done: seq<(string, Json)> := [];
      for i := 0 to |fields|
        invariant done == seq(i, j requires 0 <= j < i => (fields[j].0, WalkTree(fields[j].1, m, order)))
      {
        var value := Walk(fields[i].1, m, order);
        done := done + [(fields[i].0, value)];
      }
      r := Obj(done);
    case _ =>
      r := node;
  }

  /** `sorted(keys, key=len, reverse=True)`: a stable sort, longest first. */
  function LongestFirst(keys: seq<string>): (order: seq<string>)
    ensures forall t | t in order :: t in keys
  {
    if keys == [] then [] else InsertLongest(keys[0], LongestFirst(keys[1..]))
  }

  function InsertLongest(key: string, order: seq<string>): (r: seq<string>)
    ensures forall t | t in r :: t == key || t in order
  {
    if order == [] || |key| >= |order[0]| then [key] + order
    else [order[0]] + InsertLongest(key, order[1..])
  }

  predicate Distinct(order: seq<string>) {
    forall i, j | 0 <= i < j < |order| :: order[i] != order[j]
  }

  predicate Descending(order: seq<string>) {
    forall i, j | 0 <= i < j < |order| :: |order[i]| >= |order[j]|
  }

  lemma {:induction false} InsertLongestMembers(key: string, order: seq<string>)
    ensures forall t :: t in InsertLongest(key, order) <==> t == key || t in order
  {
    if order != [] && |key| < |order[0]| {
      InsertLongestMembers(key, order[1..]);
      forall t ensures t in InsertLongest(key, order) <==> t == key || t in order {
        assert t in order <==> t == order[0] || t in order[1..];
      }
    }
  }

  lemma {:induction false} InsertLongestKeeps(key: string, order: seq<string>)
    requires Distinct(order) && Descending(order) && key !in order
    ensures Distinct(InsertLongest(key, order)) && Descending(InsertLongest(key, order))
  {
    if order != [] && |key| < |order[0]| {
      var rest := InsertLongest(key, order[1..]);
      InsertLongestKeeps(key, order[1..]);
      InsertLongestMembers(key, order[1..]);
      PrependKeeps(order[0], rest);
    }
  }

  lemma PrependKeeps(x: string, rest: seq<string>)
    requires Distinct(rest) && Descending(rest) && forall t | t in rest :: t != x && |t| <= |x|
    ensures Distinct([x] + rest) && Descending([x] + rest)
  {}

  /** Sorting keeps the keys, each once, and puts longer ones first. */
  lemma {:induction false} LongestFirstSorts(keys: seq<string>)
    requires Distinct(keys)
    ensures Distinct(LongestFirst(keys)) && Descending(LongestFirst(keys))
    ensures forall t :: t in LongestFirst(keys) <==> t in keys
  {
    if keys != [] {
      LongestFirstSorts(keys[1..]);
      assert forall t :: t in keys <==> t == keys[0] || t in keys[1..];
      InsertLongestKeeps(keys[0], LongestFirst(keys[1..]));
      InsertLongestMembers(keys[0], LongestFirst(keys[1..]));
    }
  }

  /** The keys of one length, in their order. */
  function OfLength(keys: seq<string>, n: nat): seq<string> {
    if keys == [] then []
    else (if |keys[0]| == n then [keys[0]] else []) + OfLength(keys[1..], n)
  }

  lemma {:induction false} InsertLongestStable(key: string, order: seq<string>, n: nat)
    ensures OfLength(InsertLongest(key, order), n) == OfLength([key] + order, n)
  {
    assert ([key] + order)[1..] == order;
    if order != [] && |key| < |order[0]| {
      InsertLongestStable(key, order[1..], n);
      assert ([key] + order[1..])[1..] == order[1..];
    }
  }

  /** The sort is stable: keys of one length keep their order. */
  lemma {:induction false} LongestFirstStable(keys: seq<string>, n: nat)
    ensures OfLength(LongestFirst(keys), n) == OfLength(keys, n)
  {
    if keys != [] {
      LongestFirstStable(keys[1..], n);
      InsertLongestStable(keys[0], LongestFirst(keys[1..]), n);
      assert ([keys[0]] + LongestFirst(keys[1..]))[1..] == LongestFirst(keys[1..]);
    }
  }

  lemma LongestFirstLists(keys: seq<string>, m: map<string, string>)
    requires Lists(keys, m)
    ensures Lists(LongestFirst(keys), m)
  {
    LongestFirstSorts(keys);
  }

  /** `unmask_structured`; `keys` is the insertion order of the mapping. */
  function UnmaskTree(data: Json, m: map<string, string>, keys: seq<string>): Json
    requires Lists(keys, m)
  {
    if m == map[] then data
    else
      LongestFirstLists(keys, m);
      WalkTree(data, m, LongestFirst(keys))
  }

  method UnmaskStructured(data: Json, m: map<string, string>, keys: seq<string>) returns (r: Json)
    requires Lists(keys, m)
    ensures r == UnmaskTree(data, m, keys)
  {
    if m == map[] {
      return data;
    }
    LongestFirstLists(keys, m);
    r := Walk(data, m, LongestFirst(keys));
  }

  /** Every string leaf is flat. */
  predicate FlatTree(node: Json) {
    match node
    case Str(s) => Flat(s)
    case Arr(items) => forall i | 0 <= i < |items| :: FlatTree(items[i])
    case Obj(fields) => forall i | 0 <= i < |fields| :: FlatTree(fields[i].1)
    case _ => true
  }

  /** The node a path of child positions leads to. */
  function NodeAt(node: Json, path: seq<nat>): Option<Json>
    decreases |path|
  {
    if path == [] then Some(node)
    else match node
      case Arr(items) => if path[0] < |items| then NodeAt(items[path[0]], path[1..]) else None
      case Obj(fields) => if path[0] < |fields| then NodeAt(fields[path[0]].1, path[1..]) else None
      case _ => None
  }

  /** What unmasking may do to one node: rewrite a string by substitution; keep keys, lengths and other leaves. */
  ghost predicate Restored(before: Json, after: Json, m: map<string, string>) {
    match before
    case Str(s) => after == Str(Substitute(s, m))
    case Arr(items) => after.Arr? && |after.items| == |items|
    case Obj(fields) =>
      && after.Obj? && |after.fields| == |fields|
      && forall i | 0 <= i < |fields| :: after.fields[i].0 == fields[i].0
    case _ => after == before
  }

  /** At every path the walked tree has a node exactly where the data has one, and it is the walked node. */
  lemma {:induction false} WalkTreeNode(data: Json, m: map<string, string>, order: seq<string>, path: seq<nat>)
    requires forall t | t in order :: t in m
    ensures NodeAt(WalkTree(data, m, order), path) ==
            if NodeAt(data, path).None? then None else Some(WalkTree(NodeAt(data, path).value, m, order))
    decreases |path|
  {
    if path != [] {
      match data
      case Arr(items) =>
        if path[0] < |items| {
          WalkTreeNode(items[path[0]], m, order, path[1..]);
        }
      case Obj(fields) =>
        if path[0] < |fields| {
          WalkTreeNode(fields[path[0]].1, m, order, path[1..]);
        }
      case _ =>
    }
  }

  /** Unmasking an unmasked tree again, in any listing of the mapping, changes nothing. */
  lemma {:induction false} WalkTreeIdempotent(
      data: Json, m: map<string, string>, order: seq<string>, again: seq<string>)
    requires Lists(order, m) && Lists(again, m) && TokenKeys(m) && PlainValues(m) && FlatTree(data)
    ensures WalkTree(WalkTree(data, m, order), m, again) == WalkTree(data, m, order)
  {
    match data
    case Str(s) =>
      SequentialIsSimultaneous(s, m, order);
      SubstituteIdempotent(s, m);
      SequentialIsSimultaneous(Substitute(s, m), m, again);
    case Arr(items) =>
      forall i | 0 <= i < |items|
        ensures WalkTree(WalkTree(items[i], m, order), m, again) == WalkTree(items[i], m, order)
      {
        WalkTreeIdempotent(items[i], m, order, again);
      }
    case Obj(fields) =>
      forall i | 0 <= i < |fields|
        ensures WalkTree(WalkTree(fields[i].1, m, order), m, again) == WalkTree(fields[i].1, m, order)
      {
        WalkTreeIdempotent(fields[i].1, m, order, again);
      }
    case _ =>
  }

  // ---------- Both conditions matter for the code's own order ----------

  lemma TwoTokensInOrder(s: string, m: map<string, string>, a: string, b: string)
    requires a in m && b in m && |a| >= |b|
    ensures ReplaceAll(s, m, LongestFirst([a, b])) == Replace(Replace(s, a, m[a]), b, m[b])
  {
    assert [a, b][1..] == [b];
    assert [b][1..] == [];
    assert LongestFirst([b]) == [b];
    assert LongestFirst([a, b]) == [a, b];
    TwoTokens(s, m, a, b);
  }

  /** A value that itself reads like a token is rewritten by a later round of the loop. */
  lemma TokenValueRewritten(a: string, b: string, x: string)
    requires BracketToken(a) && BracketToken(b) && a != b && |a| >= |b|
    ensures var m := map[a := b, b := x];
            && ReplaceAll(a, m, LongestFirst([a, b])) == x
            && Substitute(a, m) == b
  {
    var m := map[a := b, b := x];
    TwoTokensInOrder(a, m, a, b);
    assert a + "" == a && b + "" == b;
    TokenFirst(a, "", b);
    TokenFirst(b, "", x);
    SubstituteToken(a, a, m);
  }

  lemma ReplaceBehindOneOpen(a: string, q: string, v: string)
    requires BracketToken(a) && Without(q, '[')
    ensures Replace("[" + (a + q), a, v) == "[" + (v + q)
  {
    ReplaceBehindOpen("[", a, q, v);
    assert q + "" == q;
    ReplacePlain(q, "", a, v);
  }

  lemma SubstituteBehindOneOpen(a: string, q: string, m: map<string, string>)
    requires TokenKeys(m) && a in m && Without(q, '[')
    ensures Substitute("[" + (a + q), m) == "[" + (m[a] + q)
  {
    var s, rest := "[" + (a + q), a + q;
    assert s[1..] == rest && rest[|a|..] == q && a <= rest;
    assert BracketToken(a) && rest[0] == '[';
    forall t | t in m ensures !(t <= s) {
      assert t[1..][0] != s[1];
    }
    SubstituteToken(rest, a, m);
    assert q + "" == q;
    SubstitutePlain(q, "", m);
  }

  /** Behind an open '[', the value put in can complete a second token, and the loop rewrites that too. */
  lemma NestedTokenRewritten(a: string, v: string, q: string, b: string, x: string)
    requires BracketToken(a) && BracketToken(b) && |b| <= |a| && a != b && b == "[" + (v + q) && Without(q, '[')
    ensures var s, m := "[" + (a + q), map[a := v, b := x];
            && ReplaceAll(s, m, LongestFirst([a, b])) == x
            && Substitute(s, m) == b
  {
    var s, m := "[" + (a + q), map[a := v, b := x];
    TwoTokensInOrder(s, m, a, b);
    ReplaceBehindOneOpen(a, q, v);
    assert b + "" == b;
    TokenFirst(b, "", x);
    SubstituteBehindOneOpen(a, q, m);
  }

  /** The mapping of the two names A_1 and B_1 shows it on one short text. */
  lemma NestedTokenExample()
    ensures ReplaceAll("[[A_1]_1]", map["[A_1]" := "B", "[B_1]" := "X"], LongestFirst(["[A_1]", "[B_1]"])) == "X"
    ensures Substitute("[[A_1]_1]", map["[A_1]" := "B", "[B_1]" := "X"]) == "[B_1]"
  {
    assert "[" + ("B" + "_1]") == "[B_1]";
    assert "[" + ("[A_1]" + "_1]") == "[[A_1]_1]";
    NestedTokenRewritten("[A_1]", "B", "_1]", "[B_1]", "X");
  }
}
