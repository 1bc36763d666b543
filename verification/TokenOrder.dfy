/**
 When replacing one token after another, in a given order, does what one simultaneous pass does
 (app/services/pii/unmasker.py): the exact condition on the text, whatever the values.
 */
module TokenOrder {
  import opened Text
  import opened Unmasker

  /** In front of t stands an unclosed part of a later token: once t gives way to a value, that token may arise. */
  ghost predicate ClashAt(s: string, t: string, late: string, p: string, open: string, q: string) {
    open != "" && open < late && s == p + (open + (t + q))
  }

  ghost predicate Clash(s: string, t: string, late: string) {
    exists p, open, q :: ClashAt(s, t, late, p, open, q)
  }

  /** No token stands behind a part of a token that is replaced later. */
  ghost predicate Settled(s: string, order: seq<string>) {
    forall i, j | 0 <= i < j < |order| :: !Clash(s, order[i], order[j])
  }

  ghost predicate Tokens(order: seq<string>) {
    Distinct(order) && forall t | t in order :: BracketToken(t)
  }

  // ---------- Clashes inside longer text ----------

  lemma ClashBehind(s: string, front: string, rest: string, t: string, late: string)
    requires s == front + rest && Clash(rest, t, late)
    ensures Clash(s, t, late)
  {
    var p, open, q :| ClashAt(rest, t, late, p, open, q);
    Assoc(front, p, open + (t + q));
    assert ClashAt(s, t, late, front + p, open, q);
  }

  lemma OpenIsPlain(late: string, open: string)
    requires BracketToken(late) && open != "" && open < late
    ensures open[0] == '[' && Without(open[1..], '[') && Without(open, ']')
  {
    assert open == late[..|open|];
    assert forall k | 0 <= k < |open| - 1 :: open[1..][k] == late[1..][k];
    assert forall k | 0 <= k < |open| :: open[k] == late[..|late| - 1][k];
  }

  lemma ClashFromBehind(front: string, rest: string, t: string, late: string, p: string, open: string, q: string)
    requires ClashAt(front + rest, t, late, p, open, q) && |p| >= |front|
    ensures Clash(rest, t, late)
  {
    var s := front + rest;
    assert rest == s[|front|..] && p[|front|..] + (open + (t + q)) == s[|front|..];
    assert ClashAt(rest, t, late, p[|front|..], open, q);
  }

  /** A clash behind text without '[' does not reach into it. */
  lemma ClashInRest(front: string, rest: string, t: string, late: string)
    requires Without(front, '[') && BracketToken(late) && Clash(front + rest, t, late)
    ensures Clash(rest, t, late)
  {
    var p, open, q :| ClashAt(front + rest, t, late, p, open, q);
    OpenIsPlain(late, open);
    assert (front + rest)[|p|] == '[';
    assert |p| >= |front|;
    ClashFromBehind(front, rest, t, late, p, open, q);
  }

  lemma ClashBehindChar(c: char, rest: string, t: string, late: string, p: string, open: string, q: string)
    requires p != "" && ClashAt([c] + rest, t, late, p, open, q)
    ensures Clash(rest, t, late)
  {
    assert rest == ([c] + rest)[1..] == p[1..] + (open + (t + q));
    assert ClashAt(rest, t, late, p[1..], open, q);
  }

  lemma HeadClash(s: string, t: string, late: string, open: string, rest: string)
    requires s == open + rest && t <= rest && open != "" && open < late
    ensures Clash(s, t, late)
  {
    var q := rest[|t|..];
    assert rest == t + q;
    assert "" + (open + (t + q)) == open + rest;
    assert ClashAt(s, t, late, "", open, q);
  }

  // ---------- Where a token comes into being ----------

  lemma {:induction false} SplitFirst(s: string) returns (u: string, rest: string)
    ensures s == u + rest && Without(u, '[') && (rest != "" ==> rest[0] == '[')
  {
    if s == "" || s[0] == '[' {
      u, rest := "", s;
    } else {
      u, rest := SplitFirst(s[1..]);
      u := [s[0]] + u;
    }
  }

  lemma ReplaceKeepsBracket(s: string, t: string, v: string)
    requires BracketToken(t) && s != "" && s[0] == '[' && !(t <= s)
    ensures Replace(s, t, v) != "" && Replace(s, t, v)[0] == '['
  {
    ReplaceStep(s, t, v);
  }

  /** A '[' with what follows up to the next one. */
  ghost predicate Opening(open: string) {
    open != "" && open[0] == '[' && Without(open[1..], '[')
  }

  /** Text that starts with '[' and with no occurrence of t is copied up to the next '['. */
  lemma CopyOpening(s: string, t: string, v: string) returns (open: string, rest: string)
    requires BracketToken(t) && s != "" && s[0] == '[' && !(t <= s)
    ensures s == open + rest && Opening(open) && (rest != "" ==> rest[0] == '[')
    ensures Replace(s, t, v) == open + Replace(rest, t, v)
    ensures rest != "" && !(t <= rest) ==> Replace(rest, t, v) != "" && Replace(rest, t, v)[0] == '['
  {
    var u;
    u, rest := SplitFirst(s[1..]);
    open := "[" + u;
    ReplaceStep(s, t, v);
    ReplacePlain(u, rest, t, v);
    Assoc("[", u, Replace(rest, t, v));
    if rest != "" && !(t <= rest) {
      ReplaceKeepsBracket(rest, t, v);
    }
  }

  /** A token that starts with an opening and is followed by another '[' ends within it. */
  lemma TokenInOpening(token: string, open: string, after: string)
    requires BracketToken(token) && open != "" && token <= open + after && (after != "" ==> after[0] == '[')
    ensures token <= open
  {
    assert forall k | 0 < k < |token| :: token[1..][k - 1] == (open + after)[k];
    assert after != "" ==> (open + after)[|open|] == '[';
    assert token == (open + after)[..|token|] == open[..|token|];
  }

  lemma TokenBehindOpening(s: string, t: string, late: string, open: string, rest: string, after: string)
    requires BracketToken(late) && Opening(open) && s == open + rest && late <= open + after
    requires t <= rest || after == "" || after[0] == '['
    ensures late <= s || Clash(s, t, late)
  {
    if |late| > |open| && t <= rest {
      assert open == (open + after)[..|open|] == late[..|open|];
      HeadClash(s, t, late, open, rest);
    } else {
      if |late| > |open| {
        TokenInOpening(late, open, after);
      }
      assert late == (open + after)[..|late|] == open[..|late|];
    }
  }

  /** A token that starts the text after a replacement started it before, or there was a clash. */
  lemma HeadCreated(s: string, t: string, v: string, late: string)
    requires BracketToken(t) && BracketToken(late) && s != "" && !(t <= s)
    requires late <= Replace(s, t, v)
    ensures late <= s || Clash(s, t, late)
  {
    ReplaceStep(s, t, v);
    assert s[0] == late[0];
    var open, rest := CopyOpening(s, t, v);
    TokenBehindOpening(s, t, late, open, rest, Replace(rest, t, v));
  }

  /** After a replacement there is no clash that does not come from one before. */
  lemma {:induction false} ClashOrigin(s: string, t: string, v: string, a: string, late: string)
    requires BracketToken(t) && BracketToken(a) && BracketToken(late) && Without(v, '[')
    requires Clash(Replace(s, t, v), a, late)
    ensures Clash(s, a, late) || Clash(s, t, late) || Clash(s, t, a)
    decreases |s|
  {
    var p, open, q :| ClashAt(Replace(s, t, v), a, late, p, open, q);
    if t <= s {
      var rest := s[|t|..];
      ReplaceToken(s, t, v);
      ClashInRest(v, Replace(rest, t, v), a, late);
      ClashOrigin(rest, t, v, a, late);
      InFront(s, t, rest, t, a, late);
    } else if s != "" {
      ReplaceStep(s, t, v);
      if p == "" {
        assert p + (open + (a + q)) == open + (a + q);
        HeadOrigin(s, t, v, a, late, open, q);
      } else {
        ClashBehindChar(s[0], Replace(s[1..], t, v), a, late, p, open, q);
        ClashOrigin(s[1..], t, v, a, late);
        InFront(s, [s[0]], s[1..], t, a, late);
      }
    }
  }

  lemma InFront(s: string, front: string, rest: string, t: string, a: string, late: string)
    requires s == front + rest
    requires Clash(rest, a, late) || Clash(rest, t, late) || Clash(rest, t, a)
    ensures Clash(s, a, late) || Clash(s, t, late) || Clash(s, t, a)
  {
    if Clash(rest, a, late) {
      ClashBehind(s, front, rest, a, late);
    } else if Clash(rest, t, late) {
      ClashBehind(s, front, rest, t, late);
    } else {
      ClashBehind(s, front, rest, t, a);
    }
  }

  /** Two splits of one text at its second '[', or behind it. */
  lemma SameOpening(head: string, after: string, open: string, tail: string)
    requires Opening(head) && Opening(open) && head + after == open + tail && tail != "" && tail[0] == '['
    ensures head <= open && after != ""
    ensures after[0] == '[' ==> head == open && after == tail
  {
    var s := head + after;
    assert forall k | 0 < k < |head| :: s[k] == head[1..][k - 1];
    assert forall k | 0 < k < |open| :: s[k] == open[1..][k - 1];
    assert s[|open|] == tail[0];
    assert head == s[..|head|] == open[..|head|];
    assert after != "" ==> s[|head|] == after[0];
    if |head| == |open| {
      assert after == s[|head|..] == tail;
    }
  }

  lemma HeadOrigin(s: string, t: string, v: string, a: string, late: string, open: string, q: string)
    requires BracketToken(t) && BracketToken(a) && BracketToken(late) && s != "" && !(t <= s)
    requires Replace(s, t, v) == open + (a + q) && open != "" && open < late
    ensures Clash(s, a, late) || Clash(s, t, late) || Clash(s, t, a)
  {
    OpenIsPlain(late, open);
    ReplaceStep(s, t, v);
    assert s[0] == (open + (a + q))[0] == open[0];
    var head, rest := CopyOpening(s, t, v);
    SameOpening(head, Replace(rest, t, v), open, a + q);
    if t <= rest {
      HeadClash(s, t, late, head, rest);
    } else if rest != "" {
      assert a <= Replace(rest, t, v);
      HeadCreated(rest, t, v, a);
      if a <= rest {
        HeadClash(s, a, late, open, rest);
      } else {
        ClashBehind(s, head, rest, t, a);
      }
    } else {
      assert false;
    }
  }

  lemma StaysSettled(s: string, order: seq<string>, v: string)
    requires order != [] && Tokens(order) && Settled(s, order) && Without(v, '[')
    ensures Settled(Replace(s, order[0], v), order[1..])
  {
    var t, rest := order[0], order[1..];
    forall i, j | 0 <= i < j < |rest| ensures !Clash(Replace(s, t, v), rest[i], rest[j]) {
      assert rest[i] == order[i + 1] && rest[j] == order[j + 1];
      assert !Clash(s, order[i + 1], order[j + 1]);
      assert !Clash(s, order[0], order[j + 1]) && !Clash(s, order[0], order[i + 1]);
      if Clash(Replace(s, t, v), rest[i], rest[j]) {
        ClashOrigin(s, t, v, rest[i], rest[j]);
        assert false;
      }
    }
  }

  // ---------- Settled text: one after another is all at once ----------

  /** What the two forms do with another token at the start of text. */
  lemma StepAtToken(s: string, t: string, v: string, m: map<string, string>, u: string)
    requires TokenKeys(m) && BracketToken(t) && t !in m && u in m && u <= s
    ensures Substitute(s, m[t := v]) == m[u] + Substitute(s[|u|..], m[t := v])
    ensures Substitute(Replace(s, t, v), m) == m[u] + Substitute(Replace(s[|u|..], t, v), m)
  {
    var rest := s[|u|..];
    assert s == u + rest && BracketToken(u);
    ReplaceGroup(u, rest, t, v);
    var replaced := Replace(rest, t, v);
    assert (u + replaced)[|u|..] == replaced;
    SubstituteToken(u + replaced, u, m);
    SubstituteToken(s, u, m[t := v]);
  }

  lemma StepAtReplaced(s: string, t: string, v: string, m: map<string, string>)
    requires TokenKeys(m) && BracketToken(t) && t !in m && t <= s && Without(v, '[')
    ensures Substitute(s, m[t := v]) == v + Substitute(s[|t|..], m[t := v])
    ensures Substitute(Replace(s, t, v), m) == v + Substitute(Replace(s[|t|..], t, v), m)
  {
    SubstituteToken(s, t, m[t := v]);
    ReplaceToken(s, t, v);
    SubstitutePlain(v, Replace(s[|t|..], t, v), m);
  }

  lemma CopyFirst(s: string, m: map<string, string>)
    requires s != "" && forall t | t in m :: !(t <= s)
    ensures Substitute(s, m) == [s[0]] + Substitute(s[1..], m)
  {}

  lemma RestUnclashed(s: string, front: string, rest: string, t: string, m: map<string, string>)
    requires s == front + rest && forall u | u in m :: !Clash(s, t, u)
    ensures forall u | u in m :: !Clash(rest, t, u)
  {
    forall u | u in m ensures !Clash(rest, t, u) {
      if Clash(rest, t, u) {
        ClashBehind(s, front, rest, t, u);
        assert false;
      }
    }
  }

  lemma {:induction false} SettledStep(s: string, t: string, v: string, m: map<string, string>)
    requires TokenKeys(m) && BracketToken(t) && t !in m && Without(v, '[')
    requires forall u | u in m :: !Clash(s, t, u)
    ensures Substitute(Replace(s, t, v), m) == Substitute(s, m[t := v])
    decreases |s|
  {
    if s == "" {
    } else if t <= s {
      RestUnclashed(s, t, s[|t|..], t, m);
      SettledStep(s[|t|..], t, v, m);
      StepAtReplaced(s, t, v, m);
    } else if u :| u in m && u <= s {
      RestUnclashed(s, u, s[|u|..], t, m);
      assert BracketToken(u);
      SettledStep(s[|u|..], t, v, m);
      StepAtToken(s, t, v, m, u);
    } else {
      RestUnclashed(s, [s[0]], s[1..], t, m);
      SettledStep(s[1..], t, v, m);
      ReplaceStep(s, t, v);
      forall u | u in m ensures !(u <= Replace(s, t, v)) {
        if u <= Replace(s, t, v) {
          HeadCreated(s, t, v, u);
          assert false;
        }
      }
      CopyFirst(Replace(s, t, v), m);
      CopyFirst(s, m[t := v]);
    }
  }

  lemma WithoutFirst(order: seq<string>, m: map<string, string>) returns (m': map<string, string>)
    requires order != [] && Lists(order, m)
    ensures m' == m - {order[0]} && Lists(order[1..], m') && m == m'[order[0] := m[order[0]]]
  {
    m' := m - {order[0]};
    forall u ensures u in order[1..] <==> u in m' {
      assert u in order <==> u == order[0] || u in order[1..];
    }
  }

  /** On text settled for the order, replacing one token after another is one simultaneous substitution. */
  lemma {:induction false} SettledIsSimultaneous(s: string, m: map<string, string>, order: seq<string>)
    requires Tokens(order) && Lists(order, m) && PlainValues(m) && Settled(s, order)
    ensures ReplaceAll(s, m, order) == Substitute(s, m)
    decreases |order|
  {
    if order == [] {
      SubstituteNothing(s, m);
    } else {
      var t, rest := order[0], order[1..];
      var m' := WithoutFirst(order, m);
      forall u | u in m' ensures !Clash(s, t, u) {
        var j :| 0 <= j < |rest| && rest[j] == u;
        assert order[j + 1] == u;
      }
      StaysSettled(s, order, m[t]);
      SettledIsSimultaneous(Replace(s, t, m[t]), m', rest);
      ReplaceAllDependsOnOrder(Replace(s, t, m[t]), m, m', rest);
      SettledStep(s, t, m[t], m');
    }
  }

  // ---------- Text that is not settled: some values make a difference ----------

  /** Every value is at least as long as its token. */
  ghost predicate Growing(m: map<string, string>) {
    PlainValues(m) && forall t | t in m :: |m[t]| >= |t|
  }

  /** Where replacing makes a token, that is replaced in turn: with values so long, the text gets no shorter by it. */
  lemma {:induction false} StepNotShorter(s: string, t: string, v: string, m: map<string, string>)
    requires TokenKeys(m) && BracketToken(t) && t !in m && Without(v, '[') && Growing(m)
    ensures |Substitute(Replace(s, t, v), m)| >= |Substitute(s, m[t := v])|
    decreases |s|
  {
    if s == "" {
    } else if t <= s {
      StepNotShorter(s[|t|..], t, v, m);
      StepAtReplaced(s, t, v, m);
    } else if u :| u in m && u <= s {
      assert BracketToken(u);
      StepNotShorter(s[|u|..], t, v, m);
      StepAtToken(s, t, v, m, u);
    } else {
      StepNotShorter(s[1..], t, v, m);
      ReplaceStep(s, t, v);
      CopyFirst(s, m[t := v]);
      HeadNotShorter(Replace(s, t, v), m);
    }
  }

  lemma HeadNotShorter(s: string, m: map<string, string>)
    requires s != "" && TokenKeys(m) && Growing(m)
    ensures |Substitute(s, m)| >= 1 + |Substitute(s[1..], m)|
  {
    if u :| u in m && u <= s {
      assert BracketToken(u) && s == u + s[|u|..];
      TokenNotShorter(s, u, s[|u|..], m);
    } else {
      CopyFirst(s, m);
    }
  }

  lemma TokenNotShorter(s: string, u: string, rest: string, m: map<string, string>)
    requires TokenKeys(m) && Growing(m) && u in m && BracketToken(u) && s == u + rest
    ensures |Substitute(s, m)| >= 1 + |Substitute(s[1..], m)|
  {
    assert s[|u|..] == rest && s[1..] == u[1..] + rest;
    SubstituteToken(s, u, m);
    SubstitutePlain(u[1..], rest, m);
  }

  lemma {:induction false} SubstituteSplits(a: string, b: string, m: map<string, string>)
    requires TokenKeys(m) && b != "" && b[0] == '['
    ensures Substitute(a + b, m) == Substitute(a, m) + Substitute(b, m)
    decreases |a|
  {
    if a == "" {
      assert a + b == b;
    } else if u :| u in m && u <= a {
      assert BracketToken(u);
      var rest := a[|u|..];
      assert u <= a + b && (a + b)[|u|..] == rest + b;
      SubstituteSplits(rest, b, m);
      SubstituteToken(a, u, m);
      SubstituteToken(a + b, u, m);
      Assoc(m[u], Substitute(rest, m), Substitute(b, m));
    } else {
      forall u | u in m ensures !(u <= a + b) {
        TokenNotAcross(a, b, u);
      }
      assert (a + b)[1..] == a[1..] + b;
      SubstituteSplits(a[1..], b, m);
      CopyFirst(a, m);
      CopyFirst(a + b, m);
      Assoc([a[0]], Substitute(a[1..], m), Substitute(b, m));
    }
  }

  lemma MergedToken(open: string, y: string, z: string, q: string, late: string)
    requires late == open + y
    ensures open + ((y + z) + q) == late + (z + q)
  {}

  /** What one pass makes of the text around a clash. */
  lemma OnceAtClash(s: string, t: string, m: map<string, string>, p: string, open: string, q: string)
    requires TokenKeys(m) && t in m && open != "" && open[0] == '[' && Without(open, ']')
    requires s == p + (open + (t + q))
    ensures Substitute(s, m) == Substitute(p, m) + (open + (m[t] + Substitute(q, m)))
  {
    var tail := t + q;
    assert BracketToken(t) && (open + tail)[0] == '[' && tail[0] == '[' && tail[|t|..] == q;
    SubstituteSplits(p, open + tail, m);
    SubstituteSplits(open, tail, m);
    SubstituteUnclosed(open, m);
    SubstituteToken(tail, t, m);
  }

  /** What the loop makes of it, when t's value starts with what completes the later token. */
  lemma LoopAtClash(s: string, t: string, y: string, z: string, late: string, m: map<string, string>,
                    p: string, open: string, q: string)
    requires TokenKeys(m) && BracketToken(t) && t !in m && late in m && Without(z, '[')
    requires open != "" && open[0] == '[' && Without(open, ']') && late == open + y && s == p + (open + (t + q))
    ensures var v := y + z;
            Substitute(Replace(s, t, v), m) ==
            Substitute(Replace(p, t, v), m) + (m[late] + (z + Substitute(Replace(q, t, v), m)))
  {
    var v, tail := y + z, t + q;
    var p', q' := Replace(p, t, v), Replace(q, t, v);
    assert BracketToken(late) && (open + tail)[0] == '[';
    ReplaceSplits(p, open + tail, t, v);
    ReplaceBehindOpen(open, t, q, v);
    MergedToken(open, y, z, q', late);
    SubstituteSplits(p', late + (z + q'), m);
    assert (late + (z + q'))[|late|..] == z + q';
    SubstituteToken(late + (z + q'), late, m);
    SubstitutePlain(z, q', m);
  }

  /** The clash leaves y of the later token to be completed. */
  ghost predicate ClashFor(s: string, t: string, late: string, y: string) {
    exists p, open, q :: ClashAt(s, t, late, p, open, q) && late == open + y
  }

  lemma StepLonger(s: string, t: string, y: string, z: string, late: string, m: map<string, string>)
    requires TokenKeys(m) && BracketToken(t) && t !in m && late in m && Without(y + z, '[')
    requires Growing(m) && |m[late]| > |late| && ClashFor(s, t, late, y)
    ensures |Substitute(Replace(s, t, y + z), m)| > |Substitute(s, m[t := y + z])|
  {
    var p, open, q :| ClashAt(s, t, late, p, open, q) && late == open + y;
    OpenIsPlain(late, open);
    assert forall i | 0 <= i < |z| :: z[i] == (y + z)[|y| + i];
    OnceAtClash(s, t, m[t := y + z], p, open, q);
    LoopAtClash(s, t, y, z, late, m, p, open, q);
    StepNotShorter(p, t, y + z, m);
    StepNotShorter(q, t, y + z, m);
  }

  lemma {:induction false} AllNotShorter(s: string, m: map<string, string>, order: seq<string>)
    requires Tokens(order) && Lists(order, m) && Growing(m)
    ensures |ReplaceAll(s, m, order)| >= |Substitute(s, m)|
    decreases |order|
  {
    if order == [] {
      SubstituteNothing(s, m);
    } else {
      var t, rest := order[0], order[1..];
      var m' := WithoutFirst(order, m);
      AllNotShorter(Replace(s, t, m[t]), m', rest);
      ReplaceAllDependsOnOrder(Replace(s, t, m[t]), m, m', rest);
      StepNotShorter(s, t, m[t], m');
    }
  }

  /** A clash outlives the replacement of a third token. */
  lemma ClashForStays(s: string, t: string, late: string, other: string, v: string, y: string)
    requires BracketToken(t) && BracketToken(late) && BracketToken(other) && other != t && ClashFor(s, t, late, y)
    ensures ClashFor(Replace(s, other, v), t, late, y)
  {
    var p, open, q :| ClashAt(s, t, late, p, open, q) && late == open + y;
    OpenIsPlain(late, open);
    var tail := t + q;
    assert (open + tail)[0] == '[' && tail[0] == '[';
    ReplaceSplits(p, open + tail, other, v);
    ReplaceSplits(open, tail, other, v);
    ReplaceUnclosed(open, other, v);
    ReplaceGroup(t, q, other, v);
    assert ClashAt(Replace(s, other, v), t, late, Replace(p, other, v), open, Replace(q, other, v));
  }

  /** A clash at positions i and j, with values that show it. */
  ghost predicate ShownAt(s: string, m: map<string, string>, order: seq<string>, i: nat, j: nat, y: string, z: string) {
    && Tokens(order) && Lists(order, m) && Growing(m) && i < j < |order|
    && ClashFor(s, order[i], order[j], y) && m[order[i]] == y + z && |m[order[j]]| > |order[j]|
  }

  lemma FirstClashLengthens(s: string, m: map<string, string>, order: seq<string>, j: nat, y: string, z: string)
    requires ShownAt(s, m, order, 0, j, y, z)
    ensures |ReplaceAll(s, m, order)| > |Substitute(s, m)|
  {
    var t, rest := order[0], order[1..];
    var m' := WithoutFirst(order, m);
    assert order[j] == rest[j - 1];
    ReplaceAllDependsOnOrder(Replace(s, t, m[t]), m, m', rest);
    AllNotShorter(Replace(s, t, m[t]), m', rest);
    StepLonger(s, t, y, z, order[j], m');
  }

  lemma ShownBehind(s: string, m: map<string, string>, order: seq<string>, i: nat, j: nat, y: string, z: string)
    returns (m': map<string, string>)
    requires i > 0 && ShownAt(s, m, order, i, j, y, z)
    ensures m' == m - {order[0]} && Lists(order[1..], m') && m == m'[order[0] := m[order[0]]]
    ensures ShownAt(Replace(s, order[0], m[order[0]]), m', order[1..], i - 1, j - 1, y, z)
  {
    var t, rest := order[0], order[1..];
    m' := WithoutFirst(order, m);
    ClashForStays(s, order[i], order[j], t, m[t], y);
    assert rest[i - 1] == order[i] && rest[j - 1] == order[j];
  }

  lemma LaterClashLengthens(s: string, m: map<string, string>, order: seq<string>, m': map<string, string>)
    requires order != [] && Tokens(order) && Lists(order, m) && Growing(m) && m' == m - {order[0]}
    requires Lists(order[1..], m') && m == m'[order[0] := m[order[0]]]
    requires var s' := Replace(s, order[0], m[order[0]]); |ReplaceAll(s', m', order[1..])| > |Substitute(s', m')|
    ensures |ReplaceAll(s, m, order)| > |Substitute(s, m)|
  {
    var t := order[0];
    ReplaceAllDependsOnOrder(Replace(s, t, m[t]), m, m', order[1..]);
    StepNotShorter(s, t, m[t], m');
  }

  /** With a clash, values that complete its token make the loop's result strictly longer. */
  lemma {:induction false} ClashLengthens(s: string, m: map<string, string>, order: seq<string>, i: nat, j: nat,
                                          y: string, z: string)
    requires ShownAt(s, m, order, i, j, y, z)
    ensures |ReplaceAll(s, m, order)| > |Substitute(s, m)|
    decreases |order|
  {
    if i == 0 {
      FirstClashLengthens(s, m, order, j, y, z);
    } else {
      var m' := ShownBehind(s, m, order, i, j, y, z);
      ClashLengthens(Replace(s, order[0], m[order[0]]), m', order[1..], i - 1, j - 1, y, z);
      LaterClashLengthens(s, m, order, m');
    }
  }

  function Filler(n: nat): string {
    seq(n, i => 'x')
  }

  /** Values that show a clash at t: what completes the later token, and text without brackets for all others. */
  function Showing(order: seq<string>, t: string, y: string): map<string, string> {
    map u | u in order :: if u == t then y + Filler(|t|) else Filler(|u| + 1)
  }

  lemma ShowingGrows(order: seq<string>, t: string, y: string)
    requires Tokens(order) && Without(y, '[')
    ensures Lists(order, Showing(order, t, y)) && Growing(Showing(order, t, y))
  {
    var m := Showing(order, t, y);
    forall u | u in m ensures Without(m[u], '[') && |m[u]| >= |u| {
      assert Without(Filler(|u| + 1), '[') && Without(Filler(|t|), '[');
    }
    assert forall u :: u in order <==> u in m;
  }

  lemma Remainder(token: string, open: string) returns (y: string)
    requires BracketToken(token) && open != "" && open < token
    ensures token == open + y && Without(y, '[')
  {
    y := token[|open|..];
    assert forall k | 0 <= k < |y| :: y[k] == token[1..][|open| + k - 1];
  }

  lemma ClashShows(s: string, order: seq<string>, i: nat, j: nat) returns (m: map<string, string>)
    requires Tokens(order) && i < j < |order| && Clash(s, order[i], order[j])
    ensures Lists(order, m) && PlainValues(m) && ReplaceAll(s, m, order) != Substitute(s, m)
  {
    var t, late := order[i], order[j];
    var p, open, q :| ClashAt(s, t, late, p, open, q);
    var y := Remainder(late, open);
    m := Showing(order, t, y);
    ShowingGrows(order, t, y);
    assert ClashFor(s, t, late, y);
    ClashLengthens(s, m, order, i, j, y, Filler(|t|));
  }

  /** The exact condition: on this text, replacing these tokens in this order is simultaneous for all plain values. */
  lemma SimultaneousIffSettled(s: string, order: seq<string>)
    requires Tokens(order)
    ensures Settled(s, order) <==>
            forall m | Lists(order, m) && PlainValues(m) :: ReplaceAll(s, m, order) == Substitute(s, m)
  {
    if Settled(s, order) {
      forall m | Lists(order, m) && PlainValues(m) ensures ReplaceAll(s, m, order) == Substitute(s, m) {
        SettledIsSimultaneous(s, m, order);
      }
    } else {
      var i, j :| 0 <= i < j < |order| && Clash(s, order[i], order[j]);
      var m := ClashShows(s, order, i, j);
    }
  }

  // ---------- The code's own order, longest first ----------

  /** An unclosed '[' directly before a closed group: the text between is u, the group's is w. */
  ghost predicate Nested(s: string, p: string, u: string, w: string, q: string) {
    && Without(u, '[') && Without(u, ']') && Without(w, '[') && Without(w, ']')
    && s == p + (("[" + u) + (("[" + w + "]") + q))
  }

  /** Before a closed group, an unclosed '[' is followed by more text than the group has, or by the same. */
  ghost predicate Guarded(s: string) {
    forall p, u, w, q | Nested(s, p, u, w, q) :: |u| > |w| || u == w
  }

  lemma TokenBody(t: string) returns (w: string)
    requires BracketToken(t)
    ensures t == "[" + w + "]" && Without(w, '[') && Without(w, ']')
  {
    w := t[1..|t| - 1];
    assert forall k | 0 <= k < |w| :: w[k] == t[1..][k] && w[k] == t[..|t| - 1][k + 1];
    assert t == [t[0]] + w + [t[|t| - 1]];
  }

  lemma NoLonger(t: string, late: string, u: string, w: string)
    requires t == "[" + w + "]" && BracketToken(late) && |late| <= |t| && "[" + u < late
    requires |u| > |w| || u == w
    ensures late == t
  {
    assert |late| == |u| + 2 == |t|;
    assert late == late[..|u| + 1] + [late[|u| + 1]];
  }

  lemma GuardedHasNoClash(s: string, t: string, late: string)
    requires Guarded(s) && BracketToken(t) && BracketToken(late) && t != late && |t| >= |late|
    ensures !Clash(s, t, late)
  {
    if Clash(s, t, late) {
      var p, open, q :| ClashAt(s, t, late, p, open, q);
      var w := TokenBody(t);
      OpenIsPlain(late, open);
      var u := open[1..];
      assert open == "[" + u;
      assert Nested(s, p, u, w, q);
      NoLonger(t, late, u, w);
      assert false;
    }
  }

  lemma BodyToken(w: string)
    requires Without(w, '[') && Without(w, ']')
    ensures BracketToken("[" + w + "]") && "[" + w < "[" + w + "]"
  {
    TokenOfParts("", w);
    assert "[" + "" + (w + "]") == "[" + w + "]";
  }

  lemma PairInOrder(a: string, b: string)
    requires |a| >= |b|
    ensures LongestFirst([a, b]) == [a, b]
  {
    var keys: seq<string> := [a, b];
    var last: seq<string> := keys[1..];
    assert last == [b] && last[1..] == [];
    assert LongestFirst(last) == [b];
  }

  lemma UnguardedClashes(s: string, p: string, u: string, w: string, q: string)
    requires Nested(s, p, u, w, q) && |u| <= |w| && u != w
    ensures var keys := ["[" + w + "]", "[" + u + "]"];
            Tokens(keys) && LongestFirst(keys) == keys && !Settled(s, keys)
  {
    var t, late := "[" + w + "]", "[" + u + "]";
    BodyToken(w);
    BodyToken(u);
    DifferentBodies(u, w);
    PairInOrder(t, late);
    assert ClashAt(s, t, late, p, "[" + u, q);
  }

  lemma DifferentBodies(u: string, w: string)
    requires u != w
    ensures "[" + u + "]" != "[" + w + "]"
  {
    var a, b := "[" + u + "]", "[" + w + "]";
    assert a[1..|a| - 1] == u && b[1..|b| - 1] == w;
  }

  lemma GuardedIsSimultaneous(s: string, m: map<string, string>, keys: seq<string>)
    requires Guarded(s) && TokenKeys(m) && PlainValues(m) && Lists(keys, m)
    ensures ReplaceAll(s, m, LongestFirst(keys)) == Substitute(s, m)
  {
    LongestFirstLists(keys, m);
    GuardedIsSettled(s, m, keys);
    SettledIsSimultaneous(s, m, LongestFirst(keys));
  }

  /** The order the code uses is simultaneous for every mapping with plain values exactly on guarded text. */
  lemma LongestFirstIffGuarded(s: string)
    ensures Guarded(s) <==>
            forall m, keys | TokenKeys(m) && PlainValues(m) && Lists(keys, m) ::
              ReplaceAll(s, m, LongestFirst(keys)) == Substitute(s, m)
  {
    if Guarded(s) {
      forall m, keys | TokenKeys(m) && PlainValues(m) && Lists(keys, m)
        ensures ReplaceAll(s, m, LongestFirst(keys)) == Substitute(s, m)
      {
        GuardedIsSimultaneous(s, m, keys);
      }
    } else {
      var p, u, w, q :| Nested(s, p, u, w, q) && |u| <= |w| && u != w;
      var keys := ["[" + w + "]", "[" + u + "]"];
      UnguardedClashes(s, p, u, w, q);
      SimultaneousIffSettled(s, keys);
      var m :| Lists(keys, m) && PlainValues(m) && ReplaceAll(s, m, keys) != Substitute(s, m);
      assert TokenKeys(m);
    }
  }

  /** If the path leads to a string, it is guarded. */
  ghost predicate GuardedAt(node: Json, path: seq<nat>) {
    NodeAt(node, path).Some? && NodeAt(node, path).value.Str? ==> Guarded(NodeAt(node, path).value.s)
  }

  /**
   At every path the unmasked tree has a node exactly where the data has one; where that is guarded, it is the restored
   node, whatever the rest of the tree holds.
   */
  lemma UnmaskTreeAt(data: Json, m: map<string, string>, keys: seq<string>, path: seq<nat>)
    requires Lists(keys, m) && TokenKeys(m) && PlainValues(m) && GuardedAt(data, path)
    ensures NodeAt(UnmaskTree(data, m, keys), path).Some? == NodeAt(data, path).Some?
    ensures NodeAt(data, path).Some? ==>
              Restored(NodeAt(data, path).value, NodeAt(UnmaskTree(data, m, keys), path).value, m)
  {
    LongestFirstLists(keys, m);
    WalkTreeNode(data, m, LongestFirst(keys), path);
    if NodeAt(data, path).Some? && NodeAt(data, path).value.Str? {
      var s := NodeAt(data, path).value.s;
      if m == map[] {
        SubstituteNothing(s, m);
      } else {
        GuardedIsSimultaneous(s, m, keys);
      }
    }
  }

  /** Flat text is guarded, and some guarded text is not flat. */
  lemma FlatIsGuarded(s: string)
    ensures Flat(s) ==> Guarded(s)
    ensures Guarded("[[]") && !Flat("[[]")
  {
    if Flat(s) {
      forall m, keys | TokenKeys(m) && PlainValues(m) && Lists(keys, m)
        ensures ReplaceAll(s, m, LongestFirst(keys)) == Substitute(s, m)
      {
        LongestFirstLists(keys, m);
        SequentialIsSimultaneous(s, m, LongestFirst(keys));
      }
      LongestFirstIffGuarded(s);
    }
    forall p, u, w, q | Nested("[[]", p, u, w, q) ensures u == w {
      assert |"[[]"| == |p| + 1 + |u| + 2 + |w| + |q|;
    }
    CloseUnique("[[]", 2);
    assert "[[]"[1..2] == "[";
  }

  lemma FlatIsSettled(s: string, order: seq<string>)
    requires Flat(s) && Tokens(order)
    ensures Settled(s, order)
  {
    forall m | Lists(order, m) && PlainValues(m) ensures ReplaceAll(s, m, order) == Substitute(s, m) {
      SequentialIsSimultaneous(s, m, order);
    }
    SimultaneousIffSettled(s, order);
  }

  lemma GuardedIsSettled(s: string, m: map<string, string>, keys: seq<string>)
    requires Guarded(s) && TokenKeys(m) && Lists(keys, m)
    ensures Tokens(LongestFirst(keys)) && Settled(s, LongestFirst(keys))
  {
    var order := LongestFirst(keys);
    LongestFirstSorts(keys);
    forall i, j | 0 <= i < j < |order| ensures !Clash(s, order[i], order[j]) {
      assert order[i] in order && order[j] in order;
      GuardedHasNoClash(s, order[i], order[j]);
    }
  }

  // ---------- Opening brackets only become fewer ----------

  /** The number of opening brackets. */
  function Opens(s: string): nat {
    if s == "" then 0 else (if s[0] == '[' then 1 else 0) + Opens(s[1..])
  }

  lemma {:induction false} OpensConcat(a: string, b: string)
    ensures Opens(a + b) == Opens(a) + Opens(b)
  {
    if a == "" {
      assert a + b == b;
    } else {
      assert (a + b)[1..] == a[1..] + b;
      OpensConcat(a[1..], b);
    }
  }

  lemma {:induction false} OpensPlain(s: string)
    requires Without(s, '[')
    ensures Opens(s) == 0
  {
    if s != "" {
      OpensPlain(s[1..]);
    }
  }

  lemma OpensToken(t: string)
    requires BracketToken(t)
    ensures Opens(t) == 1
  {
    OpensPlain(t[1..]);
  }

  /** The text holds some key of the map. */
  ghost predicate HoldsKey(s: string, m: map<string, string>) {
    exists t | t in m :: Contains(s, t)
  }

  lemma OccursBehind(c: char, rest: string, t: string, i: nat)
    ensures OccursAt([c] + rest, t, i + 1) <==> OccursAt(rest, t, i)
  {
    var s := [c] + rest;
    if i + |t| <= |rest| {
      assert s[i + 1..i + 1 + |t|] == rest[i..i + |t|];
    }
  }

  /** A key occurs at the start or behind it. */
  lemma KeyBehind(s: string, c: char, rest: string, m: map<string, string>)
    requires s == [c] + rest && forall t | t in m :: t != "" && !(t <= s)
    ensures HoldsKey(s, m) <==> HoldsKey(rest, m)
  {
    if HoldsKey(s, m) {
      var t :| t in m && Contains(s, t);
      var i: nat :| i <= |s| && OccursAt(s, t, i);
      assert i > 0;
      OccursBehind(c, rest, t, i - 1);
    }
    if HoldsKey(rest, m) {
      var t :| t in m && Contains(rest, t);
      var i: nat :| i <= |rest| && OccursAt(rest, t, i);
      OccursBehind(c, rest, t, i);
    }
  }

  lemma KeyInFront(s: string, t: string, m: map<string, string>)
    requires t in m && t <= s
    ensures HoldsKey(s, m)
  {
    assert OccursAt(s, t, 0);
  }

  /** Where no key occurs, nothing is substituted. */
  lemma {:induction false} SubstituteAbsent(s: string, m: map<string, string>)
    requires TokenKeys(m) && !HoldsKey(s, m)
    ensures Substitute(s, m) == s
  {
    if s != "" {
      forall t | t in m ensures t != "" && !(t <= s) {
        assert BracketToken(t);
        if t <= s {
          KeyInFront(s, t, m);
          assert false;
        }
      }
      assert s == [s[0]] + s[1..];
      KeyBehind(s, s[0], s[1..], m);
      CopyChar(s, s[0], s[1..], m);
      SubstituteAbsent(s[1..], m);
    }
  }

  /** Plain values put in for tokens take their brackets away. */
  lemma {:induction false} SubstituteOpens(s: string, m: map<string, string>)
    requires TokenKeys(m) && PlainValues(m)
    ensures Opens(Substitute(s, m)) <= Opens(s)
    ensures HoldsKey(s, m) ==> Opens(Substitute(s, m)) < Opens(s)
    decreases |s|
  {
    if s == "" {
      forall t | t in m ensures !Contains(s, t) {
        assert BracketToken(t);
      }
    } else if u :| u in m && u <= s {
      TokenOpens(s, u, s[|u|..], m);
      SubstituteOpens(s[|u|..], m);
    } else {
      CopyFirst(s, m);
      OpensConcat([s[0]], Substitute(s[1..], m));
      SubstituteOpens(s[1..], m);
      assert s == [s[0]] + s[1..] && forall t | t in m :: BracketToken(t);
      KeyBehind(s, s[0], s[1..], m);
    }
  }

  lemma TokenOpens(s: string, u: string, rest: string, m: map<string, string>)
    requires TokenKeys(m) && PlainValues(m) && u in m && u <= s && rest == s[|u|..]
    ensures Opens(s) == 1 + Opens(rest) && Opens(Substitute(s, m)) == Opens(Substitute(rest, m))
  {
    assert BracketToken(u) && s == u + rest;
    OpensToken(u);
    OpensConcat(u, rest);
    SubstituteToken(s, u, m);
    OpensPlain(m[u]);
    OpensConcat(m[u], Substitute(rest, m));
  }

  lemma HeadOpens(s: string, m: map<string, string>)
    requires s != "" && TokenKeys(m) && PlainValues(m)
    ensures Opens(Substitute(s, m)) <= Opens([s[0]]) + Opens(Substitute(s[1..], m))
  {
    if u :| u in m && u <= s {
      TokenOpens(s, u, s[|u|..], m);
      TailOpens(s, u, s[|u|..], m);
    } else {
      CopyFirst(s, m);
      OpensConcat([s[0]], Substitute(s[1..], m));
    }
  }

  lemma TailOpens(s: string, u: string, rest: string, m: map<string, string>)
    requires TokenKeys(m) && u in m && u <= s && rest == s[|u|..]
    ensures Opens(Substitute(rest, m)) <= Opens(Substitute(s[1..], m))
  {
    var tail := u[1..];
    assert BracketToken(u) && s[1..] == tail + rest;
    SubstitutePlain(tail, rest, m);
    OpensConcat(tail, Substitute(rest, m));
  }

  lemma {:induction false} StepOpens(s: string, t: string, v: string, m: map<string, string>)
    requires TokenKeys(m) && BracketToken(t) && t !in m && Without(v, '[') && PlainValues(m)
    ensures Opens(Substitute(Replace(s, t, v), m)) <= Opens(Substitute(s, m[t := v]))
    decreases |s|
  {
    if s == "" {
    } else if t <= s {
      StepOpens(s[|t|..], t, v, m);
      StepAtReplaced(s, t, v, m);
      OpensConcat(v, Substitute(s[|t|..], m[t := v]));
      OpensConcat(v, Substitute(Replace(s[|t|..], t, v), m));
    } else if u :| u in m && u <= s {
      assert BracketToken(u);
      StepOpens(s[|u|..], t, v, m);
      StepAtToken(s, t, v, m, u);
      OpensConcat(m[u], Substitute(s[|u|..], m[t := v]));
      OpensConcat(m[u], Substitute(Replace(s[|u|..], t, v), m));
    } else {
      StepOpens(s[1..], t, v, m);
      ReplaceStep(s, t, v);
      CopyFirst(s, m[t := v]);
      OpensConcat([s[0]], Substitute(s[1..], m[t := v]));
      HeadOpens(Replace(s, t, v), m);
    }
  }

  /** In whatever order: the loop leaves no more opening brackets than one simultaneous pass. */
  lemma {:induction false} AllOpens(s: string, m: map<string, string>, order: seq<string>)
    requires TokenKeys(m) && PlainValues(m) && Lists(order, m)
    ensures Opens(ReplaceAll(s, m, order)) <= Opens(Substitute(s, m))
    decreases |order|
  {
    if order == [] {
      SubstituteNothing(s, m);
    } else {
      var t, rest := order[0], order[1..];
      var m' := WithoutFirst(order, m);
      AllOpens(Replace(s, t, m[t]), m', rest);
      ReplaceAllDependsOnOrder(Replace(s, t, m[t]), m, m', rest);
      StepOpens(s, t, m[t], m');
    }
  }
}
