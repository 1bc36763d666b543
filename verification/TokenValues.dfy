/**
 Values that may hold brackets (app/services/pii/unmasker.py): the exact condition on one value under which the loop
 over the tokens does what one simultaneous pass does, on every flat text.
 */
module TokenValues {
  import opened Text
  import opened Unmasker
  import opened TokenOrder

  ghost predicate OpenEnd(v: string, late: string, front: string, open: string) {
    v == front + open && open != "" && open < late
  }

  /** The value ends in a proper part of the token. */
  ghost predicate EndsOpen(v: string, late: string) {
    exists front, open :: OpenEnd(v, late, front, open)
  }

  ghost predicate Spares(v: string, late: string) {
    !Contains(v, late) && !EndsOpen(v, late)
  }

  /** The value neither holds a later token nor ends in a proper part of one. */
  ghost predicate Harmless(v: string, later: seq<string>) {
    forall late | late in later :: Spares(v, late)
  }

  /** A value for one token, plain values for the others. */
  ghost predicate OneValue(m: map<string, string>, t: string, v: string) {
    t in m && m[t] == v && forall u | u in m && u != t :: Without(m[u], '[')
  }

  // ---------- A harmless value creates nothing ----------

  /** A token that begins in the value lies in it, or the value ends in a part of it. */
  lemma TokenInFront(v: string, rest: string, late: string, k: nat)
    requires k < |v| && late <= (v + rest)[k..]
    ensures !Spares(v, late)
  {
    var s := (v + rest)[k..];
    assert s == v[k..] + rest;
    if |late| <= |v| - k {
      assert v[k..k + |late|] == late;
      assert OccursAt(v, late, k);
    } else {
      assert v[k..] == s[..|v| - k] == late[..|v| - k];
      assert OpenEnd(v, late, v[..k], v[k..]);
    }
  }

  lemma NoTokenInFront(v: string, rest: string, late: string, k: nat)
    requires Spares(v, late) && k < |v|
    ensures !(late <= (v + rest)[k..])
  {
    if late <= (v + rest)[k..] {
      TokenInFront(v, rest, late, k);
      assert false;
    }
  }

  lemma {:induction false} SubstituteBehindValue(v: string, k: nat, rest: string, m: map<string, string>)
    requires TokenKeys(m) && k <= |v| && forall u | u in m :: Spares(v, u)
    ensures Substitute(v[k..] + rest, m) == v[k..] + Substitute(rest, m)
    decreases |v| - k
  {
    if k == |v| {
      assert v[k..] + rest == rest;
    } else {
      var s, c, tail := v[k..] + rest, v[k], v[k + 1..];
      assert v[k..] == [c] + tail;
      Assoc([c], tail, rest);
      assert s == (v + rest)[k..];
      forall u | u in m ensures !(u <= s) {
        assert BracketToken(u);
        NoTokenInFront(v, rest, u, k);
      }
      CopyChar(s, c, tail + rest, m);
      SubstituteBehindValue(v, k + 1, rest, m);
      Assoc([c], tail, Substitute(rest, m));
    }
  }

  /** Putting a harmless value in first, then substituting the rest at once, is substituting everything at once. */
  lemma {:induction false} HarmlessThenSubstitute(s: string, t: string, v: string, m: map<string, string>)
    requires Flat(s) && BracketToken(t) && TokenKeys(m) && t !in m && forall u | u in m :: Spares(v, u)
    ensures Substitute(Replace(s, t, v), m) == Substitute(s, m[t := v])
    decreases |s|
  {
    var m' := m[t := v];
    if s == "" {
    } else if s[0] != '[' {
      assert s == s[..1] + s[1..];
      ReplacePlain(s[..1], s[1..], t, v);
      SubstitutePlain(s[..1], Replace(s[1..], t, v), m);
      SubstitutePlain(s[..1], s[1..], m');
      HarmlessThenSubstitute(s[1..], t, v, m);
    } else if Close(s) == |s| {
      CloseFirst(s);
      assert s[..|s|] == s;
      ReplaceUnclosed(s, t, v);
      SubstituteUnclosed(s, m);
      SubstituteUnclosed(s, m');
    } else {
      var g, b := FlatGroup(s);
      HarmlessThenSubstitute(b, t, v, m);
      if g == t {
        ReplaceToken(s, t, v);
        assert v[0..] == v;
        SubstituteBehindValue(v, 0, Replace(b, t, v), m);
        SubstituteToken(s, t, m');
      } else {
        ReplaceGroup(g, b, t, v);
        if g in m {
          SubstituteToken(g + Replace(b, t, v), g, m);
          SubstituteToken(s, g, m');
        } else {
          SubstituteGroup(g, Replace(b, t, v), m);
          SubstituteGroup(g, b, m');
        }
      }
    }
  }

  /** A clash in text behind a value lies in the text, or the value is to blame. */
  lemma ValueClash(v: string, rest: string, a: string, late: string)
    requires Clash(v + rest, a, late)
    ensures !Spares(v, a) || !Spares(v, late) || Clash(rest, a, late)
  {
    var s := v + rest;
    var p, open, q :| ClashAt(s, a, late, p, open, q);
    var k := |p| + |open|;
    if |p| >= |v| {
      ClashFromBehind(v, rest, a, late, p, open, q);
    } else if k >= |v| {
      assert s[|p|..] == open + (a + q);
      assert v[|p|..] == s[|p|..|v|] == open[..|v| - |p|];
      assert OpenEnd(v, late, v[..|p|], v[|p|..]);
    } else {
      assert s[k..] == a + q;
      TokenInFront(v, rest, a, k);
    }
  }

  /** A clash in text behind a bracket group lies in the text. */
  lemma GroupClash(g: string, rest: string, a: string, late: string)
    requires BracketToken(g) && BracketToken(a) && BracketToken(late) && Clash(g + rest, a, late)
    ensures Clash(rest, a, late)
  {
    var p, open, q :| ClashAt(g + rest, a, late, p, open, q);
    OpenIsPlain(late, open);
    if |p| >= |g| {
      ClashFromBehind(g, rest, a, late, p, open, q);
    } else {
      GroupBlocks(g, rest, p, open, a + q);
      assert false;
    }
  }

  /** An opening that begins in a group ends there, and no '[' follows it. */
  lemma GroupBlocks(g: string, rest: string, p: string, open: string, tail: string)
    requires BracketToken(g) && |p| < |g| && open != "" && open[0] == '[' && Without(open, ']')
    requires g + rest == p + (open + tail) && tail != ""
    ensures tail[0] != '['
  {
    var s := g + rest;
    assert s[|p|] == open[0] && s[|p|] == g[|p|];
    assert forall k | 0 < k < |g| :: s[k] == g[1..][k - 1];
    assert |p| == 0;
    assert |open| < |g| by {
      assert s[|g| - 1] == ']';
      assert forall k | 0 <= k < |open| :: s[k] == open[k];
    }
    assert s[|open|] == tail[0];
  }

  lemma {:induction false} FlatNoClash(s: string, t: string, v: string, a: string, late: string)
    requires Flat(s) && BracketToken(t) && BracketToken(a) && BracketToken(late) && Spares(v, a) && Spares(v, late)
    ensures !Clash(Replace(s, t, v), a, late)
    decreases |s|
  {
    if s == "" {
      NothingClashes("", a, late);
    } else if s[0] != '[' {
      var c, rest := s[..1], s[1..];
      assert s == c + rest;
      ReplacePlain(c, rest, t, v);
      FlatNoClash(rest, t, v, a, late);
      if Clash(c + Replace(rest, t, v), a, late) {
        ClashInRest(c, Replace(rest, t, v), a, late);
        assert false;
      }
    } else if Close(s) == |s| {
      CloseFirst(s);
      assert s[..|s|] == s;
      ReplaceUnclosed(s, t, v);
      NothingClashes(s, a, late);
    } else {
      var g, b := FlatGroup(s);
      FlatNoClash(b, t, v, a, late);
      if g == t {
        ReplaceToken(s, t, v);
        if Clash(v + Replace(b, t, v), a, late) {
          ValueClash(v, Replace(b, t, v), a, late);
          assert false;
        }
      } else {
        ReplaceGroup(g, b, t, v);
        if Clash(g + Replace(b, t, v), a, late) {
          GroupClash(g, Replace(b, t, v), a, late);
          assert false;
        }
      }
    }
  }

  lemma ClashNeedsClose(s: string, a: string, late: string)
    requires BracketToken(a) && Clash(s, a, late)
    ensures !Without(s, ']')
  {
    var p, open, q :| ClashAt(s, a, late, p, open, q);
    assert s[|p| + |open| + |a| - 1] == a[|a| - 1];
  }

  lemma NothingClashes(s: string, a: string, late: string)
    requires Without(s, ']') && BracketToken(a)
    ensures !Clash(s, a, late)
  {
    if Clash(s, a, late) {
      ClashNeedsClose(s, a, late);
      assert false;
    }
  }

  /** With a harmless value at position i and plain values elsewhere, the loop is one pass on flat text. */
  lemma {:induction false} HarmlessIsSimultaneous(s: string, m: map<string, string>, order: seq<string>, i: nat)
    requires Flat(s) && Tokens(order) && Lists(order, m) && i < |order|
    requires OneValue(m, order[i], m[order[i]]) && Harmless(m[order[i]], order[i + 1..])
    ensures ReplaceAll(s, m, order) == Substitute(s, m)
    decreases |order|
  {
    var t, rest := order[0], order[1..];
    var m' := WithoutFirst(order, m);
    ReplaceAllDependsOnOrder(Replace(s, t, m[t]), m, m', rest);
    if i == 0 {
      HarmlessFirst(s, t, m[t], m', rest);
    } else {
      assert rest[i - 1] == order[i] && rest[i..] == order[i + 1..];
      ReplaceKeepsFlat(s, t, m[t]);
      HarmlessIsSimultaneous(Replace(s, t, m[t]), m', rest, i - 1);
      ReplaceThenSubstitute(s, t, m[t], m');
    }
  }

  lemma HarmlessFirst(s: string, t: string, v: string, m: map<string, string>, rest: seq<string>)
    requires Flat(s) && BracketToken(t) && t !in m && Tokens(rest) && Lists(rest, m) && PlainValues(m)
    requires Harmless(v, rest)
    ensures ReplaceAll(Replace(s, t, v), m, rest) == Substitute(s, m[t := v])
  {
    forall i, j | 0 <= i < j < |rest| ensures !Clash(Replace(s, t, v), rest[i], rest[j]) {
      FlatNoClash(s, t, v, rest[i], rest[j]);
    }
    SettledIsSimultaneous(Replace(s, t, v), m, rest);
    HarmlessThenSubstitute(s, t, v, m);
  }

  // ---------- A harmful one shows ----------

  lemma FirstHarmful(v: string, y: string, m: map<string, string>, rest: seq<string>)
    requires TokenKeys(m) && PlainValues(m) && Lists(rest, m)
    requires exists late | late in rest :: Contains(v + y, late)
    ensures Opens(ReplaceAll(v + y, m, rest)) < Opens(v + y)
  {
    var late :| late in rest && Contains(v + y, late);
    assert late in m;
    AllOpens(v + y, m, rest);
    SubstituteOpens(v + y, m);
  }

  /** Another token's round leaves a token with plain text behind it alone. */
  lemma OtherRound(t: string, y: string, other: string, x: string)
    requires BracketToken(t) && BracketToken(other) && t != other && Without(y, '[')
    ensures Replace(t + y, other, x) == t + y
  {
    ReplaceGroup(t, y, other, x);
    assert y + "" == y;
    ReplacePlain(y, "", other, x);
  }

  lemma OwnRound(t: string, y: string, v: string)
    requires BracketToken(t) && Without(y, '[')
    ensures Replace(t + y, t, v) == v + y
  {
    TokenFirst(t, y, v);
    assert y + "" == y;
    ReplacePlain(y, "", t, v);
  }

  /** The value with what completes a later token. */
  lemma {:induction false} HarmfulShows(t: string, v: string, y: string, m: map<string, string>, order: seq<string>,
                                        i: nat)
    requires Tokens(order) && Lists(order, m) && i < |order| && order[i] == t && Without(y, '[')
    requires OneValue(m, t, v) && exists late | late in order[i + 1..] :: Contains(v + y, late)
    ensures Opens(ReplaceAll(t + y, m, order)) < Opens(v + y)
    decreases |order|
  {
    var first, rest := order[0], order[1..];
    var m' := WithoutFirst(order, m);
    ReplaceAllDependsOnOrder(Replace(t + y, first, m[first]), m, m', rest);
    if i == 0 {
      OwnRound(t, y, v);
      FirstHarmful(v, y, m', rest);
    } else {
      assert rest[i - 1] == t && rest[i..] == order[i + 1..];
      OtherRound(t, y, first, m[first]);
      HarmfulShows(t, v, y, m', rest, i - 1);
    }
  }

  /** What completes the harm: nothing, or the rest of a token the value ends in. */
  lemma Completion(v: string, late: string) returns (y: string)
    requires BracketToken(late) && !Spares(v, late)
    ensures Without(y, '[') && Contains(v + y, late)
  {
    if Contains(v, late) {
      y := "";
      assert v + y == v;
    } else {
      var front, open :| OpenEnd(v, late, front, open);
      y := Remainder(late, open);
      Assoc(front, open, y);
      assert v + y == front + late + "";
      OccursBetween(front, late, "");
    }
  }

  function Only(order: seq<string>, t: string, v: string): map<string, string> {
    map u | u in order :: if u == t then v else ""
  }

  lemma OnlyIs(order: seq<string>, t: string, v: string)
    requires Distinct(order) && t in order
    ensures Lists(order, Only(order, t, v)) && OneValue(Only(order, t, v), t, v)
  {}

  /** A token with plain text behind it is flat, and one pass only touches the token. */
  lemma TokenThenPlain(t: string, y: string, m: map<string, string>)
    requires TokenKeys(m) && t in m && Without(y, '[')
    ensures Flat(t + y) && Substitute(t + y, m) == m[t] + y
  {
    assert y + "" == y && BracketToken(t) && (t + y)[|t|..] == y;
    FlatPlain(y, "");
    FlatAfterGroup(t, y);
    SubstituteToken(t + y, t, m);
    SubstitutePlain(y, "", m);
  }

  lemma HarmfulValue(order: seq<string>, i: nat, v: string) returns (s: string, m: map<string, string>)
    requires Tokens(order) && i < |order| && !Harmless(v, order[i + 1..])
    ensures Flat(s) && Lists(order, m) && OneValue(m, order[i], v) && ReplaceAll(s, m, order) != Substitute(s, m)
  {
    var t := order[i];
    var late :| late in order[i + 1..] && !Spares(v, late);
    var y := Completion(v, late);
    s, m := t + y, Only(order, t, v);
    OnlyIs(order, t, v);
    TokenThenPlain(t, y, m);
    HarmfulShows(t, v, y, m, order, i);
  }

  /**
   The exact condition on the value of one token: with it and any plain values for the others, the loop over the tokens
   is one simultaneous pass on every flat text.
   */
  lemma SimultaneousIffHarmless(order: seq<string>, i: nat, v: string)
    requires Tokens(order) && i < |order|
    ensures Harmless(v, order[i + 1..]) <==>
            forall s, m | Flat(s) && Lists(order, m) && OneValue(m, order[i], v) ::
              ReplaceAll(s, m, order) == Substitute(s, m)
  {
    if Harmless(v, order[i + 1..]) {
      forall s, m | Flat(s) && Lists(order, m) && OneValue(m, order[i], v)
        ensures ReplaceAll(s, m, order) == Substitute(s, m)
      {
        HarmlessIsSimultaneous(s, m, order, i);
      }
    } else {
      var s, m := HarmfulValue(order, i, v);
    }
  }
}
