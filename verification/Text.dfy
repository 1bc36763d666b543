/** Python string operations the modelled code relies on, as functions on `seq<char>`. */
module Text {

  datatype Option<+T> = None | Some(value: T)

  /** What a call that may raise comes back with. */
  datatype Result<+T> = Ok(value: T) | Raised(message: string)

  predicate OccursAt(s: string, t: string, i: nat) {
    i + |t| <= |s| && s[i..i + |t|] == t
  }

  /** `t in s` */
  predicate Contains(s: string, t: string) {
    exists i: nat | i <= |s| :: OccursAt(s, t, i)
  }

  lemma OccursStarts(s: string, t: string, i: nat)
    requires t != ""
    ensures OccursAt(s, t, i) ==> i < |s| && s[i] == t[0]
  {}

  /** `s.replace(target, value)`: the leftmost non-overlapping scan. */
  function Replace(s: string, target: string, value: string): string {
    if target == "" then Interleave(s, value)
    else if |s| < |target| then s
    else if target <= s then value + Replace(s[|target|..], target, value)
    else [s[0]] + Replace(s[1..], target, value)
  }

  /** `s.replace("", value)` puts `value` before every character and at the end. */
  function Interleave(s: string, value: string): string {
    if s == "" then value else value + [s[0]] + Interleave(s[1..], value)
  }

  /** Replacing a target that does not occur changes nothing, so the guard `if token in result` is only a shortcut. */
  lemma {:induction false} ReplaceAbsent(s: string, target: string, value: string)
    requires !Contains(s, target)
    ensures Replace(s, target, value) == s
  {
    assert OccursAt(s, target, 0) <==> target <= s;
    if target != "" && |s| >= |target| {
      forall i: nat | i <= |s| - 1 ensures !OccursAt(s[1..], target, i) {
        assert OccursAt(s[1..], target, i) ==> OccursAt(s, target, i + 1);
      }
      ReplaceAbsent(s[1..], target, value);
    }
  }

  lemma ReplaceOnward(s: string, target: string, value: string)
    requires s != "" && target != "" && !OccursAt(s, target, 0)
    ensures Replace(s, target, value) == [s[0]] + Replace(s[1..], target, value)
  {
    assert OccursAt(s, target, 0) <==> target <= s;
  }

  lemma ReplaceAtStart(target: string, behind: string, value: string)
    requires target != ""
    ensures Replace(target + behind, target, value) == value + Replace(behind, target, value)
  {
    assert (target + behind)[|target|..] == behind;
  }

  lemma OccursNext(c: char, rest: string, target: string, i: nat)
    ensures OccursAt(rest, target, i) <==> OccursAt([c] + rest, target, i + 1)
  {
    if i + |target| <= |rest| {
      assert ([c] + rest)[i + 1..i + 1 + |target|] == rest[i..i + |target|];
    }
  }

  /** Replacing goes on behind the first occurrence; with `ReplaceAbsent` that says what it does. */
  lemma {:induction false} ReplaceFirst(s: string, before: string, target: string, behind: string, value: string)
    requires target != "" && s == before + (target + behind)
    requires forall i: nat | i < |before| :: !OccursAt(s, target, i)
    ensures Replace(s, target, value) == before + (value + Replace(behind, target, value))
  {
    if before == "" {
      assert s == target + behind;
      ReplaceAtStart(target, behind, value);
    } else {
      var c, rest := s[0], before[1..];
      var tail := rest + (target + behind);
      assert s == [c] + tail && before == [c] + rest;
      forall i: nat | i < |rest| ensures !OccursAt(tail, target, i) {
        OccursNext(c, tail, target, i);
      }
      ReplaceOnward(s, target, value);
      assert s[1..] == tail;
      ReplaceFirst(tail, rest, target, behind, value);
      Assoc([c], rest, value + Replace(behind, target, value));
    }
  }

  /** Replacing the empty string puts the value before, between and behind all characters. */
  lemma {:induction false} InterleaveParts(before: string, c: char, behind: string, value: string)
    ensures Interleave("", value) == value
    ensures Interleave(before + [c] + behind, value) == Interleave(before, value) + [c] + Interleave(behind, value)
  {
    var s := before + [c] + behind;
    if before == "" {
      assert s == [c] + behind;
      assert s[1..] == behind;
    } else {
      assert s[1..] == before[1..] + [c] + behind;
      InterleaveParts(before[1..], c, behind, value);
    }
  }

  /** `s.lower()` for ASCII letters. */
  function Lower(s: string): string {
    seq(|s|, i requires 0 <= i < |s| => LowerChar(s[i]))
  }

  function LowerChar(c: char): char {
    if 'A' <= c <= 'Z' then (c as int + 32) as char else c
  }

  predicate Without(s: string, c: char) {
    forall i | 0 <= i < |s| :: s[i] != c
  }

  /** `c.isspace()` */
  predicate IsSpace(c: char) {
    || '\t' <= c <= '\r' || '\U{1C}' <= c <= ' ' || c in "\U{85}\U{A0}\U{1680}\U{2028}\U{2029}\U{202F}\U{205F}\U{3000}"
    || '\U{2000}' <= c <= '\U{200A}'
  }

  predicate Blank(text: string) {
    forall i | 0 <= i < |text| :: IsSpace(text[i])
  }

  function LeftStrip(s: string): (r: string)
    ensures r == "" || !IsSpace(r[0])
  {
    if s == "" || !IsSpace(s[0]) then s else LeftStrip(s[1..])
  }

  function RightStrip(s: string): (r: string)
    ensures r == "" || !IsSpace(r[|r| - 1])
    ensures s != "" && !IsSpace(s[0]) ==> r != "" && r[0] == s[0]
  {
    if s == "" || !IsSpace(s[|s| - 1]) then s else RightStrip(s[..|s| - 1])
  }

  /** `s.strip()` */
  function Strip(s: string): string {
    RightStrip(LeftStrip(s))
  }

  lemma {:induction false} LeftStripUpTo(blank: string, s: string)
    requires Blank(blank) && (s == "" || !IsSpace(s[0]))
    ensures LeftStrip(blank + s) == s
  {
    if blank == "" {
      assert blank + s == s;
    } else {
      assert (blank + s)[1..] == blank[1..] + s;
      LeftStripUpTo(blank[1..], s);
    }
  }

  lemma {:induction false} RightStripUpTo(s: string, blank: string)
    requires Blank(blank) && (s == "" || !IsSpace(s[|s| - 1]))
    ensures RightStrip(s + blank) == s
  {
    if blank == "" {
      assert s + blank == s;
    } else {
      assert (s + blank)[..|s + blank| - 1] == s + blank[..|blank| - 1];
      RightStripUpTo(s, blank[..|blank| - 1]);
    }
  }

  /** What lies between blanks and neither starts nor ends in one is what stripping leaves. */
  lemma StripBetween(left: string, s: string, right: string)
    requires Blank(left) && Blank(right) && s != "" && !IsSpace(s[0]) && !IsSpace(s[|s| - 1])
    ensures Strip(left + s + right) == s
  {
    assert left + s + right == left + (s + right);
    LeftStripUpTo(left, s + right);
    RightStripUpTo(s, right);
  }

  lemma Assoc<T>(a: seq<T>, b: seq<T>, c: seq<T>)
    ensures a + b + c == a + (b + c)
  {}

  /** Stripping takes blanks off both ends and nothing else. */
  lemma StripParts(s: string) returns (left: string, right: string)
    ensures Blank(left) && Blank(right) && s == left + Strip(s) + right
  {
    left := LeftPart(s);
    right := RightPart(LeftStrip(s));
    Assoc(left, Strip(s), right);
  }

  lemma {:induction false} LeftPart(s: string) returns (left: string)
    ensures Blank(left) && s == left + LeftStrip(s)
  {
    left := "";
    if s != "" && IsSpace(s[0]) {
      var rest := LeftPart(s[1..]);
      left := [s[0]] + rest;
      assert left + LeftStrip(s) == [s[0]] + (rest + LeftStrip(s[1..]));
    }
  }

  lemma {:induction false} RightPart(s: string) returns (right: string)
    ensures Blank(right) && s == RightStrip(s) + right
  {
    right := "";
    if s != "" && IsSpace(s[|s| - 1]) {
      var rest := RightPart(s[..|s| - 1]);
      right := rest + [s[|s| - 1]];
      assert RightStrip(s) + right == (RightStrip(s[..|s| - 1]) + rest) + [s[|s| - 1]];
    }
  }

  // ---------- The definitions in characters ----------

  lemma ContainsIff(s: string, t: string)
    ensures Contains(s, t) <==> exists a, b :: s == a + t + b
  {
    if i: nat :| i <= |s| && OccursAt(s, t, i) {
      assert s == s[..i] + t + s[i + |t|..];
    }
    if a, b :| s == a + t + b {
      assert OccursAt(s, t, |a|);
    }
  }

  predicate Either(c: char, small: char, capital: char) {
    c == small || c == capital
  }

  /** The letters of "failed" stand in the text from position i on, each in either case. */
  predicate FailedAt(s: string, i: nat) {
    && i + 6 <= |s|
    && Either(s[i], 'f', 'F') && Either(s[i + 1], 'a', 'A') && Either(s[i + 2], 'i', 'I')
    && Either(s[i + 3], 'l', 'L') && Either(s[i + 4], 'e', 'E') && Either(s[i + 5], 'd', 'D')
  }

  predicate SaysFailed(s: string) {
    exists i: nat | i < |s| :: FailedAt(s, i)
  }

  lemma SixLetters(x: string)
    requires |x| == 6
    ensures x == "failed" <==>
            x[0] == 'f' && x[1] == 'a' && x[2] == 'i' && x[3] == 'l' && x[4] == 'e' && x[5] == 'd'
  {}

  lemma LowerFailedAt(s: string, i: nat)
    ensures OccursAt(Lower(s), "failed", i) <==> FailedAt(s, i)
  {
    if i + 6 <= |s| {
      SixLetters(Lower(s)[i..i + 6]);
    }
  }

  /** `"failed" in s.lower()` */
  lemma LowerFailedIff(s: string)
    ensures Contains(Lower(s), "failed") <==> SaysFailed(s)
  {
    forall i: nat ensures OccursAt(Lower(s), "failed", i) <==> FailedAt(s, i) {
      LowerFailedAt(s, i);
    }
  }

  /** The 29 code points that count as space. */
  lemma SpaceCodes(c: char)
    ensures var k := c as int;
            IsSpace(c) <==> || 9 <= k <= 13 || 28 <= k <= 32 || k == 133 || k == 160 || k == 5760
                            || 8192 <= k <= 8202 || k in {8232, 8233, 8239, 8287, 12288}
  {
    var others := "\U{85}\U{A0}\U{1680}\U{2028}\U{2029}\U{202F}\U{205F}\U{3000}";
    assert c in others <==> exists i | 0 <= i < 8 :: c == others[i];
  }

  /** Stripping leaves nothing exactly of blank text. */
  lemma StripEmptyIffBlank(s: string)
    ensures Strip(s) == "" <==> Blank(s)
  {
    var left, right := StripParts(s);
    if Blank(s) {
      LeftStripUpTo(s, "");
      assert s + "" == s;
    }
  }

  /** What stripping leaves starts and ends with a visible character. */
  lemma StripEnds(s: string)
    ensures var t := Strip(s); t != "" ==> !IsSpace(t[0]) && !IsSpace(t[|t| - 1])
  {
    var l := LeftStrip(s);
    assert l == "" ==> RightStrip(l) == "";
  }
}
