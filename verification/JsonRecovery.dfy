/**
 * Recovering a JSON value from a model's reply (`_parse_json_response` in app/services/llm/ollama_client.py).
 * The JSON parser is any partial function on text.
 */
module JsonRecovery {
  import opened Text

  const FENCE := "```"
  const TAG := "json"

  /** The first occurrence of t at position k or later. */
  function Find(s: string, t: string, k: nat): (r: Option<nat>)
    ensures r.Some? ==> k <= r.value && OccursAt(s, t, r.value) && forall i | k <= i < r.value :: !OccursAt(s, t, i)
    ensures r.None? ==> forall i: nat | k <= i :: !OccursAt(s, t, i)
    decreases |s| - k
  {
    if k > |s| then None
    else if OccursAt(s, t, k) then Some(k)
    else Find(s, t, k + 1)
  }

  /** The last occurrence of c before position k. */
  function FindLast(s: string, c: char, k: nat): (r: Option<nat>)
    requires k <= |s|
    ensures r.Some? ==> r.value < k && s[r.value] == c && forall i | r.value < i < k :: s[i] != c
    ensures r.None? ==> forall i | 0 <= i < k :: s[i] != c
  {
    if k == 0 then None
    else if s[k - 1] == c then Some(k - 1)
    else FindLast(s, c, k - 1)
  }

  /** What stands in the first code fence, behind an optional tag. */
  function Fenced(text: string): Option<string> {
    var open := Find(text, FENCE, 0);
    if open.None? then None
    else
      var start := open.value + |FENCE| + if OccursAt(text, TAG, open.value + |FENCE|) then |TAG| else 0;
      var close := Find(text, FENCE, start);
      if close.None? then None else Some(text[start..close.value])
  }

  /** From the first '{' to the last '}' behind it. */
  function Braced(text: string): Option<string> {
    var open := Find(text, "{", 0);
    var close := FindLast(text, '}', |text|);
    if open.None? || close.None? || close.value < open.value then None
    else Some(text[open.value..close.value + 1])
  }

  function ParseIn<V>(candidate: Option<string>, parse: string -> Option<V>): Option<V> {
    if candidate.Some? then parse(candidate.value) else None
  }

  function FencedBody(text: string): Option<string> {
    var body := Fenced(text);
    if body.Some? then Some(Strip(body.value)) else None
  }

  /** `_parse_json_response` */
  function Recover<V>(raw: string, parse: string -> Option<V>): Result<V> {
    var text := Strip(raw);
    if parse(text).Some? then Ok(parse(text).value)
    else
      var fenced := ParseIn(FencedBody(text), parse);
      if fenced.Some? then Ok(fenced.value)
      else
        var braced := ParseIn(Braced(text), parse);
        if braced.Some? then Ok(braced.value) else Raised("non-JSON response")
  }

  // ---------- The three attempts, in characters ----------

  /** The first three backticks in a row are those behind `before`. */
  ghost predicate FenceBehind(before: string) {
    !Contains(before + "``", "```")
  }

  /**
   The body is what stands between the first three backticks in a row, which "json" may follow, and the next
   three behind that.
   */
  ghost predicate InFence(text: string, body: string) {
    exists before, tag, after :: FenceAround(text, before, tag, body, after)
  }

  ghost predicate FenceAround(text: string, before: string, tag: string, body: string, after: string) {
    && text == before + "```" + tag + body + "```" + after
    && FenceBehind(before) && FenceBehind(body)
    && TagTaken(tag, body + "```" + after)
  }

  /** The piece starts at the first '{' of the text and ends at its last '}'. */
  ghost predicate InBraces(text: string, piece: string) {
    && |piece| >= 2 && piece[0] == '{' && piece[|piece| - 1] == '}'
    && exists before, after :: text == before + piece + after && Without(before, '{') && Without(after, '}')
  }

  lemma OccursBehind(s: string, head: string, rest: string, t: string, i: nat)
    requires s == head + rest
    ensures OccursAt(s, t, |head| + i) <==> OccursAt(rest, t, i)
  {
    if i + |t| <= |rest| {
      assert s[|head| + i..|head| + i + |t|] == rest[i..i + |t|];
    }
  }

  function Moved(found: Option<nat>, n: nat): Option<nat> {
    if found.Some? then Some(n + found.value) else None
  }

  lemma {:induction false} FindBehind(s: string, head: string, rest: string, t: string, k: nat)
    requires s == head + rest
    ensures Find(s, t, |head| + k) == Moved(Find(rest, t, k), |head|)
    decreases |rest| - k
  {
    if k <= |rest| {
      OccursBehind(s, head, rest, t, k);
      FindBehind(s, head, rest, t, k + 1);
      assert |head| + (k + 1) == (|head| + k) + 1;
    }
  }

  lemma OccursBefore(s: string, before: string, rest: string, i: nat)
    requires s == before + "```" + rest && i < |before|
    ensures OccursAt(s, "```", i) <==> OccursAt(before + "``", "```", i)
  {
    var open := before + "``";
    assert s == open + ("`" + rest);
    assert s[i..i + 3] == open[i..i + 3];
  }

  lemma FirstFence(s: string, before: string, rest: string)
    requires s == before + "```" + rest
    ensures Find(s, "```", 0) == Some(|before|) <==> FenceBehind(before)
  {
    Assoc(before, "```", rest);
    OccursBehind(s, before, "```" + rest, "```", 0);
    assert OccursAt("```" + rest, "```", 0);
    forall i: nat | i < |before| ensures OccursAt(s, "```", i) <==> OccursAt(before + "``", "```", i) {
      OccursBefore(s, before, rest, i);
    }
  }

  lemma FoundFence(text: string) returns (before: string, rest: string)
    requires Find(text, "```", 0).Some?
    ensures text == before + "```" + rest && FenceBehind(before) && Find(text, "```", 0) == Some(|before|)
  {
    var i := Find(text, "```", 0).value;
    before, rest := text[..i], text[i + 3..];
    assert text == before + text[i..i + 3] + rest;
    FirstFence(text, before, rest);
  }

  /** The tag behind the fence is taken when it is there. */
  ghost predicate TagTaken(tag: string, behind: string) {
    tag == "json" || (tag == "" && !("json" <= behind))
  }

  lemma TakeTag(rest: string) returns (tag: string, behind: string)
    ensures rest == tag + behind && TagTaken(tag, behind)
  {
    tag := if "json" <= rest then "json" else "";
    behind := rest[|tag|..];
  }

  lemma TagFound(text: string, fence: string, tag: string, behind: string)
    requires text == fence + (tag + behind) && TagTaken(tag, behind)
    ensures tag == if OccursAt(text, "json", |fence|) then "json" else ""
  {
    var rest := tag + behind;
    OccursBehind(text, fence, rest, "json", 0);
    if tag == "json" {
      assert rest[..4] == "json";
    } else {
      assert rest == behind;
    }
  }

  /** From a position up to what was found, if anything was. */
  function UpTo(text: string, from: nat, found: Option<nat>): Option<string>
    requires found.Some? ==> from <= found.value <= |text|
  {
    if found.Some? then Some(text[from..found.value]) else None
  }

  lemma UpToBehind(text: string, head: string, rest: string, found: Option<nat>)
    requires text == head + rest && (found.Some? ==> found.value <= |rest|)
    ensures UpTo(text, |head|, Moved(found, |head|)) == UpTo(rest, 0, found)
  {
    if found.Some? {
      assert text[|head|..|head| + found.value] == rest[0..found.value];
    }
  }

  /** Behind the fence and its tag, which end at `start`, the text up to the next fence is what is taken. */
  lemma FencedFrom(text: string, open: nat, start: nat)
    requires Find(text, "```", 0) == Some(open)
    requires start == open + 3 + |if OccursAt(text, "json", open + 3) then "json" else ""|
    ensures Fenced(text) == UpTo(text, start, Find(text, "```", start))
  {}

  lemma FenceFound(text: string, before: string, tag: string, behind: string)
    requires text == before + "```" + (tag + behind) && FenceBehind(before) && TagTaken(tag, behind)
    ensures text == before + "```" + tag + behind
    ensures Find(text, "```", 0) == Some(|before|)
    ensures tag == if OccursAt(text, "json", |before| + 3) then "json" else ""
  {
    FirstFence(text, before, tag + behind);
    TagFound(text, before + "```", tag, behind);
    Assoc(before + "```", tag, behind);
  }

  lemma FencedBehind(text: string, before: string, tag: string, behind: string)
    requires text == before + "```" + (tag + behind) && FenceBehind(before) && TagTaken(tag, behind)
    ensures Fenced(text) == UpTo(behind, 0, Find(behind, "```", 0))
  {
    FenceFound(text, before, tag, behind);
    var head := before + "```" + tag;
    FencedFrom(text, |before|, |head|);
    FindBehind(text, head, behind, "```", 0);
    UpToBehind(text, head, behind, Find(behind, "```", 0));
  }

  lemma FenceParts(before: string, tag: string, body: string, after: string)
    ensures before + "```" + tag + body + "```" + after == before + "```" + (tag + (body + "```" + after))
  {}

  lemma FencedStandsThere(text: string, body: string)
    requires Fenced(text) == Some(body)
    ensures InFence(text, body)
  {
    var before, rest := FoundFence(text);
    var tag, behind := TakeTag(rest);
    FencedBehind(text, before, tag, behind);
    var body', after := FoundFence(behind);
    assert body' == body;
    FenceParts(before, tag, body, after);
    assert FenceAround(text, before, tag, body, after);
  }

  lemma FencedIsFound(text: string, before: string, tag: string, body: string, after: string)
    requires FenceAround(text, before, tag, body, after)
    ensures Fenced(text) == Some(body)
  {
    var behind := body + "```" + after;
    FenceParts(before, tag, body, after);
    FencedBehind(text, before, tag, behind);
    FirstFence(behind, body, after);
    assert behind[..|body|] == body;
  }

  lemma FencedIff(text: string, body: string)
    ensures Fenced(text) == Some(body) <==> InFence(text, body)
  {
    if Fenced(text) == Some(body) {
      FencedStandsThere(text, body);
    }
    if before, tag, after :| FenceAround(text, before, tag, body, after) {
      FencedIsFound(text, before, tag, body, after);
    }
  }

  // ---------- What is returned stands in the reply ----------

  ghost predicate Piece(s: string, part: string) {
    exists left, right :: s == left + part + right
  }

  lemma PieceOf(s: string, left: string, part: string, right: string)
    requires s == left + part + right
    ensures Piece(s, part)
  {}

  lemma PieceOfPiece(s: string, middle: string, part: string)
    requires Piece(s, middle) && Piece(middle, part)
    ensures Piece(s, part)
  {
    var a, d :| s == a + middle + d;
    var b, c :| middle == b + part + c;
    assert s == (a + b) + part + (c + d);
  }

  lemma StripIsPiece(s: string)
    ensures Piece(s, Strip(s))
  {
    var left, right := StripParts(s);
    PieceOf(s, left, Strip(s), right);
  }

  lemma SliceIsPiece(s: string, i: nat, j: nat)
    requires i <= j <= |s|
    ensures Piece(s, s[i..j])
  {
    PieceOf(s, s[..i], s[i..j], s[j..]);
  }

  ghost predicate ParsedPiece<V>(raw: string, parse: string -> Option<V>, value: V) {
    exists part :: Piece(raw, part) && parse(part) == Some(value)
  }

  lemma CandidateParses<V>(raw: string, text: string, candidate: string, parse: string -> Option<V>)
    requires Piece(raw, text) && Piece(text, candidate) && parse(candidate).Some?
    ensures ParsedPiece(raw, parse, parse(candidate).value)
  {
    PieceOfPiece(raw, text, candidate);
  }

  lemma BracedIsPiece(text: string)
    requires Braced(text).Some?
    ensures Piece(text, Braced(text).value)
  {
    SliceIsPiece(text, Find(text, "{", 0).value, FindLast(text, '}', |text|).value + 1);
  }

  /** A value that comes back is the parse of one contiguous piece of the reply. */
  lemma RecoveredStandsInReply<V>(raw: string, parse: string -> Option<V>)
    requires Recover(raw, parse).Ok?
    ensures ParsedPiece(raw, parse, Recover(raw, parse).value)
  {
    var text := Strip(raw);
    StripIsPiece(raw);
    if parse(text).None? {
      if ParseIn(FencedBody(text), parse).Some? {
        FencedIsPiece(text);
        CandidateParses(raw, text, FencedBody(text).value, parse);
      } else {
        BracedIsPiece(text);
        CandidateParses(raw, text, Braced(text).value, parse);
      }
    }
  }

  lemma FencedIsPiece(text: string)
    requires FencedBody(text).Some?
    ensures Piece(text, FencedBody(text).value)
  {
    var open := Find(text, FENCE, 0).value;
    var start := open + |FENCE| + if OccursAt(text, TAG, open + |FENCE|) then |TAG| else 0;
    var close := Find(text, FENCE, start).value;
    SliceIsPiece(text, start, close);
    StripIsPiece(text[start..close]);
    PieceOfPiece(text, text[start..close], FencedBody(text).value);
  }

  // ---------- Stripping leaves the object in place ----------

  /** Text that starts and ends with a visible character keeps its neighbours' blanks apart. */
  predicate Solid(s: string) {
    s != "" && !IsSpace(s[0]) && !IsSpace(s[|s| - 1])
  }

  predicate Object(s: string) {
    |s| >= 2 && s[0] == '{' && s[|s| - 1] == '}'
  }

  /** Stripping takes blanks from the outer ends of what surrounds a solid core. */
  lemma StripAround(prefix: string, core: string, suffix: string)
    requires Solid(core)
    ensures Strip(prefix + core + suffix) == LeftStrip(prefix) + core + RightStrip(suffix)
  {
    Assoc(prefix, core, suffix);
    LeftStripBefore(prefix, core + suffix);
    Assoc(LeftStrip(prefix), core, suffix);
    RightStripBehind(LeftStrip(prefix) + core, suffix);
  }

  lemma {:induction false} LeftStripBefore(prefix: string, s: string)
    requires s != "" && !IsSpace(s[0])
    ensures LeftStrip(prefix + s) == LeftStrip(prefix) + s
  {
    if prefix == "" {
      assert prefix + s == s;
    } else {
      assert (prefix + s)[1..] == prefix[1..] + s;
      if IsSpace(prefix[0]) {
        LeftStripBefore(prefix[1..], s);
      }
    }
  }

  lemma {:induction false} RightStripBehind(s: string, suffix: string)
    requires s != "" && !IsSpace(s[|s| - 1])
    ensures RightStrip(s + suffix) == s + RightStrip(suffix)
  {
    if suffix == "" {
      assert s + suffix == s;
    } else {
      assert (s + suffix)[..|s + suffix| - 1] == s + suffix[..|suffix| - 1];
      if IsSpace(suffix[|suffix| - 1]) {
        RightStripBehind(s, suffix[..|suffix| - 1]);
      }
    }
  }

  lemma {:induction false} LeftStripWithout(s: string, c: char)
    requires Without(s, c)
    ensures Without(LeftStrip(s), c)
  {
    if s != "" && IsSpace(s[0]) {
      LeftStripWithout(s[1..], c);
    }
  }

  lemma {:induction false} RightStripWithout(s: string, c: char)
    requires Without(s, c)
    ensures Without(RightStrip(s), c)
  {
    if s != "" && IsSpace(s[|s| - 1]) {
      RightStripWithout(s[..|s| - 1], c);
    }
  }

  // ---------- An object in a code fence ----------

  /** The first occurrence of t behind text without its first character. */
  lemma FindFirst(s: string, prefix: string, t: string, rest: string)
    requires s == prefix + t + rest && t != "" && Without(prefix, t[0])
    ensures Find(s, t, 0) == Some(|prefix|)
  {
    assert OccursAt(s, t, |prefix|) by {
      assert s[|prefix|..|prefix| + |t|] == t;
    }
    forall i: nat | i < |prefix| ensures !OccursAt(s, t, i) {
      assert s[i] == prefix[i];
      OccursStarts(s, t, i);
    }
  }

  /** No fence starts in the text, not even one that runs past its end. */
  ghost predicate Fenceless(body: string) {
    body != "" && body[|body| - 1] != '`' && !Contains(body, FENCE)
  }

  lemma FencelessBody(blank: string, json: string, after: string)
    requires Blank(blank) && Blank(after) && Object(json) && !Contains(json, FENCE)
    ensures Fenceless(blank + json + after)
  {
    var body := blank + json + after;
    var from, to := |blank|, |blank| + |json|;
    forall i: nat ensures !OccursAt(body, FENCE, i) {
      if i + 3 <= |body| {
        assert body[i..i + 3][0] == body[i] && body[i..i + 3][1] == body[i + 1] && body[i..i + 3][2] == body[i + 2];
        if i < from {
          assert body[i] == blank[i];
        } else if i >= to {
          assert body[i] == after[i - to];
        } else if i + 3 > to {
          assert body[to - 1] == json[|json| - 1];
        } else {
          assert body[i..i + 3] == json[i - from..i - from + 3];
          assert !OccursAt(json, FENCE, i - from);
        }
      }
    }
  }

  /** The first fence at or behind the start of a fenceless body is the one that closes it. */
  lemma ClosingFence(s: string, open: string, body: string, tail: string)
    requires s == open + body + tail && Fenceless(body) && FENCE <= tail
    ensures Find(s, FENCE, |open|) == Some(|open| + |body|)
    ensures s[|open|..|open| + |body|] == body
  {
    var close := |open| + |body|;
    assert OccursAt(s, FENCE, close) by {
      assert s[close..close + 3] == tail[..3];
    }
    forall i | |open| <= i < close ensures !OccursAt(s, FENCE, i) {
      if i + 3 <= close {
        assert s[i..i + 3] == body[i - |open|..i - |open| + 3];
        assert !OccursAt(body, FENCE, i - |open|);
      } else if i + 3 <= |s| {
        assert s[close - 1] == body[|body| - 1] && s[i..i + 3][close - 1 - i] == s[close - 1];
      }
    }
  }

  lemma TagOrNot(s: string, fence: string, tag: string, body: string)
    requires s == fence + tag + body && tag in {"", TAG}
    requires body != "" && body[0] != 'j'
    ensures OccursAt(s, TAG, |fence|) <==> tag == TAG
  {
    if tag == TAG {
      assert s[|fence|..|fence| + 4] == TAG;
    } else {
      assert s[|fence|] == body[0];
      OccursStarts(s, TAG, |fence|);
    }
  }

  /** What a fence opens with. */
  ghost predicate Opens(open: string, prefix: string, tag: string) {
    Without(prefix, '`') && tag in {"", TAG} && open == prefix + FENCE + tag
  }

  lemma FencedIs(s: string, open: string, prefix: string, tag: string, body: string, tail: string)
    requires s == open + body + tail && Opens(open, prefix, tag)
    requires Fenceless(body) && body[0] != 'j' && FENCE <= tail
    ensures Fenced(s) == Some(body)
  {
    var fence, rest := prefix + FENCE, body + tail;
    Assoc(open, body, tail);
    TagOrNot(s, fence, tag, rest);
    Assoc(fence, tag, rest);
    FindFirst(s, prefix, FENCE, tag + rest);
    ClosingFence(s, open, body, tail);
  }

  /** The body of the fence is the object. */
  lemma FencedObject(s: string, open: string, prefix: string, tag: string,
                     blank: string, json: string, after: string, tail: string)
    requires Opens(open, prefix, tag) && Blank(blank) && Blank(after)
    requires Object(json) && !Contains(json, FENCE) && FENCE <= tail
    requires s == open + (blank + json + after) + tail
    ensures FencedBody(s) == Some(json)
  {
    FencelessBody(blank, json, after);
    FencedIs(s, open, prefix, tag, blank + json + after, tail);
    StripBetween(blank, json, after);
  }

  /** A reply with an object in its first code fence: tagged or not, with any blanks around it. */
  ghost predicate FencedReply(raw: string, json: string) {
    exists open, prefix, tag, blank, after, suffix ::
      FencedParts(raw, json, open, prefix, tag, blank, after, suffix)
  }

  ghost predicate FencedParts(raw: string, json: string, open: string, prefix: string, tag: string,
                              blank: string, after: string, suffix: string)
  {
    && Opens(open, prefix, tag) && Blank(blank) && Blank(after)
    && Object(json) && !Contains(json, FENCE)
    && raw == open + (blank + json + after) + FENCE + suffix
  }

  lemma OpensStripped(open: string, prefix: string, tag: string)
    requires Opens(open, prefix, tag)
    ensures Opens(LeftStrip(prefix) + FENCE + tag, LeftStrip(prefix), tag)
  {
    LeftStripWithout(prefix, '`');
  }

  lemma Regroup(a: string, b: string, c: string, d: string, e: string)
    ensures (a + b) + c + d + e == a + (b + c + d) + e
    ensures a + (b + c + d) + e == (a + b) + c + (d + e)
  {}

  lemma StripFenced(raw: string, open: string, prefix: string, tag: string, body: string, suffix: string)
    requires Opens(open, prefix, tag) && raw == open + body + FENCE + suffix
    ensures Strip(raw) == (LeftStrip(prefix) + FENCE + tag) + body + (FENCE + RightStrip(suffix))
  {
    var head := FENCE + tag;
    var core := head + body + FENCE;
    Assoc(prefix, FENCE, tag);
    Regroup(prefix, head, body, FENCE, suffix);
    StripAround(prefix, core, suffix);
    Assoc(LeftStrip(prefix), FENCE, tag);
    Regroup(LeftStrip(prefix), head, body, FENCE, RightStrip(suffix));
  }

  /**
   * When the whole reply does not parse, a parseable object without a fence inside, alone in the first code
   * fence behind a backtick-free prefix, is the answer, whatever follows.
   */
  lemma FenceRecovers<V>(raw: string, json: string, parse: string -> Option<V>)
    requires FencedReply(raw, json) && parse(json).Some? && parse(Strip(raw)).None?
    ensures Recover(raw, parse) == Ok(parse(json).value)
  {
    var open, prefix, tag, blank, after, suffix :| FencedParts(raw, json, open, prefix, tag, blank, after, suffix);
    StripFenced(raw, open, prefix, tag, blank + json + after, suffix);
    OpensStripped(open, prefix, tag);
    FencedObject(Strip(raw), LeftStrip(prefix) + FENCE + tag, LeftStrip(prefix), tag,
                 blank, json, after, FENCE + RightStrip(suffix));
  }

  // ---------- An object between other text ----------

  lemma BracedObject(s: string, prefix: string, json: string, suffix: string)
    requires s == prefix + json + suffix && Object(json)
    requires Without(prefix, '{') && Without(suffix, '}')
    ensures Braced(s) == Some(json)
  {
    assert s == prefix + "{" + (json[1..] + suffix);
    FindFirst(s, prefix, "{", json[1..] + suffix);
    var last := |prefix + json| - 1;
    assert s[last] == '}';
    forall i | last < i < |s| ensures s[i] != '}' {
      assert s[i] == suffix[i - |prefix + json|];
    }
  }

  lemma BracedParts(text: string) returns (before: string, piece: string, after: string)
    requires Braced(text).Some?
    ensures Braced(text) == Some(piece) && Object(piece)
    ensures text == before + piece + after && Without(before, '{') && Without(after, '}')
  {
    var i, j := Find(text, "{", 0).value, FindLast(text, '}', |text|).value;
    before, piece, after := text[..i], text[i..j + 1], text[j + 1..];
    forall k: nat | k < i ensures text[k] != '{' {
      assert !OccursAt(text, "{", k);
      assert text[k..k + 1] == [text[k]];
    }
    assert text[i..i + 1] == "{";
  }

  lemma BracedIff(text: string, piece: string)
    ensures Braced(text) == Some(piece) <==> InBraces(text, piece)
  {
    if Braced(text) == Some(piece) {
      var before, piece', after := BracedParts(text);
    }
    if InBraces(text, piece) {
      var before, after :| text == before + piece + after && Without(before, '{') && Without(after, '}');
      BracedObject(text, before, piece, after);
    }
  }

  // ---------- What comes back ----------

  /** A reply that parses once its outer blanks are off is its own answer: the fence and the braces play no part. */
  lemma WholeReplyRecovers<V>(raw: string, left: string, text: string, right: string, parse: string -> Option<V>)
    requires raw == left + text + right && Blank(left) && Blank(right) && Solid(text) && parse(text).Some?
    ensures Recover(raw, parse) == Ok(parse(text).value)
  {
    StripBetween(left, text, right);
  }

  /** The body of the fence, stripped, parses to the value. */
  ghost predicate FenceYields<V>(text: string, parse: string -> Option<V>, value: V) {
    exists body :: InFence(text, body) && parse(Strip(body)) == Some(value)
  }

  ghost predicate FenceParses<V>(text: string, parse: string -> Option<V>) {
    exists body :: InFence(text, body) && parse(Strip(body)).Some?
  }

  /** What the braces enclose parses to the value. */
  ghost predicate BracesYield<V>(text: string, parse: string -> Option<V>, value: V) {
    exists piece :: InBraces(text, piece) && parse(piece) == Some(value)
  }

  ghost predicate BracesParse<V>(text: string, parse: string -> Option<V>) {
    exists piece :: InBraces(text, piece) && parse(piece).Some?
  }

  lemma FenceYieldsIff<V>(text: string, parse: string -> Option<V>, value: V)
    ensures ParseIn(FencedBody(text), parse) == Some(value) <==> FenceYields(text, parse, value)
  {
    forall body ensures Fenced(text) == Some(body) <==> InFence(text, body) {
      FencedIff(text, body);
    }
  }

  lemma FenceParsesIff<V>(text: string, parse: string -> Option<V>)
    ensures ParseIn(FencedBody(text), parse).Some? <==> FenceParses(text, parse)
  {
    forall body ensures Fenced(text) == Some(body) <==> InFence(text, body) {
      FencedIff(text, body);
    }
  }

  lemma BracesYieldIff<V>(text: string, parse: string -> Option<V>, value: V)
    ensures ParseIn(Braced(text), parse) == Some(value) <==> BracesYield(text, parse, value)
    ensures ParseIn(Braced(text), parse).Some? <==> BracesParse(text, parse)
  {
    forall piece ensures Braced(text) == Some(piece) <==> InBraces(text, piece) {
      BracedIff(text, piece);
    }
  }

  /**
   A value comes back exactly if the stripped reply parses to it; or that does not parse and the stripped body of its
   fence does; or neither parses and what its braces enclose does. It raises exactly if none of the three parses.
   */
  lemma RecoversIff<V>(raw: string, parse: string -> Option<V>, value: V)
    ensures var text := Strip(raw);
            && (Recover(raw, parse) == Ok(value) <==>
                  || parse(text) == Some(value)
                  || (parse(text).None? && FenceYields(text, parse, value))
                  || (parse(text).None? && !FenceParses(text, parse) && BracesYield(text, parse, value)))
            && (Recover(raw, parse).Raised? <==>
                  parse(text).None? && !FenceParses(text, parse) && !BracesParse(text, parse))
  {
    FenceYieldsIff(Strip(raw), parse, value);
    FenceParsesIff(Strip(raw), parse);
    BracesYieldIff(Strip(raw), parse, value);
  }

  /**
   * When neither the whole reply nor the body of a code fence parses, a parseable object behind '{'-free text
   * and before '}'-free text is the answer.
   */
  lemma BracesRecover<V>(prefix: string, json: string, suffix: string, parse: string -> Option<V>)
    requires Without(prefix, '{') && Without(suffix, '}') && Object(json) && parse(json).Some?
    requires var text := Strip(prefix + json + suffix);
             parse(text).None? && ParseIn(FencedBody(text), parse).None?
    ensures Recover(prefix + json + suffix, parse) == Ok(parse(json).value)
  {
    StripAround(prefix, json, suffix);
    LeftStripWithout(prefix, '{');
    RightStripWithout(suffix, '}');
    BracedObject(Strip(prefix + json + suffix), LeftStrip(prefix), json, RightStrip(suffix));
  }

  lemma OccursInside(s: string, left: string, part: string, right: string, t: string, i: nat)
    requires s == left + part + right
    ensures OccursAt(part, t, i) ==> OccursAt(s, t, |left| + i)
  {}

  /** In a reply without a fence the fence step finds nothing. */
  lemma NoFence(raw: string)
    requires !Contains(raw, FENCE)
    ensures FencedBody(Strip(raw)).None?
  {
    var left, right := StripParts(raw);
    forall i: nat ensures !OccursAt(Strip(raw), FENCE, i) {
      OccursInside(raw, left, Strip(raw), right, FENCE, i);
    }
  }

  /** So in a reply that has no fence and does not parse as a whole, such an object is the answer. */
  lemma BareObjectRecovers<V>(prefix: string, json: string, suffix: string, parse: string -> Option<V>)
    requires Without(prefix, '{') && Without(suffix, '}') && Object(json) && parse(json).Some?
    requires !Contains(prefix + json + suffix, FENCE) && parse(Strip(prefix + json + suffix)).None?
    ensures Recover(prefix + json + suffix, parse) == Ok(parse(json).value)
  {
    NoFence(prefix + json + suffix);
    BracesRecover(prefix, json, suffix, parse);
  }

  /**
   The prefix condition is needed: what is tried starts at the first '{' of the text. With one in the text before the
   object, the answer is what the parser makes of everything from there to the object's end, if anything.
   */
  lemma StrayBraceHides<V>(before: string, between: string, json: string, suffix: string, parse: string -> Option<V>)
    requires Without(before, '{') && Without(suffix, '}') && Object(json)
    requires var raw := before + ("{" + between + json) + suffix;
             !Contains(raw, FENCE) && parse(Strip(raw)).None?
    ensures var raw, piece := before + ("{" + between + json) + suffix, "{" + between + json;
            if parse(piece).Some? then Recover(raw, parse) == Ok(parse(piece).value) else Recover(raw, parse).Raised?
  {
    var piece := "{" + between + json;
    assert Object(piece);
    NoFence(before + piece + suffix);
    StripAround(before, piece, suffix);
    LeftStripWithout(before, '{');
    RightStripWithout(suffix, '}');
    BracedObject(Strip(before + piece + suffix), LeftStrip(before), piece, RightStrip(suffix));
  }
}
