/** Cache keys of the AI service: normalised segments joined by `|`, hashed, and prefixed with the feature. */
module CacheKeys {
  import opened Outcomes
  import opened Text

  const MAX_SEGMENT: nat := 64

  /** SHA-256 as seen from here: some function into 64 lower-case hexadecimal digits. */
  type Hash = string -> string

  predicate IsHex(c: char) {
    '0' <= c <= '9' || 'a' <= c <= 'f'
  }

  ghost predicate IsDigest(hash: Hash) {
    forall s :: |hash(s)| == 64 && forall i :: 0 <= i < 64 ==> IsHex(hash(s)[i])
  }

  // ------------------------------------------------------------ segments

  predicate IsSafe(c: char) {
    'a' <= c <= 'z' || 'A' <= c <= 'Z' || '0' <= c <= '9' || c == '.' || c == '_' || c == ':' || c == '-'
  }

  predicate IsUnsafe(c: char) { !IsSafe(c) }

  predicate IsDash(c: char) { c == '-' }

  /** Replaces each run of unsafe characters by one dash. */
  function Sanitised(s: string): (r: string)
    ensures forall c :: c in r ==> IsSafe(c)
    decreases |s|
  {
    if s == [] then []
    else if IsSafe(s[0]) then [s[0]] + Sanitised(s[1..])
    else ['-'] + Sanitised(TrimStart(s[1..], IsUnsafe))
  }

  function Cleaned(value: string): string {
    Trim(Sanitised(Lower(Strip(value))), IsDash)
  }

  function NormalizeSegment(value: string, hash: Hash): string {
    var cleaned := Cleaned(value);
    if cleaned == [] then "empty"
    else if |cleaned| > MAX_SEGMENT then hash(value)
    else cleaned
  }

  /** A segment that normalisation returns: safe lower-case characters, not empty, at most 64, no outer dash. */
  ghost predicate IsNormal(s: string) {
    && 0 < |s| <= MAX_SEGMENT
    && (forall i :: 0 <= i < |s| ==> IsSafe(s[i]) && !('A' <= s[i] <= 'Z'))
    && s[0] != '-' && s[|s| - 1] != '-'
  }

  lemma {:induction false} SanitisedIsLower(s: string)
    requires forall i :: 0 <= i < |s| ==> !('A' <= s[i] <= 'Z')
    ensures forall i :: 0 <= i < |Sanitised(s)| ==> !('A' <= Sanitised(s)[i] <= 'Z')
    decreases |s|
  {
    if s == [] {
    } else if IsSafe(s[0]) {
      SanitisedIsLower(s[1..]);
    } else {
      TrimStartRemoves(s[1..], IsUnsafe);
      SanitisedIsLower(TrimStart(s[1..], IsUnsafe));
    }
  }

  lemma {:induction false} SanitisedKeepsSafe(s: string)
    requires forall i :: 0 <= i < |s| ==> IsSafe(s[i])
    ensures Sanitised(s) == s
  {
    if s != [] {
      SanitisedKeepsSafe(s[1..]);
    }
  }

  lemma CleanedIsSafe(value: string)
    ensures
      var r := Cleaned(value);
      && (forall i :: 0 <= i < |r| ==> IsSafe(r[i]) && !('A' <= r[i] <= 'Z'))
      && (r == [] || (r[0] != '-' && r[|r| - 1] != '-'))
  {
    hide Trim, Strip, Sanitised;
    var lower := Lower(Strip(value));
    var sanitised := Sanitised(lower);
    SanitisedIsLower(lower);
    var r := Trim(sanitised, IsDash);
    TrimWithin(sanitised, IsDash);
    forall i | 0 <= i < |r|
      ensures IsSafe(r[i]) && !('A' <= r[i] <= 'Z')
    {
      assert r[i] in r;
    }
  }

  /** Every segment normalises to a safe, bounded, non-empty one without `|`, whatever its text. */
  lemma NormalizedIsNormal(value: string, hash: Hash)
    requires IsDigest(hash)
    ensures IsNormal(NormalizeSegment(value, hash))
    ensures '|' !in NormalizeSegment(value, hash)
  {
    hide Cleaned;
    CleanedIsSafe(value);
  }

  lemma NormalIsClean(s: string)
    requires IsNormal(s)
    ensures Cleaned(s) == s
  {
    hide Trim, Sanitised;
    assert !IsSpace(s[0]) && !IsSpace(s[|s| - 1]);
    TrimKeepsTrimmed(s, IsSpace);
    assert Lower(s) == s;
    SanitisedKeepsSafe(s);
    TrimKeepsTrimmed(s, IsDash);
  }

  /** Normal segments are exactly the fixed points of normalisation. */
  lemma NormalSegmentsAreFixed(s: string, hash: Hash)
    requires IsDigest(hash)
    ensures NormalizeSegment(s, hash) == s <==> IsNormal(s)
  {
    hide Cleaned;
    NormalizedIsNormal(s, hash);
    if IsNormal(s) {
      NormalIsClean(s);
    }
  }

  lemma NormalizeIsIdempotent(value: string, hash: Hash)
    requires IsDigest(hash)
    ensures NormalizeSegment(NormalizeSegment(value, hash), hash) == NormalizeSegment(value, hash)
  {
    NormalizedIsNormal(value, hash);
    NormalSegmentsAreFixed(NormalizeSegment(value, hash), hash);
  }

  lemma LowerKeepsClass(c: char)
    ensures IsSpace(LowerChar(c)) == IsSpace(c) && IsSafe(LowerChar(c)) == IsSafe(c)
  {
  }

  lemma {:induction false} TrimStartOfLower(s: string, drop: char -> bool)
    requires forall c :: c in s ==> drop(LowerChar(c)) == drop(c)
    ensures TrimStart(Lower(s), drop) == Lower(TrimStart(s, drop))
  {
    hide LowerChar, Lower;
    if s != [] && drop(s[0]) {
      TrimStartOfLower(s[1..], drop);
      assert Lower(s)[1..] == Lower(s[1..]);
    }
  }

  lemma {:induction false} TrimEndOfLower(s: string, drop: char -> bool)
    requires forall c :: c in s ==> drop(LowerChar(c)) == drop(c)
    ensures TrimEnd(Lower(s), drop) == Lower(TrimEnd(s, drop))
  {
    hide LowerChar, Lower;
    if s != [] && drop(s[|s| - 1]) {
      TrimEndOfLower(s[..|s| - 1], drop);
      assert Lower(s)[..|s| - 1] == Lower(s[..|s| - 1]);
    }
  }

  lemma StripOfLower(s: string)
    ensures Strip(Lower(s)) == Lower(Strip(s))
  {
    forall c: char
      ensures IsSpace(LowerChar(c)) == IsSpace(c)
    {
      LowerKeepsClass(c);
    }
    hide IsSpace, LowerChar, Lower, TrimStart, TrimEnd;
    TrimStartOfLower(s, IsSpace);
    TrimEndOfLower(TrimStart(s, IsSpace), IsSpace);
  }

  /**
   A segment and its lower-case form are one segment exactly when it is short or
   has no capitals: a long one is hashed as given, capitals and outer spaces included.
   */
  lemma {:induction false} CaseIsIgnoredExactlyWhenShort(value: string, hash: Hash)
    requires |Cleaned(value)| > MAX_SEGMENT && hash(value) == hash(Lower(value)) ==> value == Lower(value)
    ensures NormalizeSegment(value, hash) == NormalizeSegment(Lower(value), hash)
      <==> |Cleaned(value)| <= MAX_SEGMENT || value == Lower(value)
  {
    assert Cleaned(Lower(value)) == Cleaned(value) by {
      StripOfLower(value);
      LowerIsIdempotent(Strip(value));
    }
  }

  function Repeated(c: char, n: nat): (s: string)
    ensures |s| == n && forall i :: 0 <= i < n ==> s[i] == c
  {
    seq(n, i => c)
  }

  lemma CapitalsAreCleaned(n: nat)
    requires n > 0
    ensures Cleaned(Repeated('A', n)) == Lower(Repeated('A', n)) == Repeated('a', n)
  {
    var value, lower := Repeated('A', n), Repeated('a', n);
    assert !IsSpace('A') && IsSafe('a') && !IsDash('a');
    TrimKeepsTrimmed(value, IsSpace);
    assert Lower(value) == lower;
    SanitisedKeepsSafe(lower);
    TrimKeepsTrimmed(lower, IsDash);
  }

  /** 65 capitals and their lower-case form are two segments, unless the hash collides on them; 64 are one. */
  lemma LongCapitalsAreKept(hash: Hash)
    requires hash(Repeated('A', 65)) != hash(Repeated('a', 65))
    ensures NormalizeSegment(Repeated('A', 65), hash) != NormalizeSegment(Repeated('a', 65), hash)
    ensures NormalizeSegment(Repeated('A', 64), hash) == NormalizeSegment(Repeated('a', 64), hash)
  {
    hide Cleaned, Lower, Repeated;
    CapitalsAreCleaned(65);
    CapitalsAreCleaned(64);
    CaseIsIgnoredExactlyWhenShort(Repeated('A', 65), hash);
    CaseIsIgnoredExactlyWhenShort(Repeated('A', 64), hash);
  }

  // ------------------------------------------------------------------ words

  /** `words` with one of `runs` between any two. */
  function Interleaved(words: seq<string>, runs: seq<string>): string
    requires |words| == |runs| + 1
  {
    if runs == [] then words[0] else words[0] + (runs[0] + Interleaved(words[1..], runs[1..]))
  }

  predicate AllSafe(s: string) { forall c :: c in s ==> IsSafe(c) }

  predicate AllUnsafe(s: string) { forall c :: c in s ==> !IsSafe(c) }

  /** What normalisation drops at the two ends. */
  predicate IsOuter(s: string) { forall c :: c in s ==> !IsSafe(c) || c == '-' }

  ghost predicate AreWords(words: seq<string>) {
    forall i :: 0 <= i < |words| ==> words[i] != "" && AllSafe(words[i])
  }

  ghost predicate AreRuns(runs: seq<string>) {
    forall i :: 0 <= i < |runs| ==> runs[i] != "" && AllUnsafe(runs[i])
  }

  lemma {:induction false} InterleavedEnds(words: seq<string>, runs: seq<string>)
    requires |words| == |runs| + 1 && AreWords(words)
    ensures
      var s, last := Interleaved(words, runs), words[|words| - 1];
      s != "" && s[0] == words[0][0] && s[|s| - 1] == last[|last| - 1]
  {
    if runs != [] {
      InterleavedEnds(words[1..], runs[1..]);
    }
  }

  lemma {:induction false} JoinedWordsEnd(words: seq<string>)
    requires words != [] && AreWords(words)
    ensures
      var s, last := Joined(words, "-"), words[|words| - 1];
      s != "" && s[0] == words[0][0] && s[|s| - 1] == last[|last| - 1]
  {
    if |words| > 1 {
      JoinedWordsEnd(words[1..]);
    }
  }

  lemma {:induction false} SanitisedOfWord(word: string, t: string)
    requires AllSafe(word)
    ensures Sanitised(word + t) == word + Sanitised(t)
  {
    hide IsSafe;
    if word == "" {
      assert word + t == t;
    } else {
      SanitisedOfWord(word[1..], t);
      assert (word + t)[1..] == word[1..] + t;
      assert word[0] in word;
    }
  }

  lemma SanitisedOfRun(run: string, t: string)
    requires run != "" && AllUnsafe(run) && (t == "" || IsSafe(t[0]))
    ensures Sanitised(run + t) == "-" + Sanitised(t)
  {
    hide IsSafe;
    assert (run + t)[1..] == run[1..] + t && run[0] in run;
    StartIsSkipped(run[1..], t, IsUnsafe);
  }

  lemma {:induction false} SanitisedOfWords(words: seq<string>, runs: seq<string>, t: string)
    requires |words| == |runs| + 1 && AreWords(words) && AreRuns(runs)
    ensures Sanitised(Interleaved(words, runs) + t) == Joined(words, "-") + Sanitised(t)
  {
    hide IsSafe, Sanitised, AllSafe, AllUnsafe;
    if runs == [] {
      SanitisedOfWord(words[0], t);
    } else {
      var rest := Interleaved(words[1..], runs[1..]);
      InterleavedEnds(words[1..], runs[1..]);
      SanitisedOfWords(words[1..], runs[1..], t);
      FirstIsSafe(words[1]);
      SanitisedOfRun(runs[0], rest + t);
      SanitisedOfWord(words[0], runs[0] + (rest + t));
      assert Interleaved(words, runs) + t == words[0] + (runs[0] + (rest + t));
    }
  }

  lemma FirstIsSafe(word: string)
    requires word != "" && AllSafe(word)
    ensures IsSafe(word[0]) && IsSafe(word[|word| - 1])
  {
    assert word[0] in word && word[|word| - 1] in word;
  }

  lemma SanitisedOfFirst(first: char, rest: string, t: string)
    requires t == "" || IsSafe(t[0])
    ensures Sanitised([first] + rest + t) ==
      if IsSafe(first) then [first] + Sanitised(rest + t) else "-" + Sanitised(TrimStart(rest, IsUnsafe) + t)
  {
    hide IsSafe;
    assert ([first] + rest + t)[1..] == rest + t && ([first] + rest + t)[0] == first;
    TrimStartOfConcat(rest, t, IsUnsafe);
  }

  lemma RestIsOuter(outer: string)
    requires IsOuter(outer) && outer != ""
    ensures IsOuter(outer[1..]) && IsOuter(TrimStart(outer[1..], IsUnsafe)) && (IsSafe(outer[0]) ==> outer[0] == '-')
  {
    hide IsSafe;
    assert outer[0] in outer;
    PartIsOuter(outer, 1, |outer|);
    var rest := outer[1..];
    TrimStartRemoves(rest, IsUnsafe);
    PartIsOuter(rest, |rest| - |TrimStart(rest, IsUnsafe)|, |rest|);
  }

  lemma PartIsOuter(s: string, from: nat, to: nat)
    requires IsOuter(s) && from <= to <= |s|
    ensures IsOuter(s[from..to])
  {
  }

  /** Outer characters in front leave nothing but dashes. */
  lemma {:induction false} SanitisedOfOuter(outer: string, t: string) returns (dashes: string)
    requires IsOuter(outer) && (t == "" || IsSafe(t[0]))
    ensures Sanitised(outer + t) == dashes + Sanitised(t) && forall c :: c in dashes ==> c == '-'
    decreases |outer|
  {
    hide *;
    if outer == "" {
      assert outer + t == t;
      return "";
    }
    RestIsOuter(outer);
    assert outer == [outer[0]] + outer[1..];
    SanitisedOfFirst(outer[0], outer[1..], t);
    var rest := if IsSafe(outer[0]) then outer[1..] else TrimStart(outer[1..], IsUnsafe);
    var before := SanitisedOfOuter(rest, t);
    dashes := "-" + before;
    assert "-" + (before + Sanitised(t)) == dashes + Sanitised(t);
  }

  lemma {:induction false} SanitisedOfLower(s: string)
    ensures Sanitised(Lower(s)) == Lower(Sanitised(s))
    decreases |s|
  {
    forall c: char
      ensures IsSafe(LowerChar(c)) == IsSafe(c)
    {
      LowerKeepsClass(c);
    }
    assert LowerChar('-') == '-';
    hide IsSafe, LowerChar;
    if s != "" {
      assert Lower(s)[1..] == Lower(s[1..]);
      TrimStartOfLower(s[1..], IsUnsafe);
      SanitisedOfLower(if IsSafe(s[0]) then s[1..] else TrimStart(s[1..], IsUnsafe));
    }
  }

  /** Stripping only shortens what stands around the core. */
  lemma StripOfOuter(left: string, core: string, right: string) returns (l: string, r: string)
    requires IsOuter(left) && IsOuter(right) && core != "" && Trimmed(core, IsSpace)
    ensures IsOuter(l) && IsOuter(r) && Strip(left + core + right) == l + core + r
  {
    hide IsSpace, IsSafe, TrimStart, TrimEnd, IsOuter;
    l, r := TrimStart(left, IsSpace), TrimEnd(right, IsSpace);
    TrimStartOfConcat(left, core + right, IsSpace);
    TrimEndOfConcat(l + core, right, IsSpace);
    assert left + core + right == left + (core + right) && l + (core + right) == l + core + right;
    TrimStartRemoves(left, IsSpace);
    assert l == left[|left| - |l|..|left|] && r == right[0..|r|];
    PartIsOuter(left, |left| - |l|, |left|);
    PartIsOuter(right, 0, |r|);
  }

  lemma NothingSanitised()
    ensures Sanitised("") == ""
  {
  }

  lemma CoreIsTrimmed(words: seq<string>, runs: seq<string>)
    requires |words| == |runs| + 1 && AreWords(words)
    requires words[0][0] != '-' && words[|words| - 1][|words[|words| - 1]| - 1] != '-'
    ensures
      var core, joined := Interleaved(words, runs), Joined(words, "-");
      && core != "" && Trimmed(core, IsSpace)
      && joined != "" && joined[0] != '-' && joined[|joined| - 1] != '-'
  {
    InterleavedEnds(words, runs);
    JoinedWordsEnd(words);
    FirstIsSafe(words[0]);
    FirstIsSafe(words[|words| - 1]);
  }

  /**
   The text of a segment, for every way of writing it: its words in lower case
   with one dash for whatever unsafe characters stand between two of them, and
   nothing of what stands around them.
   */
  lemma {:induction false} WordsAreJoined(left: string, words: seq<string>, runs: seq<string>, right: string)
    requires IsOuter(left) && IsOuter(right)
    requires |words| == |runs| + 1 && AreWords(words) && AreRuns(runs)
    requires words[0][0] != '-' && words[|words| - 1][|words[|words| - 1]| - 1] != '-'
    ensures Cleaned(left + Interleaved(words, runs) + right) == Lower(Joined(words, "-")) != ""
  {
    var value, core, joined := left + Interleaved(words, runs) + right, Interleaved(words, runs), Joined(words, "-");
    CoreIsTrimmed(words, runs);
    hide IsSpace, IsSafe, IsDash, Strip, Trim, Sanitised, Joined, Interleaved, Lower, Trimmed, AllSafe, AllUnsafe, IsOuter;
    var l, r := StripOfOuter(left, core, right);
    var before, after := SanitisedText(l, words, runs, r);
    SanitisedOfLower(l + core + r);
    LowerOfDashed(before, joined, after);
    TrimRemoves(before, Lower(joined), after, IsDash);
  }

  /** With nothing but dashes around it the sanitised text is the joined words. */
  lemma SanitisedText(l: string, words: seq<string>, runs: seq<string>, r: string) returns (before: string, after: string)
    requires IsOuter(l) && IsOuter(r) && |words| == |runs| + 1 && AreWords(words) && AreRuns(runs)
    ensures Sanitised(l + Interleaved(words, runs) + r) == before + (Joined(words, "-") + after)
    ensures (forall c :: c in before ==> c == '-') && (forall c :: c in after ==> c == '-')
  {
    InterleavedEnds(words, runs);
    FirstIsSafe(words[0]);
    var core := Interleaved(words, runs);
    hide *;
    before := SanitisedOfOuter(l, core + r);
    SanitisedOfWords(words, runs, r);
    after := SanitisedOfOuter(r, "");
    NothingSanitised();
    assert r + "" == r && after + "" == after;
    assert l + core + r == l + (core + r);
  }

  lemma LowerOfDashed(before: string, s: string, after: string)
    requires (forall c :: c in before ==> c == '-') && (forall c :: c in after ==> c == '-')
    requires s != "" && s[0] != '-' && s[|s| - 1] != '-'
    ensures Lower(before + (s + after)) == before + Lower(s) + after && Trimmed(Lower(s), IsDash) && Lower(s) != ""
    ensures (forall c :: c in before ==> IsDash(c)) && (forall c :: c in after ==> IsDash(c))
  {
    assert forall i :: 0 <= i < |before| ==> before[i] in before;
    assert forall i :: 0 <= i < |after| ==> after[i] in after;
  }

  /** A segment without words is `empty`. */
  lemma BlankIsEmpty(value: string, hash: Hash)
    requires IsOuter(value)
    ensures NormalizeSegment(value, hash) == "empty"
  {
    TrimWithin(value, IsSpace);
    var stripped := Strip(value);
    var dashes := SanitisedOfOuter(stripped, "");
    assert stripped + "" == stripped;
    SanitisedOfLower(stripped);
    assert Lower(dashes) == dashes by {
      assert forall i :: 0 <= i < |dashes| ==> dashes[i] in dashes;
    }
    StartIsSkipped(dashes, "", IsDash);
    assert dashes + "" == dashes;
  }

  /** Long segments are hashed as they were given, with everything normalisation would drop. */
  lemma SegmentText(left: string, words: seq<string>, runs: seq<string>, right: string, hash: Hash)
    requires IsOuter(left) && IsOuter(right)
    requires |words| == |runs| + 1 && AreWords(words) && AreRuns(runs)
    requires words[0][0] != '-' && words[|words| - 1][|words[|words| - 1]| - 1] != '-'
    ensures
      var value, text := left + Interleaved(words, runs) + right, Joined(words, "-");
      NormalizeSegment(value, hash) == if |text| > 64 then hash(value) else Lower(text)
  {
    hide Cleaned, Interleaved, Joined;
    WordsAreJoined(left, words, runs, right);
  }

  // ---------------------------------------------------------------- joining

  predicate IsBar(c: char) { c == '|' }

  /** The segments of a joined text. */
  function Split(s: string): (r: seq<string>)
    ensures r != []
    decreases |s|
  {
    var n := StopAt(s, IsBar);
    if n == |s| then [s] else [s[..n]] + Split(s[n + 1..])
  }

  lemma {:induction false} SplitJoin(segments: seq<string>)
    requires segments != [] && forall i :: 0 <= i < |segments| ==> '|' !in segments[i]
    ensures Split(Joined(segments, "|")) == segments
  {
    if |segments| == 1 {
      StopsAfter(segments[0], [], IsBar);
      assert segments[0] + [] == segments[0];
    } else {
      var first, tail := segments[0], Joined(segments[1..], "|");
      SplitFirst(first, tail);
      hide Split;
      assert Joined(segments, "|") == first + "|" + tail;
      SplitJoin(segments[1..]);
    }
  }

  lemma SplitFirst(first: string, tail: string)
    requires '|' !in first
    ensures Split(first + "|" + tail) == [first] + Split(tail)
  {
    var s := first + ("|" + tail);
    assert s == first + "|" + tail;
    StopsAfter(first, "|" + tail, IsBar);
    assert s[..|first|] == first && s[|first| + 1..] == tail;
  }

  // ------------------------------------------------------------------- keys

  datatype Kind = LeetCode | HackerRank | Dsa | Course

  function Prefix(kind: Kind): string {
    match kind
    case LeetCode => "leetcode"
    case HackerRank => "hackerrank"
    case Dsa => "dsa"
    case Course => "course"
  }

  /** What a key is built from. `context` and `metadata` hold the values that are set, as text. */
  datatype Request = Request(feature: string, model: string, promptVersion: string,
                             context: map<string, string>, metadata: map<string, string>, message: string)

  function TextAt(m: map<string, string>, key: string): string {
    if key in m then m[key] else ""
  }

  /** `a or b`. */
  function Or(a: string, b: string): string {
    if a != "" then a else b
  }

  /** The cacheable feature a request names. `course` alone is not cacheable. */
  function KindOf(feature: string): Option<Kind> {
    var name := Lower(Strip(feature));
    if name == "leetcode" then Some(LeetCode)
    else if name == "hackerrank" then Some(HackerRank)
    else if name == "dsa" || name == "dsa_pattern" then Some(Dsa)
    else if name == "course_generator" then Some(Course)
    else None
  }

  /** The raw segments of a request's key. */
  function Segments(r: Request, kind: Kind): (segments: seq<string>)
    ensures |segments| == if kind == Course then 4 else 3
  {
    match kind
    case LeetCode =>
      [r.model, r.promptVersion,
       Or(TextAt(r.context, "slug"), Or(TextAt(r.metadata, "problem_slug"),
          Or(TextAt(r.context, "title"), Or(r.message, "unknown"))))]
    case HackerRank =>
      [r.model, r.promptVersion,
       Or(TextAt(r.context, "slug"), Or(TextAt(r.metadata, "challenge_slug"),
          Or(TextAt(r.context, "title"), Or(r.message, "unknown"))))]
    case Dsa =>
      [Or(TextAt(r.context, "pattern"), Or(TextAt(r.metadata, "pattern"), Or(r.message, "unknown"))),
       Or(TextAt(r.context, "difficulty"), Or(TextAt(r.metadata, "difficulty"), "any")),
       r.model]
    case Course =>
      [Or(TextAt(r.context, "topic"), Or(TextAt(r.metadata, "topic"), Or(r.message, "unknown"))),
       Or(TextAt(r.context, "level"), Or(TextAt(r.metadata, "level"), "any")),
       Or(TextAt(r.context, "language"), Or(TextAt(r.metadata, "language"), "en")),
       r.model]
  }

  function Normalized(segments: seq<string>, hash: Hash): (r: seq<string>)
    ensures |r| == |segments|
  {
    seq(|segments|, i requires 0 <= i < |segments| => NormalizeSegment(segments[i], hash))
  }

  /** The text that is hashed into a key. */
  function Material(r: Request, kind: Kind, hash: Hash): string {
    Joined(Normalized(Segments(r, kind), hash), "|")
  }

  function FeatureKey(r: Request, hash: Hash): Option<string> {
    match KindOf(r.feature)
    case None => None
    case Some(kind) => Some(Prefix(kind) + ":" + hash(Material(r, kind, hash)))
  }

  lemma JoinedOfThree(a: string, b: string, c: string)
    ensures Joined([a, b, c], "|") == a + "|" + (b + "|" + c)
  {
    assert [a, b, c][1..] == [b, c] && [b, c][1..] == [c];
    assert Joined([c], "|") == c;
    assert Joined([b, c], "|") == b + "|" + c;
  }

  lemma ThreeSegments(a: string, b: string, c: string, hash: Hash)
    ensures Joined(Normalized([a, b, c], hash), "|") ==
      NormalizeSegment(a, hash) + "|" + (NormalizeSegment(b, hash) + "|" + NormalizeSegment(c, hash))
  {
    hide NormalizeSegment;
    JoinedOfThree(NormalizeSegment(a, hash), NormalizeSegment(b, hash), NormalizeSegment(c, hash));
    hide Joined;
    assert Normalized([a, b, c], hash) == [NormalizeSegment(a, hash), NormalizeSegment(b, hash), NormalizeSegment(c, hash)];
  }

  lemma FourSegments(a: string, b: string, c: string, d: string, hash: Hash)
    ensures Joined(Normalized([a, b, c, d], hash), "|") ==
      NormalizeSegment(a, hash) + "|" + (NormalizeSegment(b, hash) + "|" + (NormalizeSegment(c, hash) + "|" + NormalizeSegment(d, hash)))
  {
    hide NormalizeSegment;
    ThreeSegments(b, c, d, hash);
    var segments := Normalized([a, b, c, d], hash);
    assert segments[1..] == Normalized([b, c, d], hash);
    assert segments[0] == NormalizeSegment(a, hash);
  }

  /** A value that is set and not empty. */
  predicate Has(m: map<string, string>, key: string) {
    key in m && m[key] != ""
  }

  /** The key of a LeetCode or HackerRank request: model, prompt version, and the first of four texts that is there. */
  lemma ProblemKey(r: Request, hash: Hash)
    requires Lower(Strip(r.feature)) == "leetcode" || Lower(Strip(r.feature)) == "hackerrank"
    ensures
      var name := Lower(Strip(r.feature));
      var inMetadata := if name == "leetcode" then "problem_slug" else "challenge_slug";
      var slug :=
        if Has(r.context, "slug") then r.context["slug"]
        else if Has(r.metadata, inMetadata) then r.metadata[inMetadata]
        else if Has(r.context, "title") then r.context["title"]
        else if r.message != "" then r.message
        else "unknown";
      var text := NormalizeSegment(r.model, hash) + "|"
        + (NormalizeSegment(r.promptVersion, hash) + "|" + NormalizeSegment(slug, hash));
      FeatureKey(r, hash) == Some(name + ":" + hash(text))
  {
    hide NormalizeSegment, Strip, Lower;
    var segments := Segments(r, KindOf(r.feature).value);
    ThreeSegments(segments[0], segments[1], segments[2], hash);
    hide Joined, Normalized;
  }

  /** The key of a DSA request, under both names of the feature. */
  lemma DsaKey(r: Request, hash: Hash)
    requires Lower(Strip(r.feature)) == "dsa" || Lower(Strip(r.feature)) == "dsa_pattern"
    ensures
      var pattern :=
        if Has(r.context, "pattern") then r.context["pattern"]
        else if Has(r.metadata, "pattern") then r.metadata["pattern"]
        else if r.message != "" then r.message
        else "unknown";
      var difficulty :=
        if Has(r.context, "difficulty") then r.context["difficulty"]
        else if Has(r.metadata, "difficulty") then r.metadata["difficulty"]
        else "any";
      var text := NormalizeSegment(pattern, hash) + "|"
        + (NormalizeSegment(difficulty, hash) + "|" + NormalizeSegment(r.model, hash));
      FeatureKey(r, hash) == Some("dsa:" + hash(text))
  {
    hide NormalizeSegment, Strip, Lower;
    assert KindOf(r.feature) == Some(Dsa) && Prefix(Dsa) + ":" == "dsa:";
    var segments := Segments(r, Dsa);
    ThreeSegments(segments[0], segments[1], segments[2], hash);
    hide Joined, Normalized;
  }

  /** The key of a course request. */
  lemma CourseKey(r: Request, hash: Hash)
    requires Lower(Strip(r.feature)) == "course_generator"
    ensures
      var topic :=
        if Has(r.context, "topic") then r.context["topic"]
        else if Has(r.metadata, "topic") then r.metadata["topic"]
        else if r.message != "" then r.message
        else "unknown";
      var level :=
        if Has(r.context, "level") then r.context["level"]
        else if Has(r.metadata, "level") then r.metadata["level"]
        else "any";
      var language :=
        if Has(r.context, "language") then r.context["language"]
        else if Has(r.metadata, "language") then r.metadata["language"]
        else "en";
      var text := NormalizeSegment(topic, hash) + "|"
        + (NormalizeSegment(level, hash) + "|" + (NormalizeSegment(language, hash) + "|" + NormalizeSegment(r.model, hash)));
      FeatureKey(r, hash) == Some("course:" + hash(text))
  {
    hide NormalizeSegment, Strip, Lower;
    assert KindOf(r.feature) == Some(Course) && Prefix(Course) + ":" == "course:";
    var segments := Segments(r, Course);
    FourSegments(segments[0], segments[1], segments[2], segments[3], hash);
    hide Joined, Normalized;
  }

  /** No other feature has a key; `course`, which the last branch of the function names, is one of these. */
  lemma OnlyTheseFeaturesHaveKeys(r: Request, hash: Hash)
    ensures FeatureKey(r, hash).Some? <==>
      var name := Lower(Strip(r.feature));
      name == "leetcode" || name == "hackerrank" || name == "dsa" || name == "dsa_pattern" || name == "course_generator"
  {
    hide Strip, Lower, Material, Prefix;
  }

  /** The digest is the last 64 characters, so the prefix can be read off. */
  lemma KeysSplit(a: Kind, b: Kind, x: string, y: string)
    requires |x| == |y| == 64
    ensures Prefix(a) + ":" + x == Prefix(b) + ":" + y <==> a == b && x == y
  {
    var left, right := Prefix(a) + ":" + x, Prefix(b) + ":" + y;
    assert left[|left| - 64..] == x && right[|right| - 64..] == y;
    assert left[..|left| - 65] == Prefix(a) && right[..|right| - 65] == Prefix(b);
    assert a != b ==> |Prefix(a)| != |Prefix(b)|;
  }

  lemma MaterialIsUnique(r: Request, s: Request, kind: Kind, hash: Hash)
    requires IsDigest(hash)
    ensures Material(r, kind, hash) == Material(s, kind, hash)
      <==> Normalized(Segments(r, kind), hash) == Normalized(Segments(s, kind), hash)
  {
    var a, b := Normalized(Segments(r, kind), hash), Normalized(Segments(s, kind), hash);
    forall i | 0 <= i < |a|
      ensures '|' !in a[i] && '|' !in b[i]
    {
      NormalizedIsNormal(Segments(r, kind)[i], hash);
      NormalizedIsNormal(Segments(s, kind)[i], hash);
    }
    SplitJoin(a);
    SplitJoin(b);
  }

  /**
   Two requests share a key exactly when they are for the same feature and their
   normalised segments agree, unless the hash collides on their two texts.
   */
  lemma {:induction false} KeysIdentifyRequests(r: Request, s: Request, hash: Hash)
    requires IsDigest(hash)
    requires KindOf(r.feature).Some? && KindOf(s.feature).Some?
    requires
      var x, y := Material(r, KindOf(r.feature).value, hash), Material(s, KindOf(s.feature).value, hash);
      hash(x) == hash(y) ==> x == y
    ensures FeatureKey(r, hash) == FeatureKey(s, hash) <==>
      && KindOf(r.feature) == KindOf(s.feature)
      && Normalized(Segments(r, KindOf(r.feature).value), hash) == Normalized(Segments(s, KindOf(s.feature).value), hash)
  {
    hide Prefix, KindOf, Segments, Joined;
    var a, b := KindOf(r.feature).value, KindOf(s.feature).value;
    KeysSplit(a, b, hash(Material(r, a, hash)), hash(Material(s, b, hash)));
    if a == b {
      MaterialIsUnique(r, s, a, hash);
    }
  }
}
