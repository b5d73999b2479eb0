/** The string operations the services rely on: stripping, ASCII lower case, joining, decimal numerals. */
module Text {

  /** `str.isspace` for one character. */
  predicate IsSpace(c: char) {
    || '\U{9}' <= c <= '\U{D}' || '\U{1C}' <= c <= ' ' || c == '\U{85}' || c == '\U{A0}' || c == '\U{1680}'
    || '\U{2000}' <= c <= '\U{200A}' || c == '\U{2028}' || c == '\U{2029}' || c == '\U{202F}' || c == '\U{205F}' || c == '\U{3000}'
  }

  function TrimStart(s: string, drop: char -> bool): (r: string)
    ensures r == [] || !drop(r[0])
    ensures |r| <= |s|
  {
    if s != [] && drop(s[0]) then TrimStart(s[1..], drop) else s
  }

  function TrimEnd(s: string, drop: char -> bool): (r: string)
    ensures r == [] || !drop(r[|r| - 1])
    ensures r <= s
  {
    if s != [] && drop(s[|s| - 1]) then TrimEnd(s[..|s| - 1], drop) else s
  }

  /** The part of `s` between the first and the last character that is kept. */
  function Trim(s: string, drop: char -> bool): (r: string)
    ensures Trimmed(r, drop)
    ensures |r| <= |s|
  {
    TrimEnd(TrimStart(s, drop), drop)
  }

  /** Trimming only removes dropped characters at the two ends. */
  lemma {:induction false} TrimStartRemoves(s: string, drop: char -> bool)
    ensures TrimStart(s, drop) == s[|s| - |TrimStart(s, drop)|..]
    ensures forall i :: 0 <= i < |s| - |TrimStart(s, drop)| ==> drop(s[i])
  {
    if s != [] && drop(s[0]) {
      TrimStartRemoves(s[1..], drop);
    }
  }

  lemma {:induction false} TrimStartOfConcat(s: string, t: string, drop: char -> bool)
    requires t == "" || !drop(t[0])
    ensures TrimStart(s + t, drop) == TrimStart(s, drop) + t
  {
    if s == "" {
      assert s + t == t;
    } else if drop(s[0]) {
      TrimStartOfConcat(s[1..], t, drop);
      assert (s + t)[1..] == s[1..] + t;
    }
  }

  lemma {:induction false} TrimEndOfConcat(s: string, t: string, drop: char -> bool)
    requires s == "" || !drop(s[|s| - 1])
    ensures TrimEnd(s + t, drop) == s + TrimEnd(t, drop)
  {
    if t == "" {
      assert s + t == s;
    } else if drop(t[|t| - 1]) {
      TrimEndOfConcat(s, t[..|t| - 1], drop);
      assert (s + t)[..|s + t| - 1] == s + t[..|t| - 1];
    }
  }

  lemma TrimWithin(s: string, drop: char -> bool)
    ensures forall c :: c in Trim(s, drop) ==> c in s
  {
    TrimStartRemoves(s, drop);
  }

  function Strip(s: string): string {
    Trim(s, IsSpace)
  }

  lemma {:induction false} StartIsSkipped(outer: string, s: string, drop: char -> bool)
    requires (forall c :: c in outer ==> drop(c)) && (s == "" || !drop(s[0]))
    ensures TrimStart(outer + s, drop) == s
  {
    if outer == "" {
      assert outer + s == s;
    } else {
      StartIsSkipped(outer[1..], s, drop);
      assert (outer + s)[1..] == outer[1..] + s;
      assert (outer + s)[0] == outer[0] && outer[0] in outer;
    }
  }

  lemma {:induction false} EndIsDropped(s: string, outer: string, drop: char -> bool)
    requires (forall c :: c in outer ==> drop(c)) && (s == "" || !drop(s[|s| - 1]))
    ensures TrimEnd(s + outer, drop) == s
  {
    if outer == "" {
      assert s + outer == s;
    } else {
      var last := |outer| - 1;
      EndIsDropped(s, outer[..last], drop);
      assert (s + outer)[..|s + outer| - 1] == s + outer[..last];
      assert (s + outer)[|s + outer| - 1] == outer[last] && outer[last] in outer;
    }
  }

  lemma TrimRemoves(before: string, s: string, after: string, drop: char -> bool)
    requires s != "" && Trimmed(s, drop)
    requires (forall c :: c in before ==> drop(c)) && (forall c :: c in after ==> drop(c))
    ensures Trim(before + s + after, drop) == s
  {
    assert before + s + after == before + (s + after);
    assert (s + after)[0] == s[0];
    StartIsSkipped(before, s + after, drop);
    EndIsDropped(s, after, drop);
  }

  /** Stripping removes the spaces around a text and nothing else. */
  lemma StripRemoves(before: string, s: string, after: string)
    requires s != "" && Trimmed(s, IsSpace)
    requires (forall c :: c in before ==> IsSpace(c)) && (forall c :: c in after ==> IsSpace(c))
    ensures Strip(before + s + after) == s
  {
    hide IsSpace;
    TrimRemoves(before, s, after, IsSpace);
  }

  predicate Trimmed(s: string, drop: char -> bool) {
    s == [] || (!drop(s[0]) && !drop(s[|s| - 1]))
  }

  lemma TrimKeepsTrimmed(s: string, drop: char -> bool)
    requires Trimmed(s, drop)
    ensures Trim(s, drop) == s
  {
  }

  function LowerChar(c: char): char {
    if 'A' <= c <= 'Z' then c - 'A' + 'a' else c
  }

  function Lower(s: string): (r: string)
    ensures |r| == |s| && forall i :: 0 <= i < |s| ==> r[i] == LowerChar(s[i])
  {
    seq(|s|, i requires 0 <= i < |s| => LowerChar(s[i]))
  }

  /** Two texts have one lower-case form exactly when they differ only in the case of letters. */
  lemma LowerForgetsCase(s: string, t: string)
    ensures Lower(s) == Lower(t) <==>
      && |s| == |t|
      && forall i :: 0 <= i < |s| ==>
           || s[i] == t[i]
           || ('A' <= s[i] <= 'Z' && t[i] == s[i] - 'A' + 'a')
           || ('A' <= t[i] <= 'Z' && s[i] == t[i] - 'A' + 'a')
  {
    if Lower(s) == Lower(t) {
      forall i | 0 <= i < |s|
        ensures LowerChar(s[i]) == LowerChar(t[i])
      {
        assert Lower(s)[i] == Lower(t)[i];
      }
    }
  }

  lemma LowerIsIdempotent(s: string)
    ensures Lower(Lower(s)) == Lower(s)
  {
  }

  /** Where `s` first has a character that stops, or its length. */
  function StopAt(s: string, stop: char -> bool): (n: nat)
    ensures n <= |s| && (forall i :: 0 <= i < n ==> !stop(s[i])) && (n < |s| ==> stop(s[n]))
  {
    if s == [] || stop(s[0]) then 0 else 1 + StopAt(s[1..], stop)
  }

  lemma {:induction false} StopsAfter(word: string, rest: string, stop: char -> bool)
    requires (forall i :: 0 <= i < |word| ==> !stop(word[i])) && (rest == [] || stop(rest[0]))
    ensures StopAt(word + rest, stop) == |word|
  {
    if word == [] {
      assert word + rest == rest;
    } else {
      StopsAfter(word[1..], rest, stop);
      assert (word + rest)[1..] == word[1..] + rest;
    }
  }

  /** `separator.join(parts)`. */
  function Joined(parts: seq<string>, separator: string): string {
    if parts == [] then "" else if |parts| == 1 then parts[0] else parts[0] + separator + Joined(parts[1..], separator)
  }

  // ------------------------------------------------------------ numerals

  predicate IsDigit(c: char) { '0' <= c <= '9' }

  predicate AllDigits(s: string) { forall c :: c in s ==> IsDigit(c) }

  function Digit(d: nat): (c: char)
    requires d < 10
    ensures IsDigit(c)
  {
    '0' + d as char
  }

  /** The decimal numeral of `n`. */
  function Decimal(n: nat): (r: string)
    ensures r != [] && AllDigits(r)
  {
    if n < 10 then [Digit(n)] else Decimal(n / 10) + [Digit(n % 10)]
  }

  /** The number a digit string denotes. */
  function Value(s: string): nat
    requires AllDigits(s)
  {
    if s == [] then 0 else assert IsDigit(s[|s| - 1]); 10 * Value(s[..|s| - 1]) + (s[|s| - 1] - '0') as nat
  }

  lemma {:induction false} ValueOfDecimal(n: nat)
    ensures Value(Decimal(n)) == n
  {
    if n >= 10 {
      ValueOfDecimal(n / 10);
      assert Decimal(n)[..|Decimal(n)| - 1] == Decimal(n / 10);
    }
  }
}
