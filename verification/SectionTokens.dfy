/** Attributing the completion tokens of one response to its sections. */
module SectionTokens {
  import opened Outcomes
  import opened Text
  import opened Payloads
  import opened Apportionment

  /** A dictionary of weights in insertion order. */
  datatype Weights = Weights(keys: seq<string>, of: map<string, nat>) {
    ghost predicate Valid() {
      && (forall k :: k in keys <==> k in of)
      && (forall i, j :: 0 <= i < j < |keys| ==> keys[i] != keys[j])
    }

    /** Overwriting a key keeps its place. */
    function Put(key: string, weight: nat): (r: Weights)
      requires Valid()
      ensures r.Valid() && r.of == of[key := weight]
    {
      Weights(if key in of then keys else keys + [key], of[key := weight])
    }
  }

  /** `_size`: the length of the serialised value, at least one. */
  function Size(value: Json, dumped: Json -> nat): (n: nat)
    ensures n >= 1 && n >= dumped(value) && (n == 1 || n == dumped(value))
  {
    if dumped(value) < 1 then 1 else dumped(value)
  }

  /** The value whose size counts for `key` once the first top-level places and nested objects were read: the last one found. */
  function Counted(payload: Fields, key: string, tops: nat, nests: nat): Json
    requires tops <= |TOP| && nests <= |NESTS|
  {
    if nests > 0 then Overlaid(Counted(payload, key, tops, nests - 1), Nest(payload, NESTS[nests - 1]), key)
    else if key in TOP[..tops] && key in payload then payload[key]
    else Null
  }

  /**
   With everything read: the child of the last nest that has one which is not
   null, else the top-level value.
   */
  lemma {:induction false} CountedIsTheLast(payload: Fields, key: string, n: nat)
    requires n <= |NESTS|
    requires forall m :: n <= m < |NESTS| ==> key !in Nest(payload, NESTS[m]) || Nest(payload, NESTS[m])[key] == Null
    requires n > 0 ==> key in Nest(payload, NESTS[n - 1]) && Nest(payload, NESTS[n - 1])[key] != Null
    ensures Counted(payload, key, |TOP|, |NESTS|) ==
      if n > 0 then Nest(payload, NESTS[n - 1])[key]
      else if key in TOP && key in payload then payload[key]
      else Null
  {
    SkippedNests(payload, key, n, |NESTS|);
    assert TOP[..|TOP|] == TOP;
  }

  lemma {:induction false} SkippedNests(payload: Fields, key: string, n: nat, m: nat)
    requires n <= m <= |NESTS|
    requires forall k :: n <= k < m ==> key !in Nest(payload, NESTS[k]) || Nest(payload, NESTS[k])[key] == Null
    ensures Counted(payload, key, |TOP|, m) == Counted(payload, key, |TOP|, n)
  {
    hide TOP, NESTS;
    if n < m {
      SkippedNests(payload, key, n, m - 1);
    }
  }

  /** A child that is present and not null hides what was found before. */
  function Overlaid(before: Json, nest: Fields, key: string): Json {
    if key in nest && nest[key] != Null then nest[key] else before
  }

  /** The weights hold exactly the keys with a counted value, and the size of that value. */
  ghost predicate Weighs(w: Weights, payload: Fields, tops: nat, nests: nat, dumped: Json -> nat)
    requires tops <= |TOP| && nests <= |NESTS|
  {
    && w.Valid()
    && forall k :: if Counted(payload, k, tops, nests) == Null then k !in w.of
                   else k in w.of && w.of[k] == Size(Counted(payload, k, tops, nests), dumped)
  }

  method CollectTop(payload: Fields, dumped: Json -> nat) returns (w: Weights)
    ensures Weighs(w, payload, |TOP|, 0, dumped)
  {
    w := Weights([], map[]);
    for i := 0 to |TOP|
      invariant Weighs(w, payload, i, 0, dumped)
    {
      var key := TOP[i];
      assert forall k :: k in TOP[..i + 1] <==> k in TOP[..i] || k == key;
      assert forall j :: 0 <= j < i ==> TOP[j] != TOP[i];
      if key in payload && payload[key] != Null {
        w := w.Put(key, Size(payload[key], dumped));
      }
    }
  }

  method AddChildren(w: Weights, nest: Fields, children: seq<string>, dumped: Json -> nat) returns (r: Weights)
    requires w.Valid() && Enumerates(children, nest)
    ensures r.Valid()
    ensures forall k :: k in r.of <==> k in w.of || (k in nest && nest[k] != Null)
    ensures forall k :: k in r.of ==> r.of[k] == if k in nest && nest[k] != Null then Size(nest[k], dumped) else w.of[k]
  {
    r := w;
    for i := 0 to |children|
      invariant r.Valid()
      invariant forall k :: k in r.of <==> k in w.of || (k in children[..i] && nest[k] != Null)
      invariant forall k :: k in r.of ==>
        r.of[k] == if k in children[..i] && nest[k] != Null then Size(nest[k], dumped) else w.of[k]
    {
      var child := children[i];
      assert forall k :: k in children[..i + 1] <==> k in children[..i] || k == child;
      if nest[child] != Null {
        r := r.Put(child, Size(nest[child], dumped));
      }
    }
    assert children[..|children|] == children;
  }

  method CollectWeights(payload: Fields, dumped: Json -> nat, order: Fields -> seq<string>) returns (w: Weights)
    requires forall fields :: Enumerates(order(fields), fields)
    ensures Weighs(w, payload, |TOP|, |NESTS|, dumped)
  {
    w := CollectTop(payload, dumped);
    for n := 0 to |NESTS|
      invariant Weighs(w, payload, |TOP|, n, dumped)
    {
      if HasNest(payload, NESTS[n]) {
        var nest := Nest(payload, NESTS[n]);
        assert Enumerates(order(nest), nest);
        w := AddChildren(w, nest, order(nest), dumped);
      }
    }
  }

  /** Keeps the weights of the requested sections, in order. */
  method Restrict(w: Weights, allowed: set<string>) returns (r: Weights)
    requires w.Valid()
    ensures r.Valid()
    ensures forall k :: k in r.of <==> k in w.of && Lower(k) in allowed
    ensures forall k :: k in r.of ==> r.of[k] == w.of[k]
  {
    r := Weights([], map[]);
    for i := 0 to |w.keys|
      invariant r.Valid()
      invariant forall k :: k in r.of <==> k in w.keys[..i] && Lower(k) in allowed
      invariant forall k :: k in r.of ==> k in w.of && r.of[k] == w.of[k]
    {
      var key := w.keys[i];
      assert forall k :: k in w.keys[..i + 1] <==> k in w.keys[..i] || k == key;
      if Lower(key) in allowed {
        r := r.Put(key, w.of[key]);
      }
    }
    assert w.keys[..|w.keys|] == w.keys;
  }

  /** Hands one token each to the favoured sections, in one pass over the ranking. */
  method Apportion(w: seq<nat>, total: nat) returns (floors: seq<int>)
    requires Sum(w) > 0
    ensures floors == Shares(w, total)
  {
    floors := Floors(w, total);
    var remainder := Remainder(w, total);
    var ranking := Ranking(w, total, |w|);
    RemainderIsSmall(w, total);
    FavouredPrecede(w, total);
    ghost var top := Favoured(w, total);
    var k := 0;
    while k < |ranking| && remainder > 0
      invariant 0 <= k <= |top| && remainder == |top| - k
      invariant |floors| == |w|
      invariant forall i :: 0 <= i < |w| ==> floors[i] == Floor(w, total, i) + Extra(top[..k], i)
    {
      var i := ranking[k];
      assert top[k] == i && i !in top[..k];
      assert forall j :: j in top[..k + 1] <==> j in top[..k] || j == i;
      floors := floors[i := floors[i] + 1];
      remainder := remainder - 1;
      k := k + 1;
    }
    assert top[..|top|] == top;
  }

  /** The tokens attributed to each key of `keys`, zero for a dropped one. */
  function Attributed(keys: seq<string>, tokens: map<string, int>): (r: seq<int>)
    ensures |r| == |keys|
  {
    seq(|keys|, i requires 0 <= i < |keys| => if keys[i] in tokens then tokens[keys[i]] else 0)
  }

  function WeightList(w: Weights): (r: seq<nat>)
    requires forall k :: k in w.keys ==> k in w.of
    ensures |r| == |w.keys|
  {
    seq(|w.keys|, i requires 0 <= i < |w.keys| => w.of[w.keys[i]])
  }

  /** The sections that count, with the size of the value that counts for each. */
  method CountedSections(payload: Fields, requested: seq<string>, dumped: Json -> nat, order: Fields -> seq<string>)
    returns (w: Weights)
    requires forall fields :: Enumerates(order(fields), fields)
    ensures w.Valid()
    ensures forall k :: k in w.of <==>
      Counted(payload, k, |TOP|, |NESTS|) != Null && (requested != [] ==> Lower(k) in Allowed(requested))
    ensures forall k :: k in w.of ==> w.of[k] == Size(Counted(payload, k, |TOP|, |NESTS|), dumped)
  {
    w := CollectWeights(payload, dumped, order);
    if requested != [] {
      w := Restrict(w, Allowed(requested));
    }
  }

  /** The largest-remainder shares of a positive total, with the zeros dropped. */
  method Attribute(w: Weights, total: nat) returns (tokens: map<string, int>)
    requires w.Valid() && w.keys != [] && forall k :: k in w.of ==> w.of[k] > 0
    ensures Sum(WeightList(w)) > 0
    ensures Attributed(w.keys, tokens) == Shares(WeightList(w), total)
    ensures Sum(Attributed(w.keys, tokens)) == total
    ensures forall k :: k in tokens ==> k in w.of && tokens[k] > 0
  {
    hide Sum, Shares, Floor, Rest;
    var list := WeightList(w);
    PositiveSum(list);
    var floors := Apportion(list, total);
    SharesSumToTotal(list, total);
    SharesAreNatural(list, total);
    tokens := DropZeros(w.keys, floors);
  }

  lemma SharesAreNatural(w: seq<nat>, total: nat)
    requires Sum(w) > 0
    ensures forall i :: 0 <= i < |w| ==> Shares(w, total)[i] >= 0
  {
  }

  /** A missing payload counts as an empty one. */
  function Present(payload: Option<Fields>): Fields {
    if payload.Some? then payload.value else map[]
  }

  /**
   `estimate_section_tokens`. With a positive total and at least one section that
   counts, `sections` lists those sections and the result is their
   largest-remainder shares, which add up to the total; otherwise it is empty.
   */
  method EstimateSectionTokens(payload: Option<Fields>, completionTokens: int, requested: seq<string>,
                               dumped: Json -> nat, order: Fields -> seq<string>)
    returns (tokens: map<string, int>, sections: Weights)
    requires forall fields :: Enumerates(order(fields), fields)
    ensures sections.Valid()
    ensures forall k :: k in sections.of <==>
      Counted(Present(payload), k, |TOP|, |NESTS|) != Null && (requested != [] ==> Lower(k) in Allowed(requested))
    ensures forall k :: k in sections.of ==> sections.of[k] == Size(Counted(Present(payload), k, |TOP|, |NESTS|), dumped)
    ensures completionTokens <= 0 || sections.keys == [] ==> tokens == map[]
    ensures completionTokens > 0 && sections.keys != [] ==>
      && Sum(WeightList(sections)) > 0
      && Attributed(sections.keys, tokens) == Shares(WeightList(sections), completionTokens)
      && Sum(Attributed(sections.keys, tokens)) == completionTokens
    ensures forall k :: k in tokens ==> k in sections.of && tokens[k] > 0
  {
    hide Sum, Shares;
    sections := CountedSections(Present(payload), requested, dumped, order);
    tokens := map[];
    if completionTokens > 0 && sections.keys != [] {
      tokens := Attribute(sections, completionTokens);
    }
  }

  lemma PositiveSum(w: seq<nat>)
    requires w != [] && forall i :: 0 <= i < |w| ==> w[i] > 0
    ensures Sum(w) > 0
  {
    var ones: seq<int> := seq(|w|, i => 1);
    SumConstant(ones, 1);
    SumMonotone(ones, w);
  }

  method DropZeros(keys: seq<string>, shares: seq<int>) returns (tokens: map<string, int>)
    requires |keys| == |shares| && (forall i, j :: 0 <= i < j < |keys| ==> keys[i] != keys[j])
    requires forall i :: 0 <= i < |shares| ==> shares[i] >= 0
    ensures Attributed(keys, tokens) == shares
    ensures forall k :: k in tokens ==> k in keys && tokens[k] > 0
  {
    tokens := map[];
    for i := 0 to |keys|
      invariant forall j :: 0 <= j < i ==> (if keys[j] in tokens then tokens[keys[j]] else 0) == shares[j]
      invariant forall k :: k in tokens ==> k in keys[..i] && tokens[k] > 0
    {
      if shares[i] > 0 {
        tokens := tokens[keys[i] := shares[i]];
      }
    }
  }
}
