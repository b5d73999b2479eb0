/** Merging regenerated sections into a prior payload, and cutting a payload down to requested sections. */
module PayloadMerge {
  import opened Outcomes
  import opened Text
  import opened Payloads

  /** The children of a nested object a request selects: by name, or all of them by the nest's name. */
  function Selected(payload: Fields, allowed: set<string>, nest: string): Fields {
    map k | k in Nest(payload, nest) && (Lower(k) in allowed || nest in allowed) :: Nest(payload, nest)[k]
  }

  /** The nested object after the merge: the selected children over the prior ones. */
  function Base(prior: Fields, generated: Fields, allowed: set<string>, nest: string): Fields {
    Nest(prior, nest) + Selected(generated, allowed, nest)
  }

  /** The nest is written: it was generated and the merged object is not empty. */
  predicate Writes(prior: Fields, generated: Fields, allowed: set<string>, nest: string) {
    HasNest(generated, nest) && Base(prior, generated, allowed, nest) != map[]
  }

  /** The first of the given nests that is written. */
  function FirstWritten(prior: Fields, generated: Fields, allowed: set<string>, nests: seq<string>): Option<string> {
    if nests == [] then None
    else if Writes(prior, generated, allowed, nests[0]) then Some(nests[0])
    else FirstWritten(prior, generated, allowed, nests[1..])
  }

  function Lookup(payload: Fields, key: string): Option<Json> {
    if key in payload then Some(payload[key]) else None
  }

  const ALIASES: seq<string> := NESTS[1..]

  /** What the merged payload holds under `key`. An absent `feature` is filled from the first alias written. */
  function Entry(prior: Fields, generated: Fields, allowed: set<string>, key: string): Option<Json> {
    if key == "metadata" && key in generated then Some(generated[key])
    else if key in TOP && key in allowed && key in generated then Some(generated[key])
    else if key in NESTS && Writes(prior, generated, allowed, key) then Some(Obj(Base(prior, generated, allowed, key)))
    else if key == "feature" && key !in prior then
      match FirstWritten(prior, generated, allowed, ALIASES)
      case None => None
      case Some(nest) => Some(Obj(Base(prior, generated, allowed, nest)))
    else Lookup(prior, key)
  }

  /** `merged` is the payload with these entries. */
  ghost predicate IsMerge(merged: Fields, prior: Fields, generated: Fields, allowed: set<string>) {
    forall key :: Lookup(merged, key) == Entry(prior, generated, allowed, key)
  }

  /** Entries only depend on keys that are present, so the merge is a finite map. */
  function Merged(prior: Fields, generated: Fields, allowed: set<string>): (merged: Fields)
    ensures IsMerge(merged, prior, generated, allowed)
  {
    map key | key in prior.Keys + generated.Keys + {"feature"} && Entry(prior, generated, allowed, key).Some? ::
      Entry(prior, generated, allowed, key).value
  }

  lemma SameEntriesSamePayload(a: Fields, b: Fields)
    requires forall key :: Lookup(a, key) == Lookup(b, key)
    ensures a == b
  {
    assert forall key :: (key in a <==> Lookup(a, key).Some?) && (key in b <==> Lookup(b, key).Some?);
    forall key | key in a
      ensures a[key] == b[key]
    {
      assert Lookup(a, key) == Lookup(b, key);
    }
  }

  function MergePayload(prior: Fields, generated: Fields, requested: seq<string>): Fields {
    if requested == [] then generated else Merged(prior, generated, Allowed(requested))
  }

  // ---------------------------------------------------------------- the loops

  /** The keys the function treats specially are all different. */
  lemma NamesAreDistinct()
    ensures forall i, j :: 0 <= i < j < |NESTS| ==> NESTS[i] != NESTS[j]
    ensures forall i :: 0 <= i < |NESTS| ==> NESTS[i] !in TOP && NESTS[i] != "metadata"
    ensures forall i :: 0 <= i < |TOP| ==> TOP[i] != "metadata"
    ensures NESTS[0] == "feature" && NESTS == ["feature"] + ALIASES
  {
    assert NESTS[0][0] == 'f' && NESTS[1][0] == 'c' && NESTS[2][0] == 'd' && NESTS[3][0] == 'i';
    assert TOP[0][0] == 't' && TOP[1][1] == 'o' && TOP[1][2] == 'd' && TOP[2][0] == 'e' && TOP[3][2] == 'd';
    assert "metadata"[0] == 'm' && NESTS[1][2] == 'u';
  }

  /** What `key` holds when the selected entries among `keys` lie over the base. */
  function Overlaid(base: Fields, selected: Fields, keys: seq<string>, key: string): Option<Json> {
    if key in keys && key in selected then Some(selected[key]) else Lookup(base, key)
  }

  /** Overlays the selected children of a nest, one after the other. */
  method OverlaySelected(base: Fields, payload: Fields, allowed: set<string>, nest: string, children: seq<string>)
    returns (r: Fields)
    requires Enumerates(children, Nest(payload, nest))
    ensures r == base + Selected(payload, allowed, nest)
  {
    hide Lower;
    var fields := Nest(payload, nest);
    ghost var selected := Selected(payload, allowed, nest);
    r := base;
    for i := 0 to |children|
      invariant forall k :: Lookup(r, k) == Overlaid(base, selected, children[..i], k)
    {
      var child := children[i];
      ghost var before := r;
      if Lower(child) in allowed || nest in allowed {
        r := r[child := fields[child]];
      }
      forall k
        ensures Lookup(r, k) == Overlaid(base, selected, children[..i + 1], k)
      {
        assert Lookup(before, k) == Overlaid(base, selected, children[..i], k);
        assert k in children[..i + 1] <==> k in children[..i] || k == child;
      }
    }
    assert children[..|children|] == children;
    SameEntriesSamePayload(r, base + selected);
  }

  /** The two inner loops: the selected children, then the children named like a section. The second adds nothing. */
  method MergeNest(base: Fields, payload: Fields, allowed: set<string>, nest: string, children: seq<string>)
    returns (r: Fields)
    requires Enumerates(children, Nest(payload, nest))
    requires forall name :: name in allowed ==> Lower(name) == name
    ensures r == base + Selected(payload, allowed, nest)
  {
    var fields := Nest(payload, nest);
    r := OverlaySelected(base, payload, allowed, nest, children);
    var rest := allowed;
    while rest != {}
      invariant rest <= allowed
      invariant r == base + Selected(payload, allowed, nest)
    {
      var section :| section in rest;
      if section in fields {
        assert section in Selected(payload, allowed, nest);
        assert r[section := fields[section]] == r;
        r := r[section := fields[section]];
      }
      rest := rest - {section};
    }
  }

  /** What the outer loop has done after the first `n` nests. */
  function Partial(prior: Fields, generated: Fields, allowed: set<string>, n: nat, key: string): Option<Json>
    requires n <= |NESTS|
  {
    if key in TOP && key in allowed && key in generated then Some(generated[key])
    else if key in NESTS[..n] && Writes(prior, generated, allowed, key) then Some(Obj(Base(prior, generated, allowed, key)))
    else if key == "feature" && key !in prior && n > 0 then
      match FirstWritten(prior, generated, allowed, NESTS[1..n])
      case None => None
      case Some(nest) => Some(Obj(Base(prior, generated, allowed, nest)))
    else Lookup(prior, key)
  }

  function TopEntry(prior: Fields, generated: Fields, allowed: set<string>, i: nat, key: string): Option<Json>
    requires i <= |TOP|
  {
    if key in TOP[..i] && key in allowed && key in generated then Some(generated[key]) else Lookup(prior, key)
  }

  method MergeTop(prior: Fields, generated: Fields, allowed: set<string>) returns (merged: Fields)
    ensures forall key :: Lookup(merged, key) == Partial(prior, generated, allowed, 0, key)
  {
    hide TOP;
    merged := prior;
    for i := 0 to |TOP|
      invariant forall key :: Lookup(merged, key) == TopEntry(prior, generated, allowed, i, key)
    {
      var top := TOP[i];
      assert forall key :: key in TOP[..i + 1] <==> key in TOP[..i] || key == top;
      ghost var before := merged;
      if top in allowed && top in generated {
        merged := merged[top := generated[top]];
      }
      forall key
        ensures Lookup(merged, key) == TopEntry(prior, generated, allowed, i + 1, key)
      {
        assert Lookup(before, key) == TopEntry(prior, generated, allowed, i, key);
      }
    }
    assert TOP[..|TOP|] == TOP;
  }

  lemma {:induction false} FirstWrittenAppend(prior: Fields, generated: Fields, allowed: set<string>,
                                              nests: seq<string>, nest: string)
    ensures FirstWritten(prior, generated, allowed, nests + [nest]) ==
      var before := FirstWritten(prior, generated, allowed, nests);
      if before.Some? then before else if Writes(prior, generated, allowed, nest) then Some(nest) else None
  {
    if nests != [] {
      FirstWrittenAppend(prior, generated, allowed, nests[1..], nest);
      assert (nests + [nest])[1..] == nests[1..] + [nest];
    } else {
      assert nests + [nest] == [nest];
    }
  }

  /** `merge_llm_payload`: without requested sections the generated payload replaces the prior one. */
  method MergeLlmPayload(prior: Option<Fields>, generated: Fields, requested: seq<string>, order: Fields -> seq<string>)
    returns (merged: Fields)
    requires forall fields :: Enumerates(order(fields), fields)
    ensures requested == [] ==> merged == generated
    ensures merged == MergePayload(if prior.Some? then prior.value else map[], generated, requested)
  {
    if requested == [] {
      return generated;
    }
    var allowed := Allowed(requested);
    var before := if prior.Some? then prior.value else map[];
    merged := MergeTop(before, generated, allowed);
    for n := 0 to |NESTS|
      invariant forall key :: Lookup(merged, key) == Partial(before, generated, allowed, n, key)
    {
      merged := MergeStep(before, generated, allowed, n, merged, order);
    }
    if "metadata" in generated {
      merged := merged["metadata" := generated["metadata"]];
    }
    forall key
      ensures Lookup(merged, key) == Entry(before, generated, allowed, key)
    {
      PartialIsEntry(before, generated, allowed, key);
    }
    SameEntriesSamePayload(merged, Merged(before, generated, allowed));
  }

  /** After all nests only `metadata` is missing. */
  lemma PartialIsEntry(prior: Fields, generated: Fields, allowed: set<string>, key: string)
    ensures Entry(prior, generated, allowed, key) ==
      if key == "metadata" && key in generated then Some(generated[key])
      else Partial(prior, generated, allowed, |NESTS|, key)
  {
    assert NESTS[..|NESTS|] == NESTS && NESTS[1..|NESTS|] == ALIASES;
  }

  method MergeStep(prior: Fields, generated: Fields, allowed: set<string>, n: nat, merged: Fields,
                   order: Fields -> seq<string>)
    returns (r: Fields)
    requires n < |NESTS|
    requires forall name :: name in allowed ==> Lower(name) == name
    requires forall fields :: Enumerates(order(fields), fields)
    requires forall key :: Lookup(merged, key) == Partial(prior, generated, allowed, n, key)
    ensures forall key :: Lookup(r, key) == Partial(prior, generated, allowed, n + 1, key)
  {
    hide TOP, NESTS;
    NamesAreDistinct();
    var nest := NESTS[n];
    r := merged;
    assert Lookup(merged, nest) == Lookup(prior, nest);
    if HasNest(generated, nest) {
      assert Enumerates(order(Nest(generated, nest)), Nest(generated, nest));
      var base := MergeNest(Nest(merged, nest), generated, allowed, nest, order(Nest(generated, nest)));
      if base != map[] {
        r := r[nest := Obj(base)];
        if nest != "feature" && "feature" !in r {
          r := r["feature" := Obj(base)];
        }
      }
    }
    forall key
      ensures Lookup(r, key) == Partial(prior, generated, allowed, n + 1, key)
    {
      PartialStep(prior, generated, allowed, n, key);
      assert Lookup(merged, key) == Partial(prior, generated, allowed, n, key);
      assert Lookup(merged, "feature") == Partial(prior, generated, allowed, n, "feature");
    }
  }

  /** How one nest changes the entries: its own, and `feature` when it is still absent. */
  lemma PartialStep(prior: Fields, generated: Fields, allowed: set<string>, n: nat, key: string)
    requires n < |NESTS|
    ensures
      var nest := NESTS[n];
      Partial(prior, generated, allowed, n + 1, key) ==
      if Writes(prior, generated, allowed, nest)
         && (key == nest || (key == "feature" && Partial(prior, generated, allowed, n, key) == None))
      then Some(Obj(Base(prior, generated, allowed, nest)))
      else Partial(prior, generated, allowed, n, key)
  {
    hide TOP, NESTS;
    NamesAreDistinct();
    var nest := NESTS[n];
    assert key in NESTS[..n + 1] <==> key in NESTS[..n] || key == nest;
    if n > 0 {
      assert NESTS[1..n + 1] == NESTS[1..n] + [nest];
      FirstWrittenAppend(prior, generated, allowed, NESTS[1..n], nest);
    } else {
      assert NESTS[1..1] == [];
    }
  }

  // ---------------------------------------------------------------- the laws of the merge

  /** The children a first alias would lend to an absent `feature`. */
  function Fill(prior: Fields, generated: Fields, allowed: set<string>): Option<Fields> {
    match FirstWritten(prior, generated, allowed, ALIASES)
    case None => None
    case Some(nest) => Some(Base(prior, generated, allowed, nest))
  }

  /** Selecting twice selects what either request selects. */
  lemma BaseOfUnion(prior: Fields, generated: Fields, a: set<string>, b: set<string>, nest: string)
    ensures Base(prior, generated, a, nest) + Selected(generated, b, nest) == Base(prior, generated, a + b, nest)
  {
  }

  /** What a nest holds after a merge, when it is not a filled `feature`. */
  lemma NestOfMerged(prior: Fields, generated: Fields, allowed: set<string>, nest: string)
    requires nest in NESTS && (nest == "feature" ==> "feature" in prior)
    ensures Nest(Merged(prior, generated, allowed), nest) ==
      if Writes(prior, generated, allowed, nest) then Base(prior, generated, allowed, nest) else Nest(prior, nest)
  {
    hide TOP, NESTS;
    NamesAreDistinct();
    assert Lookup(Merged(prior, generated, allowed), nest) == Entry(prior, generated, allowed, nest);
  }

  /** A second merge from the same payload builds each nest as one merge of both requests does. */
  lemma NestsCompose(prior: Fields, generated: Fields, a: set<string>, b: set<string>, nest: string)
    requires nest in NESTS && (nest == "feature" ==> "feature" in prior)
    ensures
      var once := Merged(prior, generated, a);
      && Base(once, generated, b, nest) == Base(prior, generated, a + b, nest)
      && Writes(once, generated, b, nest) == Writes(prior, generated, a + b, nest)
  {
    hide TOP, NESTS, Merged;
    NestOfMerged(prior, generated, a, nest);
    BaseOfUnion(prior, generated, a, b, nest);
    if !HasNest(generated, nest) {
      assert Selected(generated, a, nest) == map[] && Selected(generated, b, nest) == map[];
    }
  }

  lemma {:induction false} FirstWrittenComposes(prior: Fields, generated: Fields, a: set<string>,
                                                b: set<string>, nests: seq<string>)
    requires forall nest :: nest in nests ==> nest in NESTS && nest != "feature"
    ensures
      var once := Merged(prior, generated, a);
      && FirstWritten(once, generated, b, nests) == FirstWritten(prior, generated, a + b, nests)
      && forall nest :: nest in nests ==> Base(once, generated, b, nest) == Base(prior, generated, a + b, nest)
  {
    hide NESTS, Merged;
    if nests != [] {
      NestsCompose(prior, generated, a, b, nests[0]);
      FirstWrittenComposes(prior, generated, a, b, nests[1..]);
    }
  }

  lemma FirstWrittenIsWritten(prior: Fields, generated: Fields, allowed: set<string>, nests: seq<string>)
    ensures
      var first := FirstWritten(prior, generated, allowed, nests);
      first.Some? ==> first.value in nests && Writes(prior, generated, allowed, first.value)
  {
  }

  lemma AliasesAreNotFeature()
    ensures forall nest :: nest in ALIASES ==> nest in NESTS && nest != "feature"
  {
    NamesAreDistinct();
  }

  /** In every entry but `feature`, and in `feature` when the prior has one, two merges are one merge of both requests. */
  lemma EntriesCompose(prior: Fields, generated: Fields, a: set<string>, b: set<string>, key: string)
    requires key == "feature" ==> "feature" in prior
    ensures Entry(Merged(prior, generated, a), generated, b, key) == Entry(prior, generated, a + b, key)
  {
    hide TOP, NESTS, Merged, FirstWritten;
    NamesAreDistinct();
    var once := Merged(prior, generated, a);
    assert Lookup(once, key) == Entry(prior, generated, a, key);
    if key in NESTS {
      NestsCompose(prior, generated, a, b, key);
      BaseOfUnion(prior, generated, a, b, key);
    }
  }

  /** The first of the given nests of which the request selects a generated child. */
  function FirstSelected(generated: Fields, allowed: set<string>, nests: seq<string>): Option<string> {
    if nests == [] then None
    else if Selected(generated, allowed, nests[0]) != map[] then Some(nests[0])
    else FirstSelected(generated, allowed, nests[1..])
  }

  /** The nests in front of `nest`. */
  function Preceding(nests: seq<string>, nest: string): seq<string> {
    if nests == [] || nests[0] == nest then [] else [nests[0]] + Preceding(nests[1..], nest)
  }

  /**
   The second request does not touch what `lender` lends under the first one: it
   selects no child of an earlier nest, and of the lender only children that
   were lent with their generated value. A child of an earlier nest makes that
   nest the lender, so then its selected children have to be the loan itself.
   */
  predicate KeepsLoan(prior: Fields, generated: Fields, a: set<string>, b: set<string>, nests: seq<string>, lender: string) {
    var loan := Base(prior, generated, a, lender);
    match FirstSelected(generated, b, Preceding(nests, lender))
    case None => forall k :: k in Selected(generated, b, lender) ==> k in loan && loan[k] == Selected(generated, b, lender)[k]
    case Some(earlier) => Selected(generated, b, earlier) == loan
  }

  /**
   When two steps show in an absent `feature`: never if the first request selects
   a generated child of it or makes no alias written.
   */
  predicate FeatureComposes(prior: Fields, generated: Fields, a: set<string>, b: set<string>) {
    || "feature" in prior
    || Selected(generated, a, "feature") != map[]
    || match FirstWritten(prior, generated, a, ALIASES)
       case None => true
       case Some(lender) =>
         if Selected(generated, b, "feature") != map[]
         then Base(prior, generated, a, lender).Keys <= Selected(generated, b, "feature").Keys
         else KeepsLoan(prior, generated, a, b, ALIASES, lender)
  }

  lemma LendersAreWritten(prior: Fields, generated: Fields, a: set<string>, b: set<string>, nest: string)
    ensures Writes(prior, generated, a, nest) ==> Writes(prior, generated, a + b, nest)
    ensures !Writes(prior, generated, a, nest) ==>
      && Writes(prior, generated, a + b, nest) == (Selected(generated, b, nest) != map[])
      && (Selected(generated, b, nest) != map[] ==> Base(prior, generated, a + b, nest) == Selected(generated, b, nest))
  {
    BaseOfUnion(prior, generated, a, b, nest);
    if !HasNest(generated, nest) {
      assert Selected(generated, b, nest) == map[];
    } else if !Writes(prior, generated, a, nest) {
      assert map[] + Selected(generated, b, nest) == Selected(generated, b, nest);
    } else {
      var k :| k in Base(prior, generated, a, nest);
      assert k in Base(prior, generated, a + b, nest);
    }
  }

  /** Adding selected children to a loan leaves it as it is exactly when it has them already. */
  lemma NothingAdded(loan: Fields, selected: Fields)
    ensures loan + selected == loan <==> forall k :: k in selected ==> k in loan && loan[k] == selected[k]
  {
    if loan + selected == loan {
      assert forall k :: k in selected ==> k in loan + selected && (loan + selected)[k] == selected[k];
    }
  }

  /** What both requests together lend is what the first lends, exactly when the second keeps the loan. */
  lemma {:induction false} LoanIsKeptExactlyWhen(prior: Fields, generated: Fields, a: set<string>, b: set<string>,
                                                 nests: seq<string>, lender: string)
    requires FirstWritten(prior, generated, a, nests) == Some(lender)
    ensures
      var together := FirstWritten(prior, generated, a + b, nests);
      && together.Some?
      && (Base(prior, generated, a + b, together.value) == Base(prior, generated, a, lender)
          <==> KeepsLoan(prior, generated, a, b, nests, lender))
  {
    hide Base, Selected, Writes;
    LendersAreWritten(prior, generated, a, b, nests[0]);
    if nests[0] == lender {
      assert Writes(prior, generated, a, lender) by {
        FirstWrittenIsWritten(prior, generated, a, nests);
      }
      BaseOfUnion(prior, generated, a, b, lender);
      NothingAdded(Base(prior, generated, a, lender), Selected(generated, b, lender));
    } else {
      assert Preceding(nests, lender)[1..] == Preceding(nests[1..], lender);
      if Selected(generated, b, nests[0]) == map[] {
        LoanIsKeptExactlyWhen(prior, generated, a, b, nests[1..], lender);
      }
    }
  }

  /** What an absent `feature` becomes: the selected children of the generated one, else the loan of the first alias. */
  lemma AbsentFeature(prior: Fields, generated: Fields, allowed: set<string>)
    requires "feature" !in prior
    ensures Entry(prior, generated, allowed, "feature") ==
      var selected := Selected(generated, allowed, "feature");
      if selected != map[] then Some(Obj(selected))
      else if Fill(prior, generated, allowed).Some? then Some(Obj(Fill(prior, generated, allowed).value))
      else None
    ensures Fill(prior, generated, allowed).Some? ==> Fill(prior, generated, allowed).value != map[]
  {
    hide TOP, NESTS, FirstWritten;
    NamesAreDistinct();
    FirstWrittenIsWritten(prior, generated, allowed, ALIASES);
    assert Nest(prior, "feature") == map[];
    assert Base(prior, generated, allowed, "feature") == Selected(generated, allowed, "feature");
    if !HasNest(generated, "feature") {
      assert Selected(generated, allowed, "feature") == map[];
    }
  }

  /** Loans compose although `feature` itself may not. */
  lemma FillComposes(prior: Fields, generated: Fields, a: set<string>, b: set<string>)
    ensures Fill(Merged(prior, generated, a), generated, b) == Fill(prior, generated, a + b)
  {
    hide TOP, NESTS, Merged, FirstWritten;
    AliasesAreNotFeature();
    FirstWrittenComposes(prior, generated, a, b, ALIASES);
    FirstWrittenIsWritten(prior, generated, a + b, ALIASES);
  }

  /** A `feature` with content takes the selected children of the generated one. */
  lemma PresentFeature(prior: Fields, generated: Fields, allowed: set<string>)
    requires Nest(prior, "feature") != map[]
    ensures Entry(prior, generated, allowed, "feature") == Some(Obj(Nest(prior, "feature") + Selected(generated, allowed, "feature")))
  {
    hide TOP, NESTS, FirstWritten;
    NamesAreDistinct();
    if !HasNest(generated, "feature") {
      assert Selected(generated, allowed, "feature") == map[];
      assert Nest(prior, "feature") + map[] == Nest(prior, "feature");
    }
  }

  /** The same for a prior without `feature`: what the first step lends is `once["feature"]`. */
  lemma AbsentFeatureComposesExactlyWhen(prior: Fields, generated: Fields, a: set<string>, b: set<string>)
    requires "feature" !in prior
    ensures Entry(Merged(prior, generated, a), generated, b, "feature") == Entry(prior, generated, a + b, "feature")
      <==> FeatureComposes(prior, generated, a, b)
  {
    hide TOP, NESTS, ALIASES, Merged, FirstWritten, Fill, Entry, Selected, Base, KeepsLoan;
    var once := Merged(prior, generated, a);
    var sa, sb := Selected(generated, a, "feature"), Selected(generated, b, "feature");
    assert Lookup(once, "feature") == Entry(prior, generated, a, "feature");
    AbsentFeature(prior, generated, a);
    AbsentFeature(prior, generated, a + b);
    FillComposes(prior, generated, a, b);
    SelectedOfUnion(generated, a, b, "feature");
    if sa != map[] {
      PresentFeature(once, generated, b);
    } else if Fill(prior, generated, a).Some? {
      var lender := LoanDecides(prior, generated, a, b);
      PresentFeature(once, generated, b);
      assert sa + sb == sb;
      KeysWithin(Nest(once, "feature"), sb);
      assert Nest(once, "feature") + map[] == Nest(once, "feature");
    } else {
      assert FirstWritten(prior, generated, a, ALIASES) == None by {
        FillIsLoan(prior, generated, a);
      }
      AbsentFeature(once, generated, b);
      assert sa + sb == sb;
    }
  }

  lemma FillIsLoan(prior: Fields, generated: Fields, allowed: set<string>)
    ensures
      var lender := FirstWritten(prior, generated, allowed, ALIASES);
      Fill(prior, generated, allowed) == if lender.None? then None else Some(Base(prior, generated, allowed, lender.value))
  {
  }

  lemma LoanDecides(prior: Fields, generated: Fields, a: set<string>, b: set<string>) returns (lender: string)
    requires Fill(prior, generated, a).Some?
    ensures FirstWritten(prior, generated, a, ALIASES) == Some(lender)
    ensures Fill(prior, generated, a) == Some(Base(prior, generated, a, lender))
    ensures Fill(prior, generated, a + b) == Fill(prior, generated, a) <==> KeepsLoan(prior, generated, a, b, ALIASES, lender)
  {
    hide Fill, FirstWritten, Base, KeepsLoan, ALIASES;
    FillIsLoan(prior, generated, a);
    FillIsLoan(prior, generated, a + b);
    lender := FirstWritten(prior, generated, a, ALIASES).value;
    LoanIsKeptExactlyWhen(prior, generated, a, b, ALIASES, lender);
  }

  lemma SelectedOfUnion(generated: Fields, a: set<string>, b: set<string>, nest: string)
    ensures Selected(generated, a + b, nest) == Selected(generated, a, nest) + Selected(generated, b, nest)
  {
  }

  lemma FeatureComposesExactlyWhen(prior: Fields, generated: Fields, a: set<string>, b: set<string>)
    ensures Entry(Merged(prior, generated, a), generated, b, "feature") == Entry(prior, generated, a + b, "feature")
      <==> FeatureComposes(prior, generated, a, b)
  {
    hide Merged, Entry, Fill, Selected;
    if "feature" in prior {
      EntriesCompose(prior, generated, a, b, "feature");
    } else {
      AbsentFeatureComposesExactlyWhen(prior, generated, a, b);
    }
  }

  /** Overwriting leaves nothing of the old map exactly when its keys are all overwritten. */
  lemma KeysWithin(before: Fields, overlay: Fields)
    ensures before + overlay == overlay <==> before.Keys <= overlay.Keys
  {
    if before.Keys <= overlay.Keys {
      assert before + overlay == overlay;
    } else {
      var k :| k in before && k !in overlay;
      assert k in before + overlay;
    }
  }

  /**
   Regenerating section by section: merging two requests one after the other
   from one generated payload gives what merging them together gives, exactly
   when the `feature` entry composes, which it does whenever the prior has one.
   */
  lemma {:induction false} MergesCompose(prior: Fields, generated: Fields, a: seq<string>, b: seq<string>)
    requires a != [] && b != []
    ensures MergePayload(MergePayload(prior, generated, a), generated, b) == MergePayload(prior, generated, a + b)
      <==> FeatureComposes(prior, generated, Allowed(a), Allowed(b))
    ensures forall key :: key != "feature" ==>
      Lookup(MergePayload(MergePayload(prior, generated, a), generated, b), key) == Lookup(MergePayload(prior, generated, a + b), key)
  {
    hide Merged, Entry, FeatureComposes, Allowed, NESTS, TOP;
    AllowedOfConcat(a, b);
    var sa, sb := Allowed(a), Allowed(b);
    var twice, once := Merged(Merged(prior, generated, sa), generated, sb), Merged(prior, generated, sa + sb);
    forall key | key != "feature"
      ensures Lookup(twice, key) == Lookup(once, key)
    {
      EntriesCompose(prior, generated, sa, sb, key);
    }
    FeatureComposesExactlyWhen(prior, generated, sa, sb);
    assert Lookup(twice, "feature") == Lookup(once, "feature") <==> FeatureComposes(prior, generated, sa, sb);
    if Lookup(twice, "feature") == Lookup(once, "feature") {
      SameEntriesSamePayload(twice, once);
    }
  }

  const LENDER: Fields := map["course" := Obj(map["a" := Leaf("1"), "b" := Leaf("2")])]

  lemma LoanOf(allowed: set<string>)
    requires "a" in allowed && "course" !in allowed
    ensures FirstWritten(map[], LENDER, allowed, ALIASES) == Some("course") && Preceding(ALIASES, "course") == []
    ensures Base(map[], LENDER, allowed, "course") == Selected(LENDER, allowed, "course")
    ensures "b" in Selected(LENDER, allowed, "course") <==> "b" in allowed
  {
    LoanSelects(allowed);
    assert HasNest(LENDER, "course") && Nest(map[], "course") == map[];
    assert ALIASES[0] == "course";
    hide LENDER, Selected, NESTS, ALIASES;
    var selected := Selected(LENDER, allowed, "course");
    assert map[] + selected == selected;
  }

  lemma LoanSelects(allowed: set<string>)
    requires "a" in allowed && "course" !in allowed
    ensures "a" in Selected(LENDER, allowed, "course")
    ensures "b" in Selected(LENDER, allowed, "course") <==> "b" in allowed
  {
    assert Lower("a") == "a" && Lower("b") == "b";
    hide Lower;
  }

  lemma NormalisedLetter(c: char)
    requires 'a' <= c <= 'z'
    ensures Normalised([c]) == [c]
  {
    hide Trim;
    assert Trim([c], IsSpace) == [c] by {
      TrimKeepsTrimmed([c], IsSpace);
    }
  }

  lemma AllowedOfOne(name: string)
    ensures Allowed([name]) == {Normalised(name)}
  {
    hide Normalised;
    assert name in [name];
  }

  lemma NothingLentByFeature(allowed: set<string>)
    ensures Selected(LENDER, allowed, "feature") == map[]
  {
    assert "course"[0] != "feature"[0];
  }

  lemma LoanDoesNotCompose()
    ensures !FeatureComposes(map[], LENDER, {"a"}, {"b"})
  {
    assert "b" in Selected(LENDER, {"b"}, "course") by {
      assert Lower("b") == "b";
    }
    assert "course" !in {"a"};
    hide NESTS, TOP, ALIASES, Selected, Base, LENDER;
    LoanOf({"a"});
    NothingLentByFeature({"a"});
    NothingLentByFeature({"b"});
  }

  /** Without a prior `feature`, the loan of the first step is not refreshed by the second. */
  lemma LoanGoesStale()
    ensures MergePayload(MergePayload(map[], LENDER, ["a"]), LENDER, ["b"]) != MergePayload(map[], LENDER, ["a"] + ["b"])
  {
    hide *;
    NormalisedLetter('a');
    NormalisedLetter('b');
    AllowedOfOne("a");
    AllowedOfOne("b");
    LoanDoesNotCompose();
    MergesCompose(map[], LENDER, ["a"], ["b"]);
  }

  /** Merging the same request again changes nothing, whatever the prior. */
  lemma {:induction false} MergeIsIdempotent(prior: Fields, generated: Fields, requested: seq<string>)
    ensures
      var once := MergePayload(prior, generated, requested);
      MergePayload(once, generated, requested) == once
  {
    if requested != [] {
      var allowed := Allowed(requested);
      hide Merged, Entry, Allowed, Selected, NESTS, TOP, ALIASES, FirstWritten, KeepsLoan, Base;
      MergesCompose(prior, generated, requested, requested);
      AllowedOfConcat(requested, requested);
      assert allowed + allowed == allowed;
      if lender :| FirstWritten(prior, generated, allowed, ALIASES) == Some(lender) {
        LoanIsKeptExactlyWhen(prior, generated, allowed, allowed, ALIASES, lender);
      }
    }
  }

  /** A child the request does not name keeps its prior value; a generated child it names takes the generated one. */
  lemma {:induction false} ChildrenAfterMerge(prior: Fields, generated: Fields, requested: seq<string>,
                                              nest: string, child: string)
    requires requested != [] && nest in NESTS && (nest == "feature" ==> "feature" in prior)
    ensures
      var allowed := Allowed(requested);
      var named := Lower(child) in allowed || nest in allowed;
      Lookup(Nest(MergePayload(prior, generated, requested), nest), child) ==
      Lookup(Nest(if named && child in Nest(generated, nest) then generated else prior, nest), child)
  {
    hide TOP, NESTS, Merged, Allowed;
    NestOfMerged(prior, generated, Allowed(requested), nest);
    if !HasNest(generated, nest) {
      assert Nest(generated, nest) == map[];
    }
  }

  /** A top-level entry that is neither requested nor a nest nor `metadata` is the prior one. */
  lemma UnrequestedEntriesSurvive(prior: Fields, generated: Fields, requested: seq<string>, key: string)
    requires requested != [] && key !in NESTS && key != "metadata"
    requires key !in TOP || key !in Allowed(requested)
    ensures Lookup(MergePayload(prior, generated, requested), key) == Lookup(prior, key)
  {
    hide TOP, Allowed;
    assert "feature" in NESTS;
    assert Lookup(Merged(prior, generated, Allowed(requested)), key) == Entry(prior, generated, Allowed(requested), key);
  }

  /** A requested top-level entry takes the generated value, if there is one; so does `metadata`, requested or not. */
  lemma GeneratedEntriesWin(prior: Fields, generated: Fields, requested: seq<string>, section: string)
    requires requested != [] && section in requested
    ensures
      var key := Lower(Strip(section));
      key in TOP && key in generated ==> Lookup(MergePayload(prior, generated, requested), key) == Some(generated[key])
    ensures
      Lookup(MergePayload(prior, generated, requested), "metadata") ==
      if "metadata" in generated then Some(generated["metadata"]) else Lookup(prior, "metadata")
  {
    var key := Normalised(section);
    hide TOP, NESTS, Strip, Lower, Entry;
    MergedEntry(prior, generated, Allowed(requested), key);
    MergedEntry(prior, generated, Allowed(requested), "metadata");
  }

  lemma MergedEntry(prior: Fields, generated: Fields, allowed: set<string>, key: string)
    ensures key in TOP && key in allowed && key in generated ==>
      Lookup(Merged(prior, generated, allowed), key) == Some(generated[key])
    ensures key == "metadata" ==>
      Lookup(Merged(prior, generated, allowed), key) == if key in generated then Some(generated[key]) else Lookup(prior, key)
  {
    hide TOP, NESTS;
    NamesAreDistinct();
    assert Lookup(Merged(prior, generated, allowed), key) == Entry(prior, generated, allowed, key);
  }

  /**
   An absent `feature` of which no generated child is selected becomes a copy of
   the first generated alias that has content after the merge; without one it
   stays absent.
   */
  lemma FeatureIsBorrowed(prior: Fields, generated: Fields, requested: seq<string>, i: nat)
    requires requested != [] && "feature" !in prior && Selected(generated, Allowed(requested), "feature") == map[]
    requires i <= |ALIASES|
    requires
      var merged := MergePayload(prior, generated, requested);
      && (forall j :: 0 <= j < i ==> !HasNest(generated, ALIASES[j]) || Nest(merged, ALIASES[j]) == map[])
      && (i < |ALIASES| ==> HasNest(generated, ALIASES[i]) && Nest(merged, ALIASES[i]) != map[])
    ensures
      var merged := MergePayload(prior, generated, requested);
      Lookup(merged, "feature") == if i < |ALIASES| then Lookup(merged, ALIASES[i]) else None
  {
    var allowed := Allowed(requested);
    hide TOP, NESTS, ALIASES, Merged, FirstWritten, Selected, Entry, Base;
    AliasesAreNotFeature();
    forall nest | nest in ALIASES
      ensures HasNest(generated, nest) && Nest(Merged(prior, generated, allowed), nest) != map[] <==>
              Writes(prior, generated, allowed, nest)
      ensures Writes(prior, generated, allowed, nest) ==>
              Lookup(Merged(prior, generated, allowed), nest) == Some(Obj(Base(prior, generated, allowed, nest)))
    {
      AliasAfterMerge(prior, generated, allowed, nest);
    }
    FirstWrittenAt(prior, generated, allowed, ALIASES, i);
    AbsentFeature(prior, generated, allowed);
    FillIsLoan(prior, generated, allowed);
    assert Lookup(Merged(prior, generated, allowed), "feature") == Entry(prior, generated, allowed, "feature");
  }

  lemma AliasAfterMerge(prior: Fields, generated: Fields, allowed: set<string>, nest: string)
    requires nest in NESTS && nest != "feature"
    ensures
      HasNest(generated, nest) && Nest(Merged(prior, generated, allowed), nest) != map[] <==> Writes(prior, generated, allowed, nest)
    ensures Writes(prior, generated, allowed, nest) ==>
      Lookup(Merged(prior, generated, allowed), nest) == Some(Obj(Base(prior, generated, allowed, nest)))
  {
    hide TOP, NESTS;
    NamesAreDistinct();
    NestOfMerged(prior, generated, allowed, nest);
    assert Lookup(Merged(prior, generated, allowed), nest) == Entry(prior, generated, allowed, nest);
    if !Writes(prior, generated, allowed, nest) && HasNest(generated, nest) {
      assert Base(prior, generated, allowed, nest) == map[];
      assert forall k :: k in Nest(prior, nest) ==> k in Base(prior, generated, allowed, nest);
    }
  }

  lemma {:induction false} FirstWrittenAt(prior: Fields, generated: Fields, allowed: set<string>, nests: seq<string>, i: nat)
    requires i <= |nests| && forall j :: 0 <= j < i ==> !Writes(prior, generated, allowed, nests[j])
    requires i < |nests| ==> Writes(prior, generated, allowed, nests[i])
    ensures FirstWritten(prior, generated, allowed, nests) == if i < |nests| then Some(nests[i]) else None
  {
    if i > 0 {
      FirstWrittenAt(prior, generated, allowed, nests[1..], i - 1);
    }
  }

  // ---------------------------------------------------------------- cutting a payload down

  function FilteredEntry(payload: Fields, allowed: set<string>, key: string): Option<Json> {
    if key == "metadata" then Lookup(payload, key)
    else if key in TOP && key in allowed then Lookup(payload, key)
    else if key in NESTS && Selected(payload, allowed, key) != map[] then Some(Obj(Selected(payload, allowed, key)))
    else None
  }

  function Filtered(payload: Fields, allowed: set<string>): (r: Fields)
    ensures forall key :: Lookup(r, key) == FilteredEntry(payload, allowed, key)
  {
    map key | key in payload && FilteredEntry(payload, allowed, key).Some? :: FilteredEntry(payload, allowed, key).value
  }

  /** What the loops of the filter have done after `i` top-level keys and `n` nests. */
  function FilterPartial(payload: Fields, allowed: set<string>, i: nat, n: nat, key: string): Option<Json>
    requires i <= |TOP| && n <= |NESTS|
  {
    if key in TOP[..i] && key in allowed then Lookup(payload, key)
    else if key in NESTS[..n] && Selected(payload, allowed, key) != map[] then Some(Obj(Selected(payload, allowed, key)))
    else None
  }

  /** `filter_payload_to_sections`. */
  method FilterPayload(payload: Option<Fields>, requested: seq<string>, order: Fields -> seq<string>)
    returns (r: Fields)
    requires forall fields :: Enumerates(order(fields), fields)
    ensures payload == None ==> r == map[]
    ensures payload.Some? ==> r == if requested == [] then payload.value else Filtered(payload.value, Allowed(requested))
  {
    r := map[];
    if payload == None || payload.value == map[] {
      return;
    }
    if requested == [] {
      return payload.value;
    }
    var allowed := Allowed(requested);
    for i := 0 to |TOP|
      invariant forall key :: Lookup(r, key) == FilterPartial(payload.value, allowed, i, 0, key)
    {
      r := FilterTop(payload.value, allowed, i, r);
    }
    for n := 0 to |NESTS|
      invariant forall key :: Lookup(r, key) == FilterPartial(payload.value, allowed, |TOP|, n, key)
    {
      r := FilterNest(payload.value, allowed, n, r, order);
    }
    if "metadata" in payload.value {
      r := r["metadata" := payload.value["metadata"]];
    }
    forall key
      ensures Lookup(r, key) == FilteredEntry(payload.value, allowed, key)
    {
      FilterPartialIsEntry(payload.value, allowed, key);
    }
    SameEntriesSamePayload(r, Filtered(payload.value, allowed));
  }

  /** After all keys only `metadata` is missing. */
  lemma FilterPartialIsEntry(payload: Fields, allowed: set<string>, key: string)
    ensures FilteredEntry(payload, allowed, key) ==
      if key == "metadata" && key in payload then Some(payload[key])
      else FilterPartial(payload, allowed, |TOP|, |NESTS|, key)
  {
    hide TOP, NESTS;
    NamesAreDistinct();
    assert TOP[..|TOP|] == TOP && NESTS[..|NESTS|] == NESTS;
  }

  method FilterTop(payload: Fields, allowed: set<string>, i: nat, before: Fields) returns (r: Fields)
    requires i < |TOP| && forall key :: Lookup(before, key) == FilterPartial(payload, allowed, i, 0, key)
    ensures forall key :: Lookup(r, key) == FilterPartial(payload, allowed, i + 1, 0, key)
  {
    hide TOP, NESTS;
    var top := TOP[i];
    r := if top in allowed && top in payload then before[top := payload[top]] else before;
    forall key
      ensures Lookup(r, key) == FilterPartial(payload, allowed, i + 1, 0, key)
    {
      assert Lookup(before, key) == FilterPartial(payload, allowed, i, 0, key);
      assert key in TOP[..i + 1] <==> key in TOP[..i] || key == top;
    }
  }

  method FilterNest(payload: Fields, allowed: set<string>, n: nat, before: Fields, order: Fields -> seq<string>)
    returns (r: Fields)
    requires forall fields :: Enumerates(order(fields), fields)
    requires n < |NESTS| && forall key :: Lookup(before, key) == FilterPartial(payload, allowed, |TOP|, n, key)
    ensures forall key :: Lookup(r, key) == FilterPartial(payload, allowed, |TOP|, n + 1, key)
  {
    hide TOP, NESTS;
    NamesAreDistinct();
    var nest := NESTS[n];
    r := before;
    if HasNest(payload, nest) {
      var children := SelectChildren(payload, allowed, nest, order);
      if children != map[] {
        r := r[nest := Obj(children)];
      }
    } else {
      assert Selected(payload, allowed, nest) == map[];
    }
    forall key
      ensures Lookup(r, key) == FilterPartial(payload, allowed, |TOP|, n + 1, key)
    {
      assert Lookup(before, key) == FilterPartial(payload, allowed, |TOP|, n, key);
      assert key in NESTS[..n + 1] <==> key in NESTS[..n] || key == nest;
      assert TOP[..|TOP|] == TOP;
    }
  }

  method SelectChildren(payload: Fields, allowed: set<string>, nest: string, order: Fields -> seq<string>)
    returns (r: Fields)
    requires forall fields :: Enumerates(order(fields), fields)
    ensures r == Selected(payload, allowed, nest)
  {
    var children := order(Nest(payload, nest));
    assert Enumerates(children, Nest(payload, nest));
    r := OverlaySelected(map[], payload, allowed, nest, children);
    assert map[] + Selected(payload, allowed, nest) == Selected(payload, allowed, nest);
  }

  /** Selecting from a filtered payload selects what the request selects from the whole one. */
  lemma SelectedOfFiltered(payload: Fields, allowed: set<string>, nest: string)
    requires nest in NESTS
    ensures Selected(Filtered(payload, allowed), allowed, nest) == Selected(payload, allowed, nest)
    ensures HasNest(Filtered(payload, allowed), nest) <==> Selected(payload, allowed, nest) != map[]
  {
    hide TOP, NESTS, Filtered;
    NamesAreDistinct();
    assert Lookup(Filtered(payload, allowed), nest) == FilteredEntry(payload, allowed, nest);
  }

  /** A cut payload holds the requested top-level entries, the named children of the nests, `metadata`, and nothing else. */
  lemma FilterKeepsExactly(payload: Fields, allowed: set<string>, key: string, child: string)
    ensures
      var cut := Filtered(payload, allowed);
      && (key in TOP ==> Lookup(cut, key) == if key in allowed then Lookup(payload, key) else None)
      && (key == "metadata" ==> Lookup(cut, key) == Lookup(payload, key))
      && (key in NESTS ==>
            Lookup(Nest(cut, key), child) ==
            if Lower(child) in allowed || key in allowed then Lookup(Nest(payload, key), child) else None)
      && (key !in TOP && key !in NESTS && key != "metadata" ==> key !in cut)
  {
    hide TOP, NESTS, Filtered, Lower;
    NamesAreDistinct();
    assert Lookup(Filtered(payload, allowed), key) == FilteredEntry(payload, allowed, key);
    if key in NESTS {
      assert Selected(payload, allowed, key) == map[] ==> child !in Selected(payload, allowed, key);
    }
  }

  lemma FilterIsIdempotent(payload: Fields, allowed: set<string>)
    ensures Filtered(Filtered(payload, allowed), allowed) == Filtered(payload, allowed)
  {
    hide TOP, NESTS, Filtered;
    NamesAreDistinct();
    var once := Filtered(payload, allowed);
    forall key
      ensures Lookup(Filtered(once, allowed), key) == Lookup(once, key)
    {
      assert Lookup(once, key) == FilteredEntry(payload, allowed, key);
      if key in NESTS {
        SelectedOfFiltered(payload, allowed, key);
      }
    }
    SameEntriesSamePayload(Filtered(once, allowed), once);
  }

  /** Cutting the generated payload down first does not change the merge, except for a borrowed `feature`. */
  lemma MergeSeesOnlyRequested(prior: Fields, generated: Fields, allowed: set<string>, key: string)
    requires key == "feature" ==> "feature" in prior || Selected(generated, allowed, "feature") != map[]
    ensures Entry(prior, Filtered(generated, allowed), allowed, key) == Entry(prior, generated, allowed, key)
  {
    hide TOP, NESTS, Filtered, FirstWritten;
    NamesAreDistinct();
    assert Lookup(Filtered(generated, allowed), key) == FilteredEntry(generated, allowed, key);
    if key in NESTS {
      SelectedOfFiltered(generated, allowed, key);
      if Selected(generated, allowed, key) == map[] {
        assert Base(prior, generated, allowed, key) == Nest(prior, key);
      }
    }
  }

  lemma SelectionWrites(prior: Fields, generated: Fields, allowed: set<string>, nest: string)
    requires Selected(generated, allowed, nest) != map[]
    ensures Writes(prior, generated, allowed, nest)
  {
    var k :| k in Selected(generated, allowed, nest);
    assert k in Base(prior, generated, allowed, nest);
  }

  /** What the request selects is written, so a lender stands at or before the first nest it selects from. */
  lemma {:induction false} SelectedIsWritten(prior: Fields, generated: Fields, allowed: set<string>, nests: seq<string>)
    ensures
      var written, selected := FirstWritten(prior, generated, allowed, nests), FirstSelected(generated, allowed, nests);
      && (written.None? ==> selected.None?)
      && (written.Some? && Selected(generated, allowed, written.value) != map[] ==> selected == written)
      && (written.Some? && Selected(generated, allowed, written.value) == map[] ==>
            Base(prior, generated, allowed, written.value) == Nest(prior, written.value))
  {
    if nests != [] {
      if Selected(generated, allowed, nests[0]) != map[] {
        SelectionWrites(prior, generated, allowed, nests[0]);
      }
      SelectedIsWritten(prior, generated, allowed, nests[1..]);
    }
  }

  /** A cut payload writes exactly the nests with selected children, with the same content. */
  lemma {:induction false} CutWritesSelected(prior: Fields, generated: Fields, allowed: set<string>, nests: seq<string>)
    requires forall nest :: nest in nests ==> nest in NESTS
    ensures FirstWritten(prior, Filtered(generated, allowed), allowed, nests) == FirstSelected(generated, allowed, nests)
    ensures forall nest :: nest in nests ==>
      Base(prior, Filtered(generated, allowed), allowed, nest) == Base(prior, generated, allowed, nest)
  {
    hide NESTS, Filtered, Selected;
    if nests != [] {
      SelectedOfFiltered(generated, allowed, nests[0]);
      if Selected(generated, allowed, nests[0]) != map[] {
        SelectionWrites(prior, generated, allowed, nests[0]);
      }
      CutWritesSelected(prior, generated, allowed, nests[1..]);
    }
  }

  /**
   The whole and the cut payload lend the same children: nothing is lent, or the
   lender has selected children, or, by coincidence, the first nest that has some
   comes out with what the prior has under the lender.
   */
  predicate LendsAlike(prior: Fields, generated: Fields, allowed: set<string>) {
    match FirstWritten(prior, generated, allowed, ALIASES)
    case None => true
    case Some(lender) =>
      || Selected(generated, allowed, lender) != map[]
      || match FirstSelected(generated, allowed, ALIASES)
         case None => false
         case Some(next) => Base(prior, generated, allowed, next) == Nest(prior, lender)
  }

  lemma {:induction false} FirstSelectedIsListed(generated: Fields, allowed: set<string>, nests: seq<string>)
    ensures
      var first := FirstSelected(generated, allowed, nests);
      first.Some? ==> first.value in nests
  {
    if nests != [] {
      FirstSelectedIsListed(generated, allowed, nests[1..]);
    }
  }

  lemma LendsAlikeExactlyWhen(prior: Fields, generated: Fields, allowed: set<string>)
    ensures Fill(prior, Filtered(generated, allowed), allowed) == Fill(prior, generated, allowed)
      <==> LendsAlike(prior, generated, allowed)
  {
    hide FirstWritten, FirstSelected, Filtered, Base, Selected, Nest, ALIASES;
    AliasesAreNotFeature();
    FirstSelectedIsListed(generated, allowed, ALIASES);
    CutWritesSelected(prior, generated, allowed, ALIASES);
    SelectedIsWritten(prior, generated, allowed, ALIASES);
  }

  /**
   Merging a filtered payload is merging the whole one, exactly when `feature`
   is not borrowed or the two lend alike.
   */
  lemma {:induction false} FilterThenMerge(prior: Fields, generated: Fields, requested: seq<string>)
    requires requested != []
    ensures
      var allowed := Allowed(requested);
      var cut := Filtered(generated, allowed);
      MergePayload(prior, cut, requested) == MergePayload(prior, generated, requested)
      <==> || "feature" in prior
           || Selected(generated, allowed, "feature") != map[]
           || LendsAlike(prior, generated, allowed)
  {
    hide Allowed, Entry, Filtered, Merged, Fill, TOP, NESTS, LendsAlike;
    var allowed := Allowed(requested);
    var cut := Filtered(generated, allowed);
    var left, right := Merged(prior, cut, allowed), Merged(prior, generated, allowed);
    forall key | key != "feature" || "feature" in prior || Selected(generated, allowed, "feature") != map[]
      ensures Lookup(left, key) == Lookup(right, key)
    {
      MergeSeesOnlyRequested(prior, generated, allowed, key);
    }
    if "feature" !in prior && Selected(generated, allowed, "feature") == map[] {
      BorrowedFeature(prior, generated, allowed);
      LendsAlikeExactlyWhen(prior, generated, allowed);
    }
    if Lookup(left, "feature") == Lookup(right, "feature") {
      SameEntriesSamePayload(left, right);
    }
  }

  lemma BorrowedFeature(prior: Fields, generated: Fields, allowed: set<string>)
    requires "feature" !in prior && Selected(generated, allowed, "feature") == map[]
    ensures
      var cut := Filtered(generated, allowed);
      Lookup(Merged(prior, cut, allowed), "feature") == Lookup(Merged(prior, generated, allowed), "feature")
      <==> Fill(prior, cut, allowed) == Fill(prior, generated, allowed)
  {
    hide Entry, Filtered, Merged, Fill, TOP, NESTS;
    NamesAreDistinct();
    SelectedOfFiltered(generated, allowed, "feature");
    AbsentFeature(prior, Filtered(generated, allowed), allowed);
    AbsentFeature(prior, generated, allowed);
  }

  const OLD_COURSE: Fields := map["course" := Obj(map["x" := Leaf("1")])]
  const NEW_COURSE: Fields := map["course" := Obj(map["y" := Leaf("2")])]

  /** A prior course without `feature`, a generated course and a request for neither: only the whole payload lends. */
  lemma CutPayloadDoesNotLend()
    ensures MergePayload(OLD_COURSE, Filtered(NEW_COURSE, {"z"}), ["z"]) != MergePayload(OLD_COURSE, NEW_COURSE, ["z"])
  {
    hide *;
    NormalisedLetter('z');
    AllowedOfOne("z");
    OldCourseLends();
    NothingRequested();
    FilterThenMerge(OLD_COURSE, NEW_COURSE, ["z"]);
  }

  lemma OldCourseLends()
    ensures "feature" !in OLD_COURSE && Selected(NEW_COURSE, {"z"}, "feature") == map[]
    ensures FirstWritten(OLD_COURSE, NEW_COURSE, {"z"}, ALIASES) == Some("course")
  {
    assert "course"[0] != "feature"[0];
    assert "x" in Base(OLD_COURSE, NEW_COURSE, {"z"}, "course");
    assert ALIASES[0] == "course";
  }

  lemma NothingRequested()
    ensures !LendsAlike(OLD_COURSE, NEW_COURSE, {"z"})
  {
    OldCourseLends();
    forall nest | nest in ALIASES
      ensures Selected(NEW_COURSE, {"z"}, nest) == map[]
    {
      NothingSelected(nest);
    }
    NoneSelected(ALIASES);
    hide ALIASES, FirstWritten, Selected, OLD_COURSE, NEW_COURSE;
  }

  lemma NothingSelected(nest: string)
    requires |nest| > 1
    ensures Selected(NEW_COURSE, {"z"}, nest) == map[]
  {
    assert Lower("y")[0] == 'y';
  }

  lemma {:induction false} NoneSelected(nests: seq<string>)
    requires forall nest :: nest in nests ==> Selected(NEW_COURSE, {"z"}, nest) == map[]
    ensures FirstSelected(NEW_COURSE, {"z"}, nests) == None
  {
    if nests != [] {
      NoneSelected(nests[1..]);
    }
  }

  /** The workflow cuts before it merges: with a `feature` in the prior its steps compose as well. */
  lemma {:induction false} CutMergesCompose(prior: Fields, generated: Fields, a: seq<string>, b: seq<string>)
    requires a != [] && b != [] && "feature" in prior
    ensures
      var once := MergePayload(prior, Filtered(generated, Allowed(a)), a);
      MergePayload(once, Filtered(generated, Allowed(b)), b)
      == MergePayload(prior, Filtered(generated, Allowed(a + b)), a + b)
  {
    hide Allowed, Filtered, Fill, Selected, LendsAlike, TOP, NESTS;
    FilterThenMerge(prior, generated, a);
    FilterThenMerge(prior, generated, a + b);
    var once := MergePayload(prior, generated, a);
    assert "feature" in once by {
      assert Lookup(Merged(prior, generated, Allowed(a)), "feature") == Entry(prior, generated, Allowed(a), "feature");
    }
    hide Merged, Entry;
    FilterThenMerge(once, generated, b);
    MergesCompose(prior, generated, a, b);
  }
}
