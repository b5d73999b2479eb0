/** The unified JSON payload of the AI service and the names its sections are requested by. */
module Payloads {
  import opened Text

  /** A JSON value: an object, `null`, or anything else. */
  datatype Json = Null | Obj(fields: map<string, Json>) | Leaf(text: string)

  type Fields = map<string, Json>

  const TOP: seq<string> := ["teacher", "coder", "evaluator", "code_explainer"]

  const NESTS: seq<string> := ["feature", "course", "dsa_pattern", "interview"]

  /** `payload.get(key)` when it is an object, else the empty object. */
  function Nest(payload: Fields, key: string): Fields {
    if key in payload && payload[key].Obj? then payload[key].fields else map[]
  }

  predicate HasNest(payload: Fields, key: string) {
    key in payload && payload[key].Obj?
  }

  /** Iterating over a dictionary visits every key once; in which order is up to `order`. */
  ghost predicate Enumerates(keys: seq<string>, fields: Fields) {
    && (forall k :: k in keys <==> k in fields)
    && (forall i, j :: 0 <= i < j < |keys| ==> keys[i] != keys[j])
  }

  function Normalised(section: string): string {
    Lower(Strip(section))
  }

  /** The set of normalised section names of a request. */
  function Allowed(requested: seq<string>): (r: set<string>)
    ensures forall s :: s in requested ==> Normalised(s) in r
    ensures forall name :: name in r ==> Lower(name) == name
  {
    var r := set s | s in requested :: Normalised(s);
    assert forall name :: name in r ==> Lower(name) == name by {
      forall name | name in r
        ensures Lower(name) == name
      {
        var s :| s in requested && Normalised(s) == name;
        LowerIsIdempotent(Strip(s));
      }
    }
    r
  }

  /** Nothing is allowed but the names that were requested. */
  lemma AllowedAreRequested(requested: seq<string>, name: string)
    ensures name in Allowed(requested) <==> exists s :: s in requested && Lower(Strip(s)) == name
  {
    hide Strip, Lower;
    if s :| s in requested && Normalised(s) == name {
      assert Lower(Strip(s)) == name;
    }
  }

  /** A section is requested by its name in any case and with any spaces around it. */
  lemma SectionsAreNamedFreely(before: string, section: string, after: string)
    requires section != "" && Trimmed(section, IsSpace)
    requires (forall c :: c in before ==> IsSpace(c)) && (forall c :: c in after ==> IsSpace(c))
    ensures Normalised(before + section + after) == Lower(section)
  {
    StripRemoves(before, section, after);
  }

  lemma AllowedOfConcat(a: seq<string>, b: seq<string>)
    ensures Allowed(a + b) == Allowed(a) + Allowed(b)
  {
  }
}
