/**
 * Request fields and the two required-field checks. A request body is a JSON
 * value; a field is read with Python's `data.get(key)`, which gives null for
 * an absent key, and judged by Python truthiness.
 */
module Validation {

  /** A decoded JSON value (numbers as reals). */
  datatype Json =
    | JNull
    | JBool(b: bool)
    | JNum(n: real)
    | JStr(s: string)
    | JArr(items: seq<Json>)
    | JObj(members: map<string, Json>)

  /** Python truthiness: None, False, 0, "", [] and {} are false. */
  predicate Truthy(v: Json) {
    match v
    case JNull => false
    case JBool(b) => b
    case JNum(n) => n != 0.0
    case JStr(s) => |s| > 0
    case JArr(items) => |items| > 0
    case JObj(members) => |members| > 0
  }

  /** The members of a JSON object body. */
  type Fields = map<string, Json>

  /**
   * `data.get(key)`: the member, or null when the key is absent. So an
   * absent key reads as falsy, and only a member actually present in the
   * body can read as truthy.
   */
  function Get(data: Fields, key: string): (v: Json)
    ensures key !in data ==> !Truthy(v)
    ensures Truthy(v) ==> key in data && data[key] == v
  {
    if key in data then data[key] else JNull
  }

  /** The fields `/predict` requires, in the order it reports them. */
  const PredictRequired: seq<string> := ["State", "District", "Market", "Commodity", "Variety", "Arrival_Date"]

  /** The values `/analysis` requires: the same six plus both prices. */
  const AnalysisRequired: seq<string> := PredictRequired + ["Min_Price", "Max_Price"]

  /** `a` is `b` with some elements dropped, order kept. */
  ghost predicate IsSubsequence(a: seq<string>, b: seq<string>) {
    if a == [] then true
    else if b == [] then false
    else if a[0] == b[0] then IsSubsequence(a[1..], b[1..])
    else IsSubsequence(a, b[1..])
  }

  predicate Distinct(s: seq<string>) {
    forall i, j :: 0 <= i < j < |s| ==> s[i] != s[j]
  }

  /**
   * The list comprehension of `/predict`: the names in `names` whose value
   * is absent, null or otherwise falsy. It reports every such name and no
   * other, in the order of `names`.
   */
  function MissingFields(data: Fields, names: seq<string>): (r: seq<string>)
    ensures forall f :: f in r <==> f in names && !Truthy(Get(data, f))
    ensures IsSubsequence(r, names)
    ensures Distinct(names) ==> Distinct(r)
  {
    if names == [] then []
    else
      var rest := MissingFields(data, names[1..]);
      if !Truthy(Get(data, names[0])) then [names[0]] + rest else rest
  }

  /** `all([...])` over the values of `names`. */
  predicate AllTruthy(data: Fields, names: seq<string>) {
    forall i :: 0 <= i < |names| ==> Truthy(Get(data, names[i]))
  }

  // ---------------------------------------------------------------------
  // Lemmas

  lemma RequiredDistinct()
    ensures Distinct(PredictRequired) && Distinct(AnalysisRequired)
  {
  }

  /** An `all(...)` check passes exactly when no name would be reported missing. */
  lemma {:induction false} NoneMissingIffAllTruthy(data: Fields, names: seq<string>)
    ensures MissingFields(data, names) == [] <==> AllTruthy(data, names)
    decreases |names|
  {
    if names != [] {
      NoneMissingIffAllTruthy(data, names[1..]);
      assert AllTruthy(data, names) <==> Truthy(Get(data, names[0])) && AllTruthy(data, names[1..]) by {
        if Truthy(Get(data, names[0])) && AllTruthy(data, names[1..]) {
          forall i | 0 <= i < |names| ensures Truthy(Get(data, names[i])) {
            if i > 0 { assert names[i] == names[1..][i - 1]; }
          }
        }
      }
    }
  }

  /** `/analysis` rejects strictly more requests than `/predict`. */
  lemma AnalysisCheckIsStricter(data: Fields)
    requires AllTruthy(data, AnalysisRequired)
    ensures MissingFields(data, PredictRequired) == []
  {
    forall i | 0 <= i < |PredictRequired|
      ensures Truthy(Get(data, PredictRequired[i]))
    {
      assert AnalysisRequired[i] == PredictRequired[i];
    }
    NoneMissingIffAllTruthy(data, PredictRequired);
  }

  lemma MissingFieldsCons(data: Fields, name: string, rest: seq<string>)
    ensures MissingFields(data, [name] + rest)
            == (if Truthy(Get(data, name)) then [] else [name]) + MissingFields(data, rest)
  {
    assert ([name] + rest)[1..] == rest;
  }

  /** A request lacking Market and Commodity has both reported, in that order. */
  lemma ReportsBothMissing(data: Fields)
    requires Truthy(Get(data, "State")) && Truthy(Get(data, "District")) && Truthy(Get(data, "Variety"))
    requires Truthy(Get(data, "Arrival_Date"))
    requires "Market" !in data && Get(data, "Commodity") == JStr("")
    ensures MissingFields(data, PredictRequired) == ["Market", "Commodity"]
  {
    var l5: seq<string> := ["Arrival_Date"];
    var l4 := ["Variety"] + l5;
    var l3 := ["Commodity"] + l4;
    var l2 := ["Market"] + l3;
    var l1 := ["District"] + l2;
    assert PredictRequired == ["State"] + l1;
    assert MissingFields(data, l5) == [] by {
      MissingFieldsCons(data, "Arrival_Date", []);
      assert l5 == ["Arrival_Date"] + [];
    }
    assert MissingFields(data, l4) == [] by {
      MissingFieldsCons(data, "Variety", l5);
    }
    assert MissingFields(data, l3) == ["Commodity"] by {
      MissingFieldsCons(data, "Commodity", l4);
    }
    assert MissingFields(data, l2) == ["Market", "Commodity"] by {
      MissingFieldsCons(data, "Market", l3);
    }
    assert MissingFields(data, l1) == ["Market", "Commodity"] by {
      MissingFieldsCons(data, "District", l2);
    }
    MissingFieldsCons(data, "State", l1);
  }
}
