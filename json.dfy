/**
 * A JSON document as Python's `json.loads` leaves it: objects keep their
 * members in text order, `dict.get` sees the last value given for a key and
 * `dict.keys()` lists each key once, at the place it first appeared.
 * Numbers are integers here (floating point is not modelled).
 */
module Json {
  import opened Wrappers
  import opened Text

  datatype Json =
    | JNull
    | JBool(b: bool)
    | JNum(n: int)
    | JStr(s: string)
    | JArr(items: seq<Json>)
    | JObj(members: seq<(string, Json)>)

  /** Python truthiness: `None`, `False`, `0`, `""`, `[]` and `{}` are falsy. */
  predicate Truthy(j: Json) {
    match j
    case JNull => false
    case JBool(b) => b
    case JNum(n) => n != 0
    case JStr(s) => s != ""
    case JArr(items) => items != []
    case JObj(members) => members != []
  }

  /** `type(v).__name__` of the Python value a JSON value parses to. */
  function TypeName(j: Json): string {
    match j
    case JNull => "NoneType"
    case JBool(_) => "bool"
    case JNum(_) => "int"
    case JStr(_) => "str"
    case JArr(_) => "list"
    case JObj(_) => "dict"
  }

  /** The `AttributeError` text of calling `.get` on a value that is not a dict. */
  function NoGet(j: Json): string {
    "'" + TypeName(j) + "' object has no attribute 'get'"
  }

  /** `d.get(k)` on the dict parsed from `members`: the last value given for `k`, if any. */
  function Get(members: seq<(string, Json)>, k: string): (r: Option<Json>)
    ensures r.None? <==> forall i :: 0 <= i < |members| ==> members[i].0 != k
    ensures r.Some? ==> exists i :: 0 <= i < |members| && members[i] == (k, r.value) &&
                                    (forall j :: i < j < |members| ==> members[j].0 != k)
  {
    if |members| == 0 then None
    else
      var last := members[|members| - 1];
      if last.0 == k then Some(last.1)
      else
        var r := Get(members[..|members| - 1], k);
        assert r.Some? ==> exists i :: 0 <= i < |members| - 1 && members[i] == (k, r.value) &&
                                       (forall j :: i < j < |members| ==> members[j].0 != k);
        r
  }

  /** `d.get(k)` where an absent key reads as JSON `null`. */
  function GetOrNull(members: seq<(string, Json)>, k: string): Json {
    Get(members, k).GetOr(JNull)
  }

  /** The keys that occur in `members`, as a set. */
  function KeyNames(members: seq<(string, Json)>): set<string> {
    set m | m in members :: m.0
  }

  /** The position of the first member with key `k`, or `|members|` when there is none. */
  function FirstAt(members: seq<(string, Json)>, k: string): (i: nat)
    ensures i <= |members|
    ensures i < |members| ==> members[i].0 == k
    ensures forall j :: 0 <= j < i ==> members[j].0 != k
  {
    if |members| == 0 then 0
    else if members[0].0 == k then 0
    else 1 + FirstAt(members[1..], k)
  }

  /**
   * `list(d.keys())` for the dict parsed from `members`: each key once, in
   * the order of its first occurrence, since a repeated key keeps its place.
   */
  function Keys(members: seq<(string, Json)>): (ks: seq<string>)
    ensures Distinct(ks)
    ensures forall k :: k in ks <==> k in KeyNames(members)
    ensures forall i, j :: 0 <= i < j < |ks| ==> FirstAt(members, ks[i]) < FirstAt(members, ks[j])
  {
    var ks := KeysAfter(members, []);
    assert [] + ks == ks;
    KeysAfterFirstOrder(members, []);
    ks
  }

  /** The keys `KeysAfter` lists come in the order of their first occurrence. */
  lemma {:induction false} KeysAfterFirstOrder(members: seq<(string, Json)>, seen: seq<string>)
    requires Distinct(seen)
    ensures forall i, j :: 0 <= i < j < |KeysAfter(members, seen)| ==>
      FirstAt(members, KeysAfter(members, seen)[i]) < FirstAt(members, KeysAfter(members, seen)[j])
    ensures forall i :: 0 <= i < |KeysAfter(members, seen)| ==> KeysAfter(members, seen)[i] !in seen
    decreases |members|
  {
    if |members| > 0 {
      var k := members[0].0;
      var seen' := if k in seen then seen else seen + [k];
      var rest := KeysAfter(members[1..], seen');
      KeysAfterFirstOrder(members[1..], seen');
      var ks := KeysAfter(members, seen);
      assert ks == if k in seen then rest else [k] + rest;
      forall x | 0 <= x < |rest| ensures rest[x] != k && rest[x] !in seen {
        assert k in seen' && forall y :: y in seen ==> y in seen';
      }
      FirstOrderCons(members, rest);
    }
  }

  /**
   * Keys listed in the order of their first occurrence in the members after
   * the first one, none of them the first member's key, are in that order in
   * all the members, and stay so behind the first member's key.
   */
  lemma FirstOrderCons(members: seq<(string, Json)>, rest: seq<string>)
    requires |members| > 0
    requires forall x :: 0 <= x < |rest| ==> rest[x] != members[0].0
    requires forall i, j :: 0 <= i < j < |rest| ==> FirstAt(members[1..], rest[i]) < FirstAt(members[1..], rest[j])
    ensures forall i, j :: 0 <= i < j < |rest| ==> FirstAt(members, rest[i]) < FirstAt(members, rest[j])
    ensures var ks := [members[0].0] + rest;
      forall i, j :: 0 <= i < j < |ks| ==> FirstAt(members, ks[i]) < FirstAt(members, ks[j])
  {
    forall x | 0 <= x < |rest| ensures FirstAt(members, rest[x]) == 1 + FirstAt(members[1..], rest[x]) {
    }
    var ks := [members[0].0] + rest;
    forall i, j | 0 <= i < j < |ks| ensures FirstAt(members, ks[i]) < FirstAt(members, ks[j]) {
      assert ks[j] == rest[j - 1];
      if i > 0 {
        assert ks[i] == rest[i - 1];
      }
    }
  }

  /** The keys of `members` not already in `seen`, each once, in first-occurrence order. */
  function KeysAfter(members: seq<(string, Json)>, seen: seq<string>): (ks: seq<string>)
    requires Distinct(seen)
    ensures Distinct(seen + ks)
    ensures forall k :: k in ks <==> k !in seen && k in KeyNames(members)
    decreases |members|
  {
    if |members| == 0 then []
    else
      var k := members[0].0;
      var seen' := if k in seen then seen else seen + [k];
      var rest := KeysAfter(members[1..], seen');
      assert KeyNames(members) == {k} + KeyNames(members[1..]) by {
        assert members == [members[0]] + members[1..];
      }
      if k in seen then rest
      else
        assert seen + ([k] + rest) == seen' + rest;
        [k] + rest
  }

  /** With no repeated key, the keys are the members' keys in order. */
  lemma {:induction false} KeysInOrder(members: seq<(string, Json)>, seen: seq<string>)
    requires Distinct(seen)
    requires forall i :: 0 <= i < |members| ==> members[i].0 !in seen
    requires forall i, j :: 0 <= i < j < |members| ==> members[i].0 != members[j].0
    ensures KeysAfter(members, seen) == seq(|members|, i requires 0 <= i < |members| => members[i].0)
    decreases |members|
  {
    if |members| > 0 {
      KeysInOrder(members[1..], seen + [members[0].0]);
    }
  }
}
