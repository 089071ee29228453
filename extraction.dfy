/**
 * Reading values out of a JSON response by a dotted path, and storing them
 * in a flow context under the names the step's extraction rules give.
 * Python's `None` is `JNull`: a path that leads nowhere yields it.
 */
module Extraction {
  import opened Wrappers
  import opened Dicts
  import opened JsonValues
  import Strings
  import Steps
  import FlowContexts

  /**
   * One path segment applied to a value: a dict is indexed by the segment as
   * a key, a list by the segment read as a decimal index; anything else, a
   * missing key or an index past the end leads nowhere.
   */
  function Segment(current: Json, key: string): (r: Json)
    ensures current.JObj? ==> r == Get(current.fields, key).GetOr(JNull)
    ensures !current.JObj? && !current.JArr? ==> r == JNull
    ensures current.JArr? && !Strings.IsDigits(key) ==> r == JNull
  {
    if current.JObj? then Get(current.fields, key).GetOr(JNull)
    else if current.JArr? && Strings.IsDigits(key) then
      var idx := Strings.DigitsValue(key);
      if idx < |current.items| then current.items[idx] else JNull
    else JNull
  }

  /** The segments applied in turn, stopping at the first that leads nowhere. */
  function Walk(current: Json, keys: seq<string>): Json
    decreases |keys|
  {
    if |keys| == 0 then current
    else
      var next := Segment(current, keys[0]);
      if next == JNull then JNull else Walk(next, keys[1..])
  }

  /** `extract_json_path`: the value at a dotted path; the empty path is the data itself. */
  function JsonPath(data: Json, path: string): (r: Json)
    ensures path == "" ==> r == data
  {
    if path == "" then data else Walk(data, Strings.Split(path, '.'))
  }

  /** `extract_json_path` as the source runs it: one segment per iteration, returning early on a dead end. */
  method ExtractJsonPath(data: Json, path: string) returns (r: Json)
    ensures r == JsonPath(data, path)
  {
    if path == "" {
      return data;
    }
    var keys := Strings.Split(path, '.');
    var current := data;
    var i := 0;
    while i < |keys|
      invariant 0 <= i <= |keys|
      invariant Walk(current, keys[i..]) == Walk(data, keys)
    {
      var key := keys[i];
      assert keys[i..][1..] == keys[i + 1..];
      if current.JObj? {
        current := Get(current.fields, key).GetOr(JNull);
      } else if current.JArr? && Strings.IsDigits(key) {
        var idx := Strings.DigitsValue(key);
        current := if idx < |current.items| then current.items[idx] else JNull;
      } else {
        return JNull;
      }
      if current == JNull {
        return JNull;
      }
      i := i + 1;
    }
    return current;
  }

  /** Following `a` and then `b` is following `a + b`: a dead end stays one. */
  lemma {:induction false} WalkAppend(d: Json, a: seq<string>, b: seq<string>)
    ensures Walk(d, a + b) == Walk(Walk(d, a), b)
    decreases |a|
  {
    if |a| == 0 {
      assert a + b == b;
    } else {
      assert (a + b)[0] == a[0] && (a + b)[1..] == a[1..] + b;
      var next := Segment(d, a[0]);
      if next == JNull {
        assert Walk(d, a) == JNull;
        WalkFromNull(b);
      } else {
        WalkAppend(next, a[1..], b);
      }
    }
  }

  /** Nothing is reached from a dead end. */
  lemma WalkFromNull(keys: seq<string>)
    ensures Walk(JNull, keys) == JNull
  {
  }

  /**
   * A path `p.q` is the path `q` looked up in the value at `p`; when `p`
   * leads nowhere, so does `p.q`.
   */
  lemma PathCompose(data: Json, p: string, q: string)
    requires p != "" && q != ""
    ensures JsonPath(data, p + "." + q) == JsonPath(JsonPath(data, p), q)
    ensures JsonPath(data, p) == JNull ==> JsonPath(data, p + "." + q) == JNull
  {
    Strings.SplitConcat(p, q, '.');
    assert p + "." + q == p + ['.'] + q;
    WalkAppend(data, Strings.Split(p, '.'), Strings.Split(q, '.'));
    if JsonPath(data, p) == JNull {
      WalkFromNull(Strings.Split(q, '.'));
    }
  }

  /**
   * A single segment: a dict yields the key's value (a missing key nothing),
   * a list the element at an all-digit index within its bounds, anything
   * else nothing.
   */
  lemma SingleSegment(data: Json, key: string)
    requires key != "" && '.' !in key
    ensures data.JObj? ==> JsonPath(data, key) == Get(data.fields, key).GetOr(JNull)
    ensures data.JArr? && Strings.IsDigits(key) && Strings.DigitsValue(key) < |data.items| ==>
              JsonPath(data, key) == data.items[Strings.DigitsValue(key)]
    ensures data.JArr? && !(Strings.IsDigits(key) && Strings.DigitsValue(key) < |data.items|) ==>
              JsonPath(data, key) == JNull
    ensures !data.JObj? && !data.JArr? ==> JsonPath(data, key) == JNull
  {
    Strings.SplitNoSep(key, '.');
    var keys := Strings.Split(key, '.');
    assert keys == [key];
    assert keys[1..] == [];
    assert JsonPath(data, key) == Walk(data, [key]) == Segment(data, key);
  }

  /** The variables after applying `rules` in order: each json rule stores its path's value. */
  function Extracted(vars: Dict<Json>, data: Json, rules: seq<Steps.ExtractRule>): Dict<Json> {
    if |rules| == 0 then vars
    else
      var prev := Extracted(vars, data, rules[..|rules| - 1]);
      var rule := rules[|rules| - 1];
      if rule.kind == "json" then Put(prev, rule.variable, JsonPath(data, rule.path)) else prev
  }

  /** The last json rule storing into `k`. */
  function LastJsonRule(rules: seq<Steps.ExtractRule>, k: string): (r: Option<Steps.ExtractRule>)
    ensures r.Some? ==> r.value in rules && r.value.kind == "json" && r.value.variable == k
  {
    if |rules| == 0 then None
    else if rules[|rules| - 1].kind == "json" && rules[|rules| - 1].variable == k then Some(rules[|rules| - 1])
    else LastJsonRule(rules[..|rules| - 1], k)
  }

  /**
   * After extraction a variable holds the value of the last json rule naming
   * it; a variable no json rule names keeps its value (or stays absent).
   */
  lemma {:induction false} ExtractedGet(vars: Dict<Json>, data: Json, rules: seq<Steps.ExtractRule>, k: string)
    ensures Get(Extracted(vars, data, rules), k) ==
      if LastJsonRule(rules, k).Some? then Some(JsonPath(data, LastJsonRule(rules, k).value.path))
      else Get(vars, k)
  {
    if |rules| > 0 {
      var init := rules[..|rules| - 1];
      var rule := rules[|rules| - 1];
      ExtractedGet(vars, data, init, k);
      if rule.kind == "json" {
        GetPut(Extracted(vars, data, init), rule.variable, JsonPath(data, rule.path), k);
      }
    }
  }

  /** `extract_variables`: applies the rules in order to the context's variables. */
  method ExtractVariables(data: Json, rules: seq<Steps.ExtractRule>, context: FlowContexts.FlowContext)
    modifies context
    ensures context.variables == Extracted(old(context.variables), data, rules)
  {
    var i := 0;
    while i < |rules|
      invariant 0 <= i <= |rules|
      invariant context.variables == Extracted(old(context.variables), data, rules[..i])
    {
      var rule := rules[i];
      assert rules[..i + 1][..i] == rules[..i];
      if rule.kind == "json" {
        var value := ExtractJsonPath(data, rule.path);
        context.variables := Put(context.variables, rule.variable, value);
      }
      i := i + 1;
    }
    assert rules[..|rules|] == rules;
  }
}
