/**
 * Template rendering: every `${name}` placeholder (a name of one or more
 * word characters) in a step's URL, headers and body is replaced by the
 * text of the variable of that name. The text is scanned once, left to
 * right; substituted text is never scanned again.
 */
module Templating {
  import opened Wrappers
  import opened Dicts
  import opened JsonValues

  /** A regular-expression word character: an ASCII letter, digit or underscore. */
  predicate IsWordChar(c: char) {
    ('a' <= c <= 'z') || ('A' <= c <= 'Z') || ('0' <= c <= '9') || c == '_'
  }

  /** The length of the run of word characters `s` starts with. */
  function WordPrefix(s: string): (n: nat)
    ensures n <= |s|
    ensures forall k :: 0 <= k < n ==> IsWordChar(s[k])
    ensures n < |s| ==> !IsWordChar(s[n])
  {
    if |s| == 0 || !IsWordChar(s[0]) then 0 else 1 + WordPrefix(s[1..])
  }

  /** The length of the name when `s` starts with a placeholder `${name}`. */
  function PlaceholderAt(s: string): (r: Option<nat>)
    ensures r.Some? ==> r.value > 0 && r.value + 3 <= |s|
    ensures r.Some? ==> s[0] == '$' && s[1] == '{' && s[r.value + 2] == '}'
    ensures r.Some? ==> forall k :: 2 <= k < r.value + 2 ==> IsWordChar(s[k])
  {
    if |s| >= 2 && s[0] == '$' && s[1] == '{' then
      var n := WordPrefix(s[2..]);
      if n > 0 && n + 2 < |s| && s[n + 2] == '}' then Some(n) else None
    else None
  }

  /** The text a variable is replaced by: its `str()`, or "" when it is missing or None. */
  function VariableText(context: Dict<Json>, name: string): (r: string)
    ensures Get(context, name).None? || Get(context, name) == Some(JNull) ==> r == ""
    ensures Get(context, name).Some? && Get(context, name).value.JStr? ==> r == Get(context, name).value.s
  {
    var v := Get(context, name);
    if v.None? || v.value == JNull then "" else PyStr(v.value)
  }

  /** `render_template`: the placeholders replaced, left to right, the rest copied. */
  function Render(template: string, context: Dict<Json>): (r: string)
    ensures template == "" ==> r == ""
    decreases |template|
  {
    if |template| == 0 then ""
    else
      var m := PlaceholderAt(template);
      if m.Some? then VariableText(context, template[2..m.value + 2]) + Render(template[m.value + 3..], context)
      else [template[0]] + Render(template[1..], context)
  }

  /** No placeholder starts anywhere in the text. */
  predicate NoPlaceholder(t: string) {
    forall i :: 0 <= i < |t| ==> PlaceholderAt(t[i..]).None?
  }

  /** Text without a placeholder is returned as it is. */
  lemma {:induction false} RenderNoPlaceholder(t: string, context: Dict<Json>)
    requires NoPlaceholder(t)
    ensures Render(t, context) == t
    decreases |t|
  {
    if |t| > 0 {
      assert t[0..] == t;
      assert forall i :: 0 <= i < |t| - 1 ==> t[1..][i..] == t[i + 1..];
      RenderNoPlaceholder(t[1..], context);
      assert [t[0]] + t[1..] == t;
    }
  }

  /**
   * A placeholder is replaced by its variable's text and scanning resumes
   * after the closing brace: the substituted text is not scanned again.
   */
  lemma PlaceholderReplaced(name: string, rest: string, context: Dict<Json>)
    requires |name| > 0 && forall k :: 0 <= k < |name| ==> IsWordChar(name[k])
    ensures Render("${" + name + "}" + rest, context) == VariableText(context, name) + Render(rest, context)
  {
    var t := "${" + name + "}" + rest;
    var n := |name|;
    assert t[2..] == name + ("}" + rest);
    WordPrefixOfName(name, "}" + rest);
    assert PlaceholderAt(t) == Some(n);
    assert t[2..n + 2] == name && t[n + 3..] == rest;
    assert Render(t, context) == VariableText(context, t[2..n + 2]) + Render(t[n + 3..], context);
  }

  /** The word run at the start of a name followed by a closing brace is the whole name. */
  lemma {:induction false} WordPrefixOfName(name: string, tail: string)
    requires forall k :: 0 <= k < |name| ==> IsWordChar(name[k])
    requires |tail| > 0 && tail[0] == '}'
    ensures WordPrefix(name + tail) == |name|
  {
    if |name| > 0 {
      assert (name + tail)[1..] == name[1..] + tail;
      WordPrefixOfName(name[1..], tail);
    } else {
      assert name + tail == tail;
    }
  }

  /** A variable whose value is itself a placeholder is inserted literally: `${a}` with `a = "${b}"` renders `${b}`. */
  lemma SubstitutionNotRescanned(context: Dict<Json>)
    requires Get(context, "a") == Some(JStr("${b}"))
    ensures Render("${a}", context) == "${b}"
  {
    PlaceholderReplaced("a", "", context);
    assert "${" + "a" + "}" + "" == "${a}";
  }

  /**
   * One value of `render_dict`: strings rendered, dicts rendered key by key,
   * the string members of a list rendered and its other members kept, and
   * everything else kept.
   */
  function RenderValue(v: Json, context: Dict<Json>): (r: Json)
    ensures v.JStr? ==> r == JStr(Render(v.s, context))
    ensures v.JObj? ==> r.JObj? && Keys(r.fields) == Keys(v.fields)
    ensures v.JArr? ==> r.JArr? && |r.items| == |v.items|
    ensures !v.JStr? && !v.JObj? && !v.JArr? ==> r == v
    decreases v
  {
    match v
    case JStr(s) => JStr(Render(s, context))
    case JObj(fields) =>
      var r := seq(|fields|, i requires 0 <= i < |fields| => (fields[i].0, RenderValue(fields[i].1, context)));
      assert forall i :: 0 <= i < |fields| ==> r[i].0 == fields[i].0;
      JObj(r)
    case JArr(items) =>
      JArr(seq(|items|, i requires 0 <= i < |items| => RenderListMember(items[i], context)))
    case _ => v
  }

  /** A list member: a string is rendered, anything else (a nested dict included) is kept. */
  function RenderListMember(v: Json, context: Dict<Json>): (r: Json)
    ensures v.JStr? ==> r == JStr(Render(v.s, context))
    ensures !v.JStr? ==> r == v
  {
    if v.JStr? then JStr(Render(v.s, context)) else v
  }

  /**
   * `render_dict`: a fresh dict filled key by key, in the input's order, each
   * dict value rendered by a recursive call.
   */
  method RenderDict(data: Dict<Json>, context: Dict<Json>) returns (result: Dict<Json>)
    ensures Keys(result) == Keys(data)
    ensures forall i :: 0 <= i < |data| ==> result[i].1 == RenderValue(data[i].1, context)
    decreases JObj(data)
  {
    result := [];
    var i := 0;
    while i < |data|
      invariant 0 <= i <= |data|
      invariant |result| == i
      invariant forall j :: 0 <= j < i ==> result[j] == (data[j].0, RenderValue(data[j].1, context))
    {
      var key := data[i].0;
      var value := data[i].1;
      var rendered: Json;
      if value.JStr? {
        rendered := JStr(Render(value.s, context));
      } else if value.JObj? {
        assert data[i] in data;
        var inner := RenderDict(value.fields, context);
        assert Keys(inner) == Keys(value.fields);
        assert inner == RenderValue(value, context).fields;
        rendered := JObj(inner);
      } else if value.JArr? {
        rendered := JArr(seq(|value.items|, k requires 0 <= k < |value.items| => RenderListMember(value.items[k], context)));
      } else {
        rendered := value;
      }
      assert key !in Keys(result);
      PutAbsent(result, key, rendered);
      result := Put(result, key, rendered);
      i := i + 1;
    }
  }
}
