/**
 * The HAR endpoints of the backend: `parse_har` drops static files and
 * analytics beacons from a capture and projects each remaining entry to the
 * fields the importer shows; `generate_flow` turns the entries the user
 * selected into flow steps.
 */
module Har {
  import opened Wrappers
  import opened Dicts
  import opened JsonValues
  import opened Steps
  import Strings
  import Lists

  /** The `postData` object of a captured request; `text` may be missing. */
  datatype PostData = PostData(text: Option<string>)

  /** One captured request/response pair of the HAR log, reduced to the fields the endpoint reads. */
  datatype RawEntry = RawEntry(
    url: string,
    httpMethod: string,
    headers: seq<(string, string)>,
    postData: Option<PostData>,
    status: int,
    time: int)

  /** An entry as listed to the importer. */
  datatype Entry = Entry(
    url: string,
    httpMethod: string,
    status: int,
    headers: Dict<string>,
    postData: Option<string>,
    time: int)

  const StaticExtensions: seq<string> :=
    [".png", ".jpg", ".jpeg", ".gif", ".svg", ".webp", ".css", ".js", ".map", ".woff", ".woff2", ".ttf"]

  const AnalyticsDomains: seq<string> :=
    ["google-analytics", "googletagmanager", "doubleclick", "sentry", "datadog"]

  /** The URL ends with one of the static-file extensions. */
  predicate IsStatic(url: string) {
    exists k | 0 <= k < |StaticExtensions| :: Strings.EndsWith(url, StaticExtensions[k])
  }

  /** The URL contains one of the analytics domain names anywhere. */
  predicate IsAnalytics(url: string) {
    exists k | 0 <= k < |AnalyticsDomains| :: Strings.Contains(url, AnalyticsDomains[k])
  }

  predicate Keep(e: RawEntry) {
    !IsStatic(e.url) && !IsAnalytics(e.url)
  }

  /** The listed fields of an entry; a header name given twice keeps its last value. */
  function Project(e: RawEntry): (r: Entry)
    ensures r.url == e.url && r.httpMethod == e.httpMethod && r.status == e.status && r.time == e.time
    ensures r.headers == FromEntries(e.headers)
    ensures r.postData == if e.postData.Some? then e.postData.value.text else None
  {
    Entry(e.url, e.httpMethod, e.status, FromEntries(e.headers),
          if e.postData.Some? then e.postData.value.text else None, e.time)
  }

  /** The entries that survive the filter, in capture order. */
  function Surviving(entries: seq<RawEntry>): (r: seq<RawEntry>)
    ensures |r| <= |entries|
    ensures forall k :: 0 <= k < |r| ==> !IsStatic(r[k].url) && !IsAnalytics(r[k].url)
  {
    Lists.Filter(entries, Keep)
  }

  /** `parse_har`: keeps the entries that are neither static nor analytics, projected, in order. */
  method ParseHar(entries: seq<RawEntry>) returns (filtered: seq<Entry>)
    ensures |filtered| == |Surviving(entries)|
    ensures forall k :: 0 <= k < |filtered| ==> filtered[k] == Project(Surviving(entries)[k])
  {
    filtered := [];
    var i := 0;
    while i < |entries|
      invariant 0 <= i <= |entries|
      invariant |filtered| == |Surviving(entries[..i])|
      invariant forall k :: 0 <= k < |filtered| ==> filtered[k] == Project(Surviving(entries[..i])[k])
    {
      var entry := entries[i];
      Lists.FilterAppend(entries[..i], entry, Keep);
      assert entries[..i + 1] == entries[..i] + [entry];
      if IsStatic(entry.url) {
        i := i + 1;
        continue;
      }
      if IsAnalytics(entry.url) {
        i := i + 1;
        continue;
      }
      filtered := filtered + [Project(entry)];
      i := i + 1;
    }
    assert entries[..|entries|] == entries;
  }

  /**
   * The surviving entries are exactly the captured ones that are neither static
   * nor analytics, at strictly increasing capture positions.
   */
  lemma SurvivingCharacterised(entries: seq<RawEntry>)
    ensures var ix := Lists.KeptIndexes(entries, Keep);
      && |ix| == |Surviving(entries)|
      && Lists.StrictlyIncreasing(ix)
      && (forall k :: 0 <= k < |ix| ==> ix[k] < |entries| && Surviving(entries)[k] == entries[ix[k]])
      && (forall i :: 0 <= i < |entries| ==>
            (i in ix <==> !IsStatic(entries[i].url) && !IsAnalytics(entries[i].url)))
  {
    Lists.FilterKeeps(entries, Keep);
  }

  /** An image URL is dropped; so is any URL mentioning an analytics domain. */
  lemma ExamplesDropped()
    ensures IsStatic("https://x.org/logo.png")
    ensures IsAnalytics("https://www.google-analytics.com/collect")
  {
    PngIsStatic();
    AnalyticsUrlDropped();
  }

  lemma PngIsStatic()
    ensures IsStatic("https://x.org/logo.png")
  {
    var url := "https://x.org/logo.png";
    assert url[|url| - 4..] == ".png" == StaticExtensions[0];
    assert Strings.EndsWith(url, StaticExtensions[0]);
  }

  lemma AnalyticsUrlDropped()
    ensures IsAnalytics("https://www.google-analytics.com/collect")
  {
    var pre, dom, post := "https://www.", "google-analytics", ".com/collect";
    var url := pre + dom + post;
    assert url == "https://www.google-analytics.com/collect";
    assert url[|pre|..|pre| + |dom|] == dom == AnalyticsDomains[0];
    assert Strings.OccursAt(url, AnalyticsDomains[0], |pre|);
    assert Strings.Contains(url, AnalyticsDomains[0]);
  }

  // ---------------------------------------------------------------- generate_flow

  /** The header names a generated step keeps, in this order. */
  const KeptHeaders: seq<string> := ["accept", "content-type", "authorization", "cookie"]

  /** The request headers keyed by their lower-cased name; of names equal up to case the last wins. */
  function LowerHeaders(headers: Dict<string>): (r: Dict<string>)
  {
    FromEntries(seq(|headers|, i requires 0 <= i < |headers| => (Strings.Lower(headers[i].0), headers[i].1)))
  }

  /** The step's headers: for each allow-listed name present in `lower`, in allow-list order. */
  function SelectHeaders(lower: Dict<string>, names: seq<string>): Dict<Json>
  {
    if |names| == 0 then []
    else
      var init := SelectHeaders(lower, names[..|names| - 1]);
      var name := names[|names| - 1];
      if Get(lower, name).Some? then Put(init, name, JStr(Get(lower, name).value)) else init
  }

  /** A selected header name holds the request's value for it; any other name is absent. */
  lemma {:induction false} SelectHeadersGet(lower: Dict<string>, names: seq<string>, k: string)
    ensures Get(SelectHeaders(lower, names), k) ==
      if k in names && Get(lower, k).Some? then Some(JStr(Get(lower, k).value)) else None
  {
    if |names| > 0 {
      var init := names[..|names| - 1];
      var name := names[|names| - 1];
      SelectHeadersGet(lower, init, k);
      assert names == init + [name];
      if Get(lower, name).Some? {
        GetPut(SelectHeaders(lower, init), name, JStr(Get(lower, name).value), k);
      }
    }
  }

  /** The body of a generated step: absent for empty post data, else the parsed JSON or the raw text. */
  function GeneratedBody(c: Codec, postData: Option<string>): (r: Option<Json>)
    ensures postData.None? || postData.value == "" ==> r == None
    ensures postData.Some? && postData.value != "" && c.parse(postData.value).Some? ==> r == c.parse(postData.value)
    ensures postData.Some? && postData.value != "" && c.parse(postData.value).None? ==> r == Some(JStr(postData.value))
  {
    if postData.None? || postData.value == "" then None
    else if c.parse(postData.value).Some? then c.parse(postData.value)
    else Some(JStr(postData.value))
  }

  /** The step generated from the `idx`-th selected entry. */
  function GeneratedStep(c: Codec, idx: nat, e: Entry): (s: Step)
    ensures s.name == StepName(idx) && s.httpMethod == e.httpMethod && s.url == e.url
    ensures s.headers == SelectHeaders(LowerHeaders(e.headers), KeptHeaders)
    ensures s.body == GeneratedBody(c, e.postData)
    ensures s.condition == None && s.expectation == None && s.extract == None
  {
    Step(StepName(idx), e.httpMethod, e.url, SelectHeaders(LowerHeaders(e.headers), KeptHeaders),
         GeneratedBody(c, e.postData), None, None, None)
  }

  /** `generate_flow`: one step per selected entry, in order. */
  method GenerateFlow(c: Codec, selected: seq<Entry>) returns (flow: seq<Step>)
    ensures |flow| == |selected|
    ensures forall i :: 0 <= i < |selected| ==> flow[i] == GeneratedStep(c, i, selected[i])
  {
    flow := [];
    var idx := 0;
    while idx < |selected|
      invariant 0 <= idx <= |selected|
      invariant |flow| == idx
      invariant forall i :: 0 <= i < idx ==> flow[i] == GeneratedStep(c, i, selected[i])
    {
      var entry := selected[idx];
      var headersLower := LowerHeaders(entry.headers);
      var headers: Dict<Json> := [];
      var k := 0;
      while k < |KeptHeaders|
        invariant 0 <= k <= |KeptHeaders|
        invariant headers == SelectHeaders(headersLower, KeptHeaders[..k])
      {
        var key := KeptHeaders[k];
        assert KeptHeaders[..k + 1][..k] == KeptHeaders[..k];
        if Get(headersLower, key).Some? {
          headers := Put(headers, key, JStr(Get(headersLower, key).value));
        }
        k := k + 1;
      }
      assert KeptHeaders[..|KeptHeaders|] == KeptHeaders;
      var body: Option<Json> := None;
      if entry.postData.Some? && entry.postData.value != "" {
        var parsed := c.parse(entry.postData.value);
        if parsed.Some? {
          body := parsed;
        } else {
          body := Some(JStr(entry.postData.value));
        }
      }
      flow := flow + [Step(StepName(idx), entry.httpMethod, entry.url, headers, body, None, None, None)];
      idx := idx + 1;
    }
  }

  /** Within one generated batch the step names are pairwise distinct. */
  lemma GeneratedNamesDistinct(c: Codec, selected: seq<Entry>, i: nat, j: nat)
    requires i < j < |selected|
    ensures GeneratedStep(c, i, selected[i]).name != GeneratedStep(c, j, selected[j]).name
  {
    if StepName(i) == StepName(j) {
      StepNameInjective(i, j);
    }
  }

  /**
   * A generated step carries only allow-listed, lower-case header names; each
   * holds the last request value whose name matches it up to case.
   */
  lemma GeneratedHeaders(c: Codec, idx: nat, e: Entry, k: string)
    ensures var h := GeneratedStep(c, idx, e).headers;
      Get(h, k) == if k in KeptHeaders && Get(LowerHeaders(e.headers), k).Some?
                   then Some(JStr(Get(LowerHeaders(e.headers), k).value)) else None
  {
    SelectHeadersGet(LowerHeaders(e.headers), KeptHeaders, k);
  }

  /** Post data "123" that parses as a number becomes that number, not the string. */
  lemma NumericPostDataParsed(c: Codec, idx: nat, e: Entry)
    requires e.postData == Some("123") && c.parse("123") == Some(JNum(123))
    ensures GeneratedStep(c, idx, e).body == Some(JNum(123))
  {
  }
}
