/**
 * The HAR import dialog: the user uploads a capture, the parsed entries are
 * listed with their position as row key, the user ticks rows, and the
 * selected entries are sent to the flow generator. The backend calls
 * (`parseHar`, `generateFlow`) are parameters holding their outcome.
 */
module HarImporter {
  import opened Wrappers
  import opened Steps
  import Har
  import Lists

  /** A listed entry with the row key the table uses for selection. */
  datatype KeyedEntry = KeyedEntry(entry: Har.Entry, key: int)

  /** `entries.map((e, idx) => ({ ...e, key: idx }))`. */
  function Keyed(parsed: seq<Har.Entry>): (r: seq<KeyedEntry>)
    ensures |r| == |parsed| && forall i :: 0 <= i < |parsed| ==> r[i] == KeyedEntry(parsed[i], i)
  {
    seq(|parsed|, i requires 0 <= i < |parsed| => KeyedEntry(parsed[i], i))
  }

  /** The entries whose key is selected, in listing order. */
  function Selected(entries: seq<KeyedEntry>, keys: seq<int>): seq<KeyedEntry> {
    Lists.Filter(entries, (e: KeyedEntry) => e.key in keys)
  }

  /** The entries themselves, as sent to the generator. */
  function Payload(sel: seq<KeyedEntry>): (r: seq<Har.Entry>)
    ensures |r| == |sel| && forall i :: 0 <= i < |sel| ==> r[i] == sel[i].entry
  {
    seq(|sel|, i requires 0 <= i < |sel| => sel[i].entry)
  }

  class Importer {
    var entries: seq<KeyedEntry>
    var selectedRowKeys: seq<int>
    var loading: bool
    var processing: bool

    constructor ()
      ensures entries == [] && selectedRowKeys == [] && !loading && !processing
    {
      entries := [];
      selectedRowKeys := [];
      loading := false;
      processing := false;
    }

    /**
     * Uploads a capture. `parsed` is the outcome of the parse request. On
     * success the entries are listed keyed by position and the selection is
     * cleared; on failure both stay as they were. Returns whether the upload
     * reported success.
     */
    method HandleUpload(parsed: Result<seq<Har.Entry>, string>) returns (ok: bool)
      modifies this
      ensures ok == parsed.Ok?
      ensures parsed.Ok? ==> entries == Keyed(parsed.value) && selectedRowKeys == []
      ensures parsed.Err? ==> entries == old(entries) && selectedRowKeys == old(selectedRowKeys)
      ensures !loading && processing == old(processing)
    {
      loading := true;
      if parsed.Ok? {
        entries := Keyed(parsed.value);
        selectedRowKeys := [];
        ok := true;
      } else {
        ok := false;
      }
      loading := false;
    }

    /** The table's selection callback. */
    method SetSelection(keys: seq<int>)
      modifies this
      ensures selectedRowKeys == keys && entries == old(entries)
      ensures loading == old(loading) && processing == old(processing)
    {
      selectedRowKeys := keys;
    }

    /** The reset button: the listing is emptied, the selection is left as it is. */
    method Reset()
      modifies this
      ensures entries == [] && selectedRowKeys == old(selectedRowKeys)
      ensures loading == old(loading) && processing == old(processing)
    {
      entries := [];
    }

    /**
     * Generates a flow from the selection. With nothing selected only a
     * warning is shown: no request is made (`sent` is `None`) and nothing is
     * imported. Otherwise the selected entries are sent in listing order, and
     * `onImport` receives the generated flow only when the request succeeds.
     */
    method HandleGenerate(generate: seq<Har.Entry> -> Result<seq<Step>, string>)
      returns (sent: Option<seq<Har.Entry>>, imported: Option<seq<Step>>)
      modifies this
      ensures |old(selectedRowKeys)| == 0 ==> sent == None && imported == None && unchanged(this)
      ensures |old(selectedRowKeys)| > 0 ==>
        && sent == Some(Payload(Selected(entries, selectedRowKeys)))
        && imported == (if generate(sent.value).Ok? then Some(generate(sent.value).value) else None)
        && !processing
      ensures entries == old(entries) && selectedRowKeys == old(selectedRowKeys) && loading == old(loading)
    {
      if |selectedRowKeys| == 0 {
        return None, None;
      }
      processing := true;
      var selectedAPIEntries := Payload(Selected(entries, selectedRowKeys));
      sent := Some(selectedAPIEntries);
      var res := generate(selectedAPIEntries);
      if res.Ok? {
        imported := Some(res.value);
      } else {
        imported := None;
      }
      processing := false;
    }
  }

  /**
   * Only the set of selected keys matters: the selected entries come in
   * listing order whatever order the keys were ticked in.
   */
  lemma {:induction false} SelectionOrderIrrelevant(entries: seq<KeyedEntry>, k1: seq<int>, k2: seq<int>)
    requires forall x :: x in k1 <==> x in k2
    ensures Selected(entries, k1) == Selected(entries, k2)
  {
    if |entries| > 0 {
      SelectionOrderIrrelevant(entries[1..], k1, k2);
    }
  }

  /**
   * After an upload, the selected entries are exactly the uploaded entries at
   * the selected positions, at strictly increasing positions: a subsequence of
   * the listing without repetition or reordering.
   */
  lemma SelectedAfterUpload(parsed: seq<Har.Entry>, keys: seq<int>)
    ensures var ix := Lists.KeptIndexes(Keyed(parsed), (e: KeyedEntry) => e.key in keys);
      && |ix| == |Selected(Keyed(parsed), keys)|
      && Lists.StrictlyIncreasing(ix)
      && (forall k :: 0 <= k < |ix| ==> ix[k] < |parsed| && Selected(Keyed(parsed), keys)[k] == KeyedEntry(parsed[ix[k]], ix[k]))
      && (forall i :: 0 <= i < |parsed| ==> (i in ix <==> i in keys))
  {
    var p := (e: KeyedEntry) => e.key in keys;
    Lists.FilterKeeps(Keyed(parsed), p);
  }
}
