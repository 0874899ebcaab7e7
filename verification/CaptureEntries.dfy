/** The recognised utterances as they are shown: a list, newest first, changed entry by entry. */
module CaptureEntries {
  import opened Options

  datatype Status = Queued | Transcribing | Completed | Failed

  datatype Entry = Entry(id: string, status: Status, text: Option<string>, provider: Option<string>, deliveryQueued: bool) {
    predicate Settled() {
      status.Completed? || status.Failed?
    }
  }

  /** Changes every entry of that id. */
  function Update(entries: seq<Entry>, id: string, change: Entry -> Entry): (r: seq<Entry>)
    ensures |r| == |entries|
    ensures forall k :: 0 <= k < |r| ==> r[k] == if entries[k].id == id then change(entries[k]) else entries[k]
  {
    seq(|entries|, k requires 0 <= k < |entries| => if entries[k].id == id then change(entries[k]) else entries[k])
  }

  /** The first entry of that id. */
  function Find(entries: seq<Entry>, id: string): (r: Option<Entry>)
    ensures r.Some? ==> r.value in entries && r.value.id == id
    ensures r.None? <==> forall e :: e in entries ==> e.id != id
  {
    if entries == [] then None
    else if entries[0].id == id then Some(entries[0])
    else Find(entries[1..], id)
  }

  predicate HasId(entries: seq<Entry>, id: string) {
    exists e :: e in entries && e.id == id
  }

  ghost predicate DistinctIds(entries: seq<Entry>) {
    forall i, j :: 0 <= i < j < |entries| ==> entries[i].id != entries[j].id
  }

  lemma UpdateTail(entries: seq<Entry>, id: string, change: Entry -> Entry)
    requires entries != []
    ensures Update(entries, id, change)[1..] == Update(entries[1..], id, change)
  {
    hide Update;
  }

  /** Looking an id up after an update: the changed entry under the updated id, the same as before under any other. */
  lemma {:induction false} FindAfterUpdate(entries: seq<Entry>, id: string, change: Entry -> Entry, x: string)
    requires forall e :: change(e).id == e.id
    ensures var before, after := Find(entries, x), Find(Update(entries, id, change), x);
            after == if x == id && before.Some? then Some(change(before.value)) else before
  {
    if entries != [] {
      FindAfterUpdate(entries[1..], id, change, x);
      UpdateTail(entries, id, change);
    }
  }

  lemma FindIsTheOne(entries: seq<Entry>, e: Entry)
    requires DistinctIds(entries) && e in entries
    ensures Find(entries, e.id) == Some(e)
  {
    var f := Find(entries, e.id).value;
    var i :| 0 <= i < |entries| && entries[i] == e;
    var j :| 0 <= j < |entries| && entries[j] == f;
    assert i == j;
  }
}
