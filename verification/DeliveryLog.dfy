/** Handing recognised text on: an entry is granted to one delivery at a time. */
module DeliveryLog {
  import opened Options
  import opened CaptureEntries

  datatype Delivery = Granted(id: string) | Returned(id: string)

  /** The latest delivery event of an id. */
  ghost function Latest(log: seq<Delivery>, id: string): Option<Delivery> {
    if log == [] then None
    else if log[|log| - 1].id == id then Some(log[|log| - 1])
    else Latest(log[..|log| - 1], id)
  }

  /** Grants are made only when no grant of the same entry is open. */
  ghost predicate Separate(log: seq<Delivery>) {
    forall k :: 0 <= k < |log| && log[k].Granted? ==> Latest(log[..k], log[k].id) != Some(log[k])
  }

  /** Exactly the entries with an open grant are marked, and a marked entry is complete. */
  ghost predicate Agrees(entries: seq<Entry>, log: seq<Delivery>) {
    && Separate(log)
    && (forall e :: e in entries ==> (e.deliveryQueued <==> Latest(log, e.id) == Some(Granted(e.id))))
    && (forall e :: e in entries && e.deliveryQueued ==> e.status.Completed?)
    && (forall d :: d in log ==> HasId(entries, d.id))
  }

  lemma IncompleteIsUnmarked(entries: seq<Entry>, log: seq<Delivery>, id: string)
    requires Agrees(entries, log) && forall e :: e in entries && e.id == id ==> !e.status.Completed?
    ensures forall e :: e in entries && e.id == id ==> !e.deliveryQueued
  {
  }

  /** Between two grants of one entry there is a failed delivery. */
  lemma {:induction false} GrantsAreSeparated(log: seq<Delivery>, i: nat, j: nat)
    requires Separate(log) && i < j < |log| && log[i] == log[j] && log[i].Granted?
    ensures exists k :: i < k < j && log[k] == Returned(log[i].id)
  {
    var id := log[i].id;
    var k := LatestPlace(log, i, j);
    assert log[k] == Returned(id);
  }

  lemma {:induction false} LatestPlace(log: seq<Delivery>, i: nat, j: nat) returns (k: nat)
    requires i < j <= |log|
    ensures i <= k < j && log[k].id == log[i].id && Latest(log[..j], log[i].id) == Some(log[k])
    decreases j
  {
    if log[j - 1].id == log[i].id {
      k := j - 1;
    } else {
      k := LatestPlace(log, i, j - 1);
      assert log[..j][..j - 1] == log[..j - 1];
    }
  }

  lemma SeparateSnoc(log: seq<Delivery>, d: Delivery)
    requires Separate(log) && (d.Granted? ==> Latest(log, d.id) != Some(d))
    ensures Separate(log + [d])
  {
    var r := log + [d];
    forall k | 0 <= k < |r| && r[k].Granted? ensures Latest(r[..k], r[k].id) != Some(r[k]) {
      if k < |log| {
        assert r[..k] == log[..k];
      } else {
        assert r[..k] == log;
      }
    }
  }

  lemma LatestSnoc(log: seq<Delivery>, d: Delivery, id: string)
    ensures Latest(log + [d], id) == if d.id == id then Some(d) else Latest(log, id)
  {
    assert (log + [d])[..|log|] == log;
  }

  lemma {:induction false} LatestIsLogged(log: seq<Delivery>, id: string)
    ensures Latest(log, id).Some? ==> Latest(log, id).value in log && Latest(log, id).value.id == id
  {
    if log != [] && log[|log| - 1].id != id {
      LatestIsLogged(log[..|log| - 1], id);
    }
  }

  /** Changing an entry that is not granted leaves the log in agreement. */
  lemma AgreesUpdate(entries: seq<Entry>, log: seq<Delivery>, id: string, change: Entry -> Entry)
    requires Agrees(entries, log) && (forall e :: e in entries && e.id == id ==> !e.deliveryQueued)
    requires forall e :: change(e).id == e.id && change(e).deliveryQueued == e.deliveryQueued
    ensures Agrees(Update(entries, id, change), log)
  {
    var r := Update(entries, id, change);
    SameIds(entries, r);
    forall e | e in r
      ensures (e.deliveryQueued <==> Latest(log, e.id) == Some(Granted(e.id))) && (e.deliveryQueued ==> e.status.Completed?)
    {
      var k :| 0 <= k < |r| && r[k] == e;
      assert entries[k] in entries;
    }
    forall d | d in log ensures HasId(r, d.id) {
      HasSame(entries, r, d.id);
    }
  }

  lemma SameIds(entries: seq<Entry>, r: seq<Entry>)
    requires |r| == |entries| && forall k :: 0 <= k < |r| ==> r[k].id == entries[k].id
    ensures DistinctIds(entries) ==> DistinctIds(r)
  {
  }

  lemma HasSame(entries: seq<Entry>, r: seq<Entry>, id: string)
    requires |r| == |entries| && forall k :: 0 <= k < |r| ==> r[k].id == entries[k].id
    requires HasId(entries, id)
    ensures HasId(r, id)
  {
    var e :| e in entries && e.id == id;
    var k :| 0 <= k < |entries| && entries[k] == e;
    assert r[k] in r;
  }

  lemma AgreesNew(entries: seq<Entry>, log: seq<Delivery>, e: Entry)
    requires Agrees(entries, log) && !HasId(entries, e.id) && !e.deliveryQueued
    ensures Agrees([e] + entries, log)
  {
    LatestIsLogged(log, e.id);
    forall d | d in log ensures HasId([e] + entries, d.id) {
      var x :| x in entries && x.id == d.id;
      assert x in [e] + entries;
    }
  }

  lemma NewlyGranted(entries: seq<Entry>, log: seq<Delivery>, d: Delivery)
    requires Agrees(entries, log) && HasId(entries, d.id)
    requires forall e :: e in entries && e.id == d.id ==> !e.deliveryQueued
    ensures Latest(log, d.id) != Some(Granted(d.id))
  {
    hide Separate, Latest;
    var e :| e in entries && e.id == d.id;
  }

  /** An event that the entry then shows: granted means marked and complete, returned means unmarked. */
  lemma AgreesLogged(entries: seq<Entry>, log: seq<Delivery>, d: Delivery, change: Entry -> Entry)
    requires Agrees(entries, log) && HasId(entries, d.id)
    requires forall e :: change(e).id == e.id && change(e).deliveryQueued == d.Granted?
    requires d.Granted? ==> forall e :: e in entries && e.id == d.id ==> change(e).status.Completed? && !e.deliveryQueued
    ensures Agrees(Update(entries, d.id, change), log + [d])
  {
    hide Separate, Latest;
    var r := Update(entries, d.id, change);
    if d.Granted? {
      NewlyGranted(entries, log, d);
    }
    SeparateSnoc(log, d);
    forall e | e in r
      ensures (e.deliveryQueued <==> Latest(log + [d], e.id) == Some(Granted(e.id))) && (e.deliveryQueued ==> e.status.Completed?)
    {
      var k :| 0 <= k < |r| && r[k] == e;
      MarkedLogged(entries[k], entries, log, d, change);
    }
    forall x | x in log + [d] ensures HasId(r, x.id) {
      HasSame(entries, r, x.id);
    }
  }

  lemma MarkedLogged(e: Entry, entries: seq<Entry>, log: seq<Delivery>, d: Delivery, change: Entry -> Entry)
    requires Agrees(entries, log) && e in entries
    requires change(e).id == e.id && change(e).deliveryQueued == d.Granted?
    requires d.Granted? && e.id == d.id ==> change(e).status.Completed?
    ensures var n := if e.id == d.id then change(e) else e;
            (n.deliveryQueued <==> Latest(log + [d], n.id) == Some(Granted(n.id))) && (n.deliveryQueued ==> n.status.Completed?)
  {
    hide Separate, HasId, Latest;
    LatestSnoc(log, d, e.id);
  }
}
