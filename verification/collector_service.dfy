/** The collector as it changes its tables (app/collector/messages.py), proved to perform exactly the
    collection of the model. */
module CollectorService {
  import opened Wrappers
  import opened Instants
  import opened Collector
  import FloodWaits

  datatype CollectionResult =
    | Skipped
    | StillPaused
    | ToldToWait(until: Time)
    | Raised
    | Collected(saved: nat, updated: nat, deleted: nat, enqueued: seq<nat>, lastSeen: int)

  /** What a collection meets: the log, and the seconds that Telegram asks to wait on connecting, fetching and
      syncing, if it does. */
  datatype Answer = Answer(view: View, connectWait: Option<nat>, fetchWait: Option<nat>, syncWait: Option<nat>)

  function Insert(s: Snapshot, sorted: seq<Snapshot>): seq<Snapshot> {
    if sorted == [] || s.tgId <= sorted[0].tgId then [s] + sorted
    else [sorted[0]] + Insert(s, sorted[1..])
  }

  /** sorted(snapshots, key=id). */
  function SortById(snapshots: seq<Snapshot>): seq<Snapshot> {
    if snapshots == [] then [] else Insert(snapshots[0], SortById(snapshots[1..]))
  }

  function Snapshots(remote: Remote, ids: seq<int>): seq<Snapshot>
    requires forall i :: 0 <= i < |ids| ==> ids[i] in remote
  {
    seq(|ids|, i requires 0 <= i < |ids| => Snapshot(ids[i], remote[ids[i]]))
  }

  /** Newest first, as fetched. */
  function KeptSnapshots(remote: Remote, lastSeen: int, cutoff: Time, batch: seq<int>): seq<Snapshot>
    requires forall i :: 0 <= i < |batch| ==> batch[i] in remote
  {
    if batch == [] then []
    else
      (if Kept(lastSeen, cutoff, remote[batch[0]]) then [Snapshot(batch[0], remote[batch[0]])] else [])
      + KeptSnapshots(remote, lastSeen, cutoff, batch[1..])
  }

  lemma {:induction false} KeptSnapshotsConcat(remote: Remote, lastSeen: int, cutoff: Time, a: seq<int>, b: seq<int>)
    requires forall i :: 0 <= i < |a| ==> a[i] in remote
    requires forall i :: 0 <= i < |b| ==> b[i] in remote
    ensures KeptSnapshots(remote, lastSeen, cutoff, a + b)
            == KeptSnapshots(remote, lastSeen, cutoff, a) + KeptSnapshots(remote, lastSeen, cutoff, b)
  {
    if a == [] {
      assert a + b == b;
    } else {
      KeptSnapshotsConcat(remote, lastSeen, cutoff, a[1..], b);
      var head := if Kept(lastSeen, cutoff, remote[a[0]]) then [Snapshot(a[0], remote[a[0]])] else [];
      var x, y := KeptSnapshots(remote, lastSeen, cutoff, a[1..]), KeptSnapshots(remote, lastSeen, cutoff, b);
      assert (a + b)[0] == a[0] && (a + b)[1..] == a[1..] + b;
      assert KeptSnapshots(remote, lastSeen, cutoff, a) == head + x;
      assert KeptSnapshots(remote, lastSeen, cutoff, a + b) == head + (x + y) == (head + x) + y;
    }
  }

  lemma {:induction false} InsertLast(s: Snapshot, sorted: seq<Snapshot>)
    requires forall i :: 0 <= i < |sorted| ==> sorted[i].tgId < s.tgId
    ensures Insert(s, sorted) == sorted + [s]
  {
    if sorted == [] {
    } else {
      InsertLast(s, sorted[1..]);
    }
  }

  lemma NewestIsAbove(remote: Remote, lastSeen: int, cutoff: Time, batch: seq<int>)
    requires batch != [] && forall i :: 0 <= i < |batch| ==> batch[i] in remote
    requires forall i, j :: 0 <= i < j < |batch| ==> batch[i] > batch[j]
    ensures var ids := KeptIds(remote, lastSeen, cutoff, batch[1..]); forall i :: 0 <= i < |ids| ==> ids[i] < batch[0]
  {
    var rest, ids := batch[1..], KeptIds(remote, lastSeen, cutoff, batch[1..]);
    KeptIdsFromBatch(remote, lastSeen, cutoff, rest);
    forall i | 0 <= i < |ids| ensures ids[i] < batch[0] {
      assert ids[i] in ids;
      var j :| 0 <= j < |rest| && rest[j] == ids[i];
      assert batch[j + 1] == rest[j];
    }
  }

  lemma SnapshotsAppend(remote: Remote, ids: seq<int>, id: int)
    requires id in remote && forall i :: 0 <= i < |ids| ==> ids[i] in remote
    ensures Snapshots(remote, ids + [id]) == Snapshots(remote, ids) + [Snapshot(id, remote[id])]
  {
  }

  lemma SortNewest(first: Snapshot, later: seq<Snapshot>, ordered: seq<Snapshot>)
    requires SortById(later) == ordered && forall i :: 0 <= i < |ordered| ==> ordered[i].tgId < first.tgId
    ensures SortById([first] + later) == ordered + [first]
  {
    assert ([first] + later)[1..] == later;
    InsertLast(first, ordered);
  }

  /** A batch comes newest first, so sorting its kept messages lists them oldest first. */
  lemma {:induction false} SortedBatch(remote: Remote, lastSeen: int, cutoff: Time, batch: seq<int>)
    requires forall i :: 0 <= i < |batch| ==> batch[i] in remote
    requires forall i, j :: 0 <= i < j < |batch| ==> batch[i] > batch[j]
    ensures var ids := KeptIds(remote, lastSeen, cutoff, batch);
            && (forall i :: 0 <= i < |ids| ==> ids[i] in remote)
            && SortById(KeptSnapshots(remote, lastSeen, cutoff, batch)) == Snapshots(remote, ids)
  {
    KeptIdsFromBatch(remote, lastSeen, cutoff, batch);
    if batch == [] {
    } else {
      var rest := batch[1..];
      var restIds := KeptIds(remote, lastSeen, cutoff, rest);
      SortedBatch(remote, lastSeen, cutoff, rest);
      KeptIdsFromBatch(remote, lastSeen, cutoff, rest);
      if Kept(lastSeen, cutoff, remote[batch[0]]) {
        var first, later := Snapshot(batch[0], remote[batch[0]]), KeptSnapshots(remote, lastSeen, cutoff, rest);
        NewestIsAbove(remote, lastSeen, cutoff, batch);
        assert KeptSnapshots(remote, lastSeen, cutoff, batch) == [first] + later;
        SortNewest(first, later, Snapshots(remote, restIds));
        SnapshotsAppend(remote, restIds, batch[0]);
      } else {
        assert KeptSnapshots(remote, lastSeen, cutoff, batch) == KeptSnapshots(remote, lastSeen, cutoff, rest);
        assert KeptIds(remote, lastSeen, cutoff, batch) == restIds;
      }
    }
  }

  predicate KnowsLive(rows: seq<Row>) {
    exists i :: 0 <= i < |rows| && Live(rows[i])
  }

  /** Telegram is asked about known messages exactly when its answer can make a difference. */
  lemma SyncedOnlyIfItMatters(rows: seq<Row>, now: Time)
    ensures KnowsLive(rows) <==> exists remote: Remote :: SyncAll(rows, remote, now) != rows
  {
    if i :| 0 <= i < |rows| && Live(rows[i]) {
      assert SyncAll(rows, map[], now)[i] != rows[i];
    } else {
      forall remote: Remote ensures SyncAll(rows, remote, now) == rows {
      }
    }
  }

  /** A collection as the model of waits sees it. */
  function AttemptOf(r: Replica, answer: Answer, settings: Settings): FloodWaits.Attempt
    requires answer.fetchWait.None? ==> ViewOk(r, answer.view, settings)
  {
    FloodWaits.Attempt(answer.connectWait, answer.fetchWait, answer.syncWait,
                       answer.fetchWait.None? && KnowsLive(WithNew(r, answer.view, settings)))
  }

  /** The collection of the model was performed, and these are its results. */
  ghost predicate Reports(result: CollectionResult, before: Replica, after: Replica, v: View, settings: Settings)
    requires ViewOk(before, v, settings)
  {
    && after == Collect(before, v, settings) && result.Collected?
    && result.enqueued == Enqueued(before, v, settings)
    && |result.enqueued| == result.saved + result.updated + result.deleted
    && result.saved == |after.rows| - |before.rows|
    && result.deleted == DeletedCount(WithNew(before, v, settings), v.atSync)
    && result.lastSeen == after.lastSeen
  }

  lemma FetchedInOrder(r: Replica, v: View, settings: Settings)
    requires Valid(r) && ViewOk(r, v, settings)
    ensures var ids := FetchedIds(r, v, settings);
            && Ascending(ids)
            && (forall i :: 0 <= i < |ids| ==> ids[i] > r.lastSeen && Find(r.rows, ids[i]) == |r.rows|)
            && SortById(KeptSnapshots(v.atFetch, r.lastSeen, Cutoff(v.now, settings), v.batch))
               == Snapshots(v.atFetch, ids)
  {
    FetchedIdsAreNew(r, v, settings);
    SortedBatch(v.atFetch, r.lastSeen, Cutoff(v.now, settings), v.batch);
  }

  /** What the loops leave is the collection of the model. */
  lemma ResultReports(result: CollectionResult, before: Replica, after: Replica, v: View, settings: Settings)
    requires Valid(before) && ViewOk(before, v, settings)
    requires var ids, stored := FetchedIds(before, v, settings), WithNew(before, v, settings);
             && after.rows == SyncAll(stored, v.atSync, v.now)
             && after.lastSeen == (if ids == [] then before.lastSeen else ids[|ids| - 1])
             && result.Collected? && result.saved == |ids| && result.lastSeen == after.lastSeen
             && result.enqueued == Numbers(|before.rows|, |ids|) + Changed(stored, v.atSync, v.now)
             && result.deleted + result.updated == |Changed(stored, v.atSync, v.now)|
             && result.deleted == DeletedCount(stored, v.atSync)
    ensures Reports(result, before, after, v, settings) && Valid(after)
  {
    CollectKeepsValid(before, v, settings);
  }

  class MessageCollector {
    const settings: Settings
    var rows: seq<Row>
    var lastSeen: int
    var waiting: bool
    var pauseUntil: Option<Time>

    constructor (settings: Settings)
      ensures this.settings == settings && Tables() == Replica([], 0) && Valid(Tables())
      ensures FloodWaits.Collectable(Access(), 0)
    {
      this.settings := settings;
      rows, lastSeen, waiting, pauseUntil := [], 0, false, None;
    }

    function Tables(): Replica
      reads this
    {
      Replica(rows, lastSeen)
    }

    function Access(): FloodWaits.Access
      reads this
    {
      FloodWaits.Access(waiting, pauseUntil)
    }

    method FetchMessageSnapshots(remote: Remote, batch: seq<int>, now: Time) returns (snapshots: seq<Snapshot>)
      requires forall i :: 0 <= i < |batch| ==> batch[i] in remote
      ensures snapshots == KeptSnapshots(remote, lastSeen, Cutoff(now, settings), batch)
    {
      var cutoff := Cutoff(now, settings);
      var isInitialBackfill := lastSeen <= 0;
      snapshots := [];
      for k := 0 to |batch|
        invariant snapshots == KeptSnapshots(remote, lastSeen, cutoff, batch[..k])
      {
        assert batch[..k + 1] == batch[..k] + [batch[k]];
        KeptSnapshotsConcat(remote, lastSeen, cutoff, batch[..k], [batch[k]]);
        var content := remote[batch[k]];
        if isInitialBackfill && content.publishedAt < cutoff {
          continue;
        }
        snapshots := snapshots + [Snapshot(batch[k], content)];
      }
      assert batch[..|batch|] == batch;
    }

    /** Inserts a message the table lacks; brings the one it has up to date, reviving it if it was deleted. */
    method UpsertMessage(s: Snapshot, now: Time) returns (i: nat, changed: bool, inserted: bool)
      modifies this`rows
      ensures i == Find(old(rows), s.tgId)
      ensures inserted <==> i == |old(rows)|
      ensures inserted ==> changed && rows == old(rows) + [NewRow(s, now)]
      ensures !inserted ==> rows == old(rows)[i := ApplySnapshot(old(rows)[i], s.content, now)]
      ensures !inserted ==> (changed <==> !Current(old(rows)[i], s.content))
    {
      i := Find(rows, s.tgId);
      if i == |rows| {
        rows := rows + [Row(s.tgId, s.content, s.content.text, None, now)];
        return i, true, true;
      }
      changed := Apply(i, s.content, now);
      inserted := false;
    }

    method Apply(i: nat, c: Content, now: Time) returns (changed: bool)
      requires i < |rows|
      modifies this`rows
      ensures rows == old(rows)[i := ApplySnapshot(old(rows)[i], c, now)]
      ensures changed <==> !Current(old(rows)[i], c)
    {
      var r := rows[i];
      changed := false;
      if r.content != c {
        r := r.(content := c);
        changed := true;
      }
      if r.deletedAt != None {
        r := r.(deletedAt := None);
        changed := true;
      }
      if r.normalized != c.text {
        r := r.(normalized := c.text);
        changed := true;
      }
      if changed {
        r := r.(collectedAt := now);
      }
      rows := rows[i := r];
    }

    /** One pass over the messages not yet deleted. */
    method SyncExistingMessages(remote: Remote, now: Time) returns (deleted: nat, updated: nat, changedIds: seq<nat>)
      modifies this`rows
      ensures rows == SyncAll(old(rows), remote, now)
      ensures changedIds == Changed(old(rows), remote, now)
      ensures deleted == DeletedCount(old(rows), remote) && deleted + updated == |changedIds|
    {
      deleted, updated, changedIds := 0, 0, [];
      ghost var base := rows;
      for i := 0 to |rows|
        invariant |rows| == |base|
        invariant forall j :: 0 <= j < i ==> rows[j] == Synced(base[j], remote, now)
        invariant forall j :: i <= j < |rows| ==> rows[j] == base[j]
        invariant changedIds == Changed(base[..i], remote, now)
        invariant deleted == DeletedCount(base[..i], remote) && deleted + updated == |changedIds|
      {
        assert base[..i + 1][..i] == base[..i];
        var r := rows[i];
        if r.deletedAt.Some? {
          continue;
        }
        if r.tgId !in remote {
          rows := rows[i := r.(deletedAt := Some(now))];
          deleted := deleted + 1;
          changedIds := changedIds + [i];
          continue;
        }
        var changed := Apply(i, remote[r.tgId], now);
        if changed {
          updated := updated + 1;
          changedIds := changedIds + [i];
        }
      }
      assert base[..|base|] == base;
    }

    /** The loop over fetched snapshots: above the offset there is nothing to update, so each is inserted. */
    method SaveSnapshots(ordered: seq<Snapshot>, now: Time, ghost remote: Remote, ghost ids: seq<int>)
      returns (saved: nat, updated: int, maxSeen: int, enqueued: seq<nat>)
      requires (forall i :: 0 <= i < |ids| ==> ids[i] in remote) && ordered == Snapshots(remote, ids)
      requires Ascending(ids)
      requires forall i :: 0 <= i < |ids| ==> ids[i] > lastSeen && Find(rows, ids[i]) == |rows|
      modifies this`rows
      ensures rows == old(rows) + NewRows(remote, ids, now)
      ensures saved == |ids| && updated == 0
      ensures maxSeen == if ids == [] then lastSeen else ids[|ids| - 1]
      ensures enqueued == Numbers(|old(rows)|, |ids|)
    {
      ghost var before := rows;
      saved, updated, maxSeen, enqueued := 0, 0, lastSeen, [];
      for k := 0 to |ordered|
        invariant rows == before + NewRows(remote, ids[..k], now)
        invariant saved == k && updated == 0
        invariant maxSeen == if k == 0 then lastSeen else ids[k - 1]
        invariant |enqueued| == k && forall i :: 0 <= i < k ==> enqueued[i] == |before| + i
      {
        NotYetStored(before, remote, ids, k, now);
        var i, changed, inserted := UpsertMessage(ordered[k], now);
        maxSeen := if maxSeen < ordered[k].tgId then ordered[k].tgId else maxSeen;
        if inserted {
          saved := saved + 1;
        } else if changed {
          updated := updated + 1;
        }
        if inserted || changed {
          enqueued := enqueued + [i];
        }
        assert NewRows(remote, ids[..k + 1], now) == NewRows(remote, ids[..k], now) + [NewRow(ordered[k], now)];
      }
      assert ids[..|ids|] == ids;
    }

    /** What follows fetching. Every stored, edited or deleted message is enqueued once for each change, and nothing
        else is. A wait met while syncing rolls all of it back. */
    method StoreAndSync(snapshots: seq<Snapshot>, v: View, syncWait: Option<nat>) returns (result: CollectionResult)
      requires Valid(Tables()) && ViewOk(Tables(), v, settings)
      requires snapshots == KeptSnapshots(v.atFetch, lastSeen, Cutoff(v.now, settings), v.batch)
      modifies this`rows, this`lastSeen
      ensures Valid(Tables())
      ensures if syncWait.Some? && KnowsLive(WithNew(old(Tables()), v, settings))
              then result.Raised? && Tables() == old(Tables())
              else Reports(result, old(Tables()), Tables(), v, settings)
    {
      var savedRows := rows;
      ghost var before := Tables();
      ghost var ids := FetchedIds(before, v, settings);
      FetchedInOrder(before, v, settings);

      var ordered := SortById(snapshots);
      var saved, updated, maxSeen, enqueued := SaveSnapshots(ordered, v.now, v.atFetch, ids);
      assert rows == WithNew(before, v, settings);
      if KnowsLive(rows) && syncWait.Some? {
        rows := savedRows;
        return Raised;
      }
      var deleted, synced, changedIds := SyncExistingMessages(v.atSync, v.now);
      updated := updated + synced;
      enqueued := enqueued + changedIds;
      lastSeen := maxSeen;
      result := Collected(saved, updated, deleted, enqueued, maxSeen);
      ResultReports(result, before, Tables(), v, settings);
    }

    /** A wait met while fetching stores nothing and pauses the source. */
    method CollectWithClient(answer: Answer) returns (result: CollectionResult)
      requires Valid(Tables()) && (answer.fetchWait.None? ==> ViewOk(Tables(), answer.view, settings))
      modifies this
      ensures Valid(Tables())
      ensures if answer.fetchWait.Some? then
                var until := answer.view.now + answer.fetchWait.value * SECOND;
                && result == ToldToWait(until) && Access() == FloodWaits.Access(true, Some(until))
                && Tables() == old(Tables())
              else if answer.syncWait.Some? && KnowsLive(WithNew(old(Tables()), answer.view, settings)) then
                result.Raised? && Access() == old(Access()) && Tables() == old(Tables())
              else
                Access() == old(Access()) && Reports(result, old(Tables()), Tables(), answer.view, settings)
    {
      var v := answer.view;
      if answer.fetchWait.Some? {
        waiting := true;
        pauseUntil := Some(v.now + answer.fetchWait.value * SECOND);
        return ToldToWait(pauseUntil.value);
      }
      var snapshots := FetchMessageSnapshots(v.atFetch, v.batch, v.now);
      result := StoreAndSync(snapshots, v, answer.syncWait);
    }

    /** One collection, when this is what it meets. The connection comes before the look at the pause. What it makes
        of the source's access is what the model of waits says, and it raises when that model does. */
    method CollectSource(answer: Answer) returns (result: CollectionResult)
      requires Valid(Tables()) && (answer.fetchWait.None? ==> ViewOk(Tables(), answer.view, settings))
      modifies this
      ensures Valid(Tables())
      ensures var before, c := old(Access()), AttemptOf(old(Tables()), answer, settings);
              var now := answer.view.now;
              && Access() == FloodWaits.Attempted(before, now, c)
              && (result.Raised? <==> FloodWaits.Raises(before, now, c))
              && (result.Skipped? || result.StillPaused?
                  <==> answer.connectWait.None? && !FloodWaits.Collectable(before, now))
              && (result.ToldToWait? <==> FloodWaits.Reads(before, now, c) && answer.fetchWait.Some?)
              && (result.Collected? ==> Reports(result, old(Tables()), Tables(), answer.view, settings))
              && (!result.Collected? ==> Tables() == old(Tables()))
    {
      if answer.connectWait.Some? {
        return Raised;
      }
      if waiting {
        return Skipped;
      }
      if pauseUntil.Some? && pauseUntil.value > answer.view.now {
        return StillPaused;
      }
      result := CollectWithClient(answer);
    }

    /** The maintenance job: waits that are over end. */
    method RecoverFloodWait(now: Time)
      modifies this`waiting, this`pauseUntil
      ensures Access() == FloodWaits.Recovered(old(Access()), now)
    {
      if waiting && pauseUntil.Some? && pauseUntil.value <= now {
        waiting := false;
        pauseUntil := None;
      }
    }
  }

  lemma NotYetStored(stored: seq<Row>, remote: Remote, ids: seq<int>, k: nat, now: Time)
    requires forall i :: 0 <= i < |ids| ==> ids[i] in remote
    requires k < |ids| && Ascending(ids) && Find(stored, ids[k]) == |stored|
    ensures var rows := stored + NewRows(remote, ids[..k], now); Find(rows, ids[k]) == |rows|
  {
    var rows := stored + NewRows(remote, ids[..k], now);
    forall j | 0 <= j < |rows| ensures rows[j].tgId != ids[k] {
      if j < |stored| {
        assert stored[j].tgId != ids[k];
      } else {
        assert rows[j].tgId == ids[j - |stored|];
      }
    }
  }
}
