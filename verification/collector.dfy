/** Collection of one Telegram source (app/collector/messages.py): a local replica of a remote message log. */
module Collector {
  import opened Wrappers
  import opened Instants
  import opened Sequences

  /** The fields of a remote message that its snapshot copies. */
  datatype Content = Content(
    publishedAt: Time, editedAt: Option<Time>, text: Option<string>, views: Option<int>, replies: Option<int>)

  datatype Snapshot = Snapshot(tgId: int, content: Content)

  /** A stored message. `normalized` starts as the text and is rewritten by processing. */
  datatype Row = Row(
    tgId: int, content: Content, normalized: Option<string>, deletedAt: Option<Time>, collectedAt: Time)

  type Remote = map<int, Content>

  datatype Replica = Replica(rows: seq<Row>, lastSeen: int)

  datatype Settings = Settings(batchLimit: nat, backfillDays: int, bufferDays: int)

  predicate Live(r: Row) {
    r.deletedAt.None?
  }

  /** Index of the row with this Telegram id, or the number of rows. */
  function Find(rows: seq<Row>, tgId: int): (i: nat)
    ensures i <= |rows|
    ensures i < |rows| ==> rows[i].tgId == tgId
    ensures forall j :: 0 <= j < i ==> rows[j].tgId != tgId
  {
    if rows == [] then 0
    else
      var last := |rows| - 1;
      var i := Find(rows[..last], tgId);
      if i < last || rows[last].tgId == tgId then i else |rows|
  }

  // ---------- fetching ----------

  predicate New(remote: Remote, lastSeen: int, id: int) {
    id in remote && id > lastSeen
  }

  /** What iter_messages returns: messages above `lastSeen`, newest first, the newest `limit` of them. */
  predicate IsBatch(remote: Remote, lastSeen: int, limit: nat, batch: seq<int>) {
    && |batch| <= limit
    && (forall i :: 0 <= i < |batch| ==> New(remote, lastSeen, batch[i]))
    && (forall i, j :: 0 <= i < j < |batch| ==> batch[i] > batch[j])
    && (forall id :: id in remote && id > lastSeen && id !in batch ==>
          |batch| == limit && forall i :: 0 <= i < |batch| ==> id < batch[i])
  }

  function NewSet(remote: Remote, lastSeen: int): set<int> {
    set id | id in remote && id > lastSeen
  }

  /** Telegram can always answer so, whatever the log and the limit. */
  lemma {:induction false} SomeBatchExists(remote: Remote, lastSeen: int, limit: nat) returns (batch: seq<int>)
    ensures IsBatch(remote, lastSeen, limit, batch)
    decreases limit
  {
    var added := NewSet(remote, lastSeen);
    if limit == 0 || added == {} {
      batch := [];
      assert forall id :: id in remote && id > lastSeen ==> id in added;
    } else {
      var newest := Greatest(added);
      var rest := SomeBatchExists(remote - {newest}, lastSeen, limit - 1);
      batch := [newest] + rest;
      forall i | 0 <= i < |rest| ensures rest[i] < newest && New(remote, lastSeen, rest[i]) {
        assert New(remote - {newest}, lastSeen, rest[i]);
        assert rest[i] in added;
      }
      forall id | id in remote && id > lastSeen && id !in batch
        ensures |batch| == limit && forall i :: 0 <= i < |batch| ==> id < batch[i]
      {
        assert id in added && id in remote - {newest} && id !in rest;
      }
    }
  }

  lemma {:induction false} Greatest(ids: set<int>) returns (m: int)
    requires ids != {}
    ensures m in ids && forall id :: id in ids ==> id <= m
    decreases ids
  {
    m := AnyElement(ids);
    var first, others := m, ids - {m};
    if others != {} {
      var other := Greatest(others);
      m := if other > first then other else first;
    }
    forall id | id in ids ensures id <= m {
      assert id == first || id in others;
    }
  }

  /** One collection's view of Telegram: the log when new messages are fetched and when known ones are synced,
      and the batch the fetch returned. */
  datatype View = View(atFetch: Remote, atSync: Remote, batch: seq<int>, now: Time)

  predicate ViewOk(r: Replica, v: View, settings: Settings) {
    IsBatch(v.atFetch, r.lastSeen, settings.batchLimit, v.batch)
  }

  function Cutoff(now: Time, settings: Settings): Time {
    now - (settings.backfillDays + settings.bufferDays) * DAY
  }

  /** The initial backfill drops messages from before the cutoff; later fetches keep everything. */
  predicate Kept(lastSeen: int, cutoff: Time, c: Content) {
    lastSeen > 0 || c.publishedAt >= cutoff
  }

  /** The kept ids of a batch, oldest first. */
  function KeptIds(remote: Remote, lastSeen: int, cutoff: Time, batch: seq<int>): seq<int>
    requires forall i :: 0 <= i < |batch| ==> batch[i] in remote
  {
    if batch == [] then []
    else
      KeptIds(remote, lastSeen, cutoff, batch[1..])
      + (if Kept(lastSeen, cutoff, remote[batch[0]]) then [batch[0]] else [])
  }

  function NewRow(s: Snapshot, now: Time): Row {
    Row(s.tgId, s.content, s.content.text, None, now)
  }

  function NewRows(remote: Remote, ids: seq<int>, now: Time): (rows: seq<Row>)
    requires forall i :: 0 <= i < |ids| ==> ids[i] in remote
  {
    seq(|ids|, i requires 0 <= i < |ids| => NewRow(Snapshot(ids[i], remote[ids[i]]), now))
  }

  // ---------- syncing ----------

  predicate Current(r: Row, c: Content) {
    r.content == c && r.normalized == c.text && Live(r)
  }

  function ApplySnapshot(r: Row, c: Content, now: Time): Row {
    if Current(r, c) then r else Row(r.tgId, c, c.text, None, now)
  }

  /** Afterwards the row shows the message and is live; it is written, and dated, exactly when it was not so before. */
  lemma AppliedShowsTheMessage(r: Row, c: Content, now: Time)
    ensures var r' := ApplySnapshot(r, c, now);
            && r'.tgId == r.tgId && r'.content == c && r'.normalized == c.text && r'.deletedAt.None?
            && (r.content == c && r.normalized == c.text && r.deletedAt.None? ==> r' == r)
            && (r' != r ==> r'.collectedAt == now)
            && (Current(r, c) <==> r' == r)
  {
  }

  /** A live message is brought up to date, or marked deleted when the remote no longer has it. */
  function Synced(r: Row, remote: Remote, now: Time): Row {
    if !Live(r) then r
    else if r.tgId !in remote then r.(deletedAt := Some(now))
    else ApplySnapshot(r, remote[r.tgId], now)
  }

  function SyncAll(rows: seq<Row>, remote: Remote, now: Time): seq<Row> {
    seq(|rows|, i requires 0 <= i < |rows| => Synced(rows[i], remote, now))
  }

  function DeletedCount(rows: seq<Row>, remote: Remote): nat {
    if rows == [] then 0
    else
      var r := rows[|rows| - 1];
      DeletedCount(rows[..|rows| - 1], remote) + (if Live(r) && r.tgId !in remote then 1 else 0)
  }

  /** Indices of the rows that a sync changes, in order. */
  function Changed(rows: seq<Row>, remote: Remote, now: Time): seq<nat> {
    if rows == [] then []
    else
      var n := |rows| - 1;
      Changed(rows[..n], remote, now) + (if Synced(rows[n], remote, now) != rows[n] then [n] else [])
  }

  // ---------- one collection ----------

  /** The rows after saving what was fetched, before the sync. */
  function WithNew(r: Replica, v: View, settings: Settings): seq<Row>
    requires ViewOk(r, v, settings)
  {
    r.rows + NewRows(v.atFetch, FetchedIds(r, v, settings), v.now)
  }

  function FetchedIds(r: Replica, v: View, settings: Settings): (ids: seq<int>)
    requires ViewOk(r, v, settings)
    ensures forall i :: 0 <= i < |ids| ==> ids[i] in v.atFetch
  {
    KeptIdsFromBatch(v.atFetch, r.lastSeen, Cutoff(v.now, settings), v.batch);
    KeptIds(v.atFetch, r.lastSeen, Cutoff(v.now, settings), v.batch)
  }

  function Collect(r: Replica, v: View, settings: Settings): Replica
    requires ViewOk(r, v, settings)
  {
    var ids := FetchedIds(r, v, settings);
    Replica(SyncAll(WithNew(r, v, settings), v.atSync, v.now), if ids == [] then r.lastSeen else ids[|ids| - 1])
  }

  /** So many numbers from this one on. */
  function Numbers(first: nat, n: nat): (numbers: seq<nat>)
    ensures |numbers| == n && forall i :: 0 <= i < n ==> numbers[i] == first + i
  {
    seq(n, i requires 0 <= i < n => first + i)
  }

  function Enqueued(r: Replica, v: View, settings: Settings): seq<nat>
    requires ViewOk(r, v, settings)
  {
    var ids := FetchedIds(r, v, settings);
    Numbers(|r.rows|, |ids|) + Changed(WithNew(r, v, settings), v.atSync, v.now)
  }

  predicate Ascending(ids: seq<int>) {
    forall i, j :: 0 <= i < j < |ids| ==> ids[i] < ids[j]
  }

  lemma {:induction false} KeptIdsFromBatch(remote: Remote, lastSeen: int, cutoff: Time, batch: seq<int>)
    requires forall i :: 0 <= i < |batch| ==> batch[i] in remote
    ensures var ids := KeptIds(remote, lastSeen, cutoff, batch);
            && (forall id :: id in ids <==> id in batch && id in remote && Kept(lastSeen, cutoff, remote[id]))
            && (forall i :: 0 <= i < |ids| ==> ids[i] in remote)
  {
    if batch == [] {
    } else {
      KeptIdsFromBatch(remote, lastSeen, cutoff, batch[1..]);
      assert batch == [batch[0]] + batch[1..];
    }
  }

  lemma {:induction false} KeptIdsAscend(remote: Remote, lastSeen: int, cutoff: Time, batch: seq<int>)
    requires forall i :: 0 <= i < |batch| ==> batch[i] in remote
    requires forall i, j :: 0 <= i < j < |batch| ==> batch[i] > batch[j]
    ensures Ascending(KeptIds(remote, lastSeen, cutoff, batch))
  {
    if batch == [] {
    } else {
      var rest := KeptIds(remote, lastSeen, cutoff, batch[1..]);
      KeptIdsAscend(remote, lastSeen, cutoff, batch[1..]);
      KeptIdsFromBatch(remote, lastSeen, cutoff, batch[1..]);
      forall i | 0 <= i < |rest| ensures rest[i] < batch[0] {
        assert rest[i] in rest;
        var j :| 0 <= j < |batch[1..]| && batch[1..][j] == rest[i];
        assert batch[j + 1] == rest[i];
      }
    }
  }

  // ---------- the reachable replicas ----------

  /** Ids are unique and never above the offset. */
  predicate Valid(r: Replica) {
    && r.lastSeen >= 0
    && (forall i :: 0 <= i < |r.rows| ==> r.rows[i].tgId <= r.lastSeen)
    && (forall i, j :: 0 <= i < j < |r.rows| ==> r.rows[i].tgId != r.rows[j].tgId)
  }

  /** Everything fetched is above the offset, so no stored message is ever met again by its id. */
  lemma FetchedIdsAreNew(r: Replica, v: View, settings: Settings)
    requires Valid(r) && ViewOk(r, v, settings)
    ensures var ids := FetchedIds(r, v, settings);
            && Ascending(ids)
            && (forall i :: 0 <= i < |ids| ==> ids[i] > r.lastSeen && Find(r.rows, ids[i]) == |r.rows|)
            && (forall i :: 0 <= i < |ids| ==> ids[i] <= Collect(r, v, settings).lastSeen)
            && r.lastSeen <= Collect(r, v, settings).lastSeen
  {
    var ids := FetchedIds(r, v, settings);
    KeptIdsFromBatch(v.atFetch, r.lastSeen, Cutoff(v.now, settings), v.batch);
    KeptIdsAscend(v.atFetch, r.lastSeen, Cutoff(v.now, settings), v.batch);
    forall i | 0 <= i < |ids| ensures ids[i] > r.lastSeen {
      assert ids[i] in ids;
      var j :| 0 <= j < |v.batch| && v.batch[j] == ids[i];
      assert New(v.atFetch, r.lastSeen, v.batch[j]);
    }
  }

  lemma CollectKeepsValid(r: Replica, v: View, settings: Settings)
    requires Valid(r) && ViewOk(r, v, settings)
    ensures Valid(Collect(r, v, settings))
  {
    var ids, r' := FetchedIds(r, v, settings), Collect(r, v, settings);
    FetchedIdsAreNew(r, v, settings);
    forall i | 0 <= i < |r'.rows|
      ensures r'.rows[i].tgId == if i < |r.rows| then r.rows[i].tgId else ids[i - |r.rows|]
    {
    }
  }

  // ---------- runs ----------

  /** A collection, one that failed or was refused, or processing of one stored message. */
  datatype Step = Collection(v: View) | Failure | Process(i: nat, normalized: Option<string>)

  predicate Enabled(r: Replica, s: Step, settings: Settings) {
    match s
    case Collection(v) => ViewOk(r, v, settings)
    case Failure => true
    case Process(i, _) => i < |r.rows|
  }

  function Take(r: Replica, s: Step, settings: Settings): Replica
    requires Enabled(r, s, settings)
  {
    match s
    case Collection(v) => Collect(r, v, settings)
    case Failure => r
    case Process(i, normalized) => r.(rows := r.rows[i := r.rows[i].(normalized := normalized)])
  }

  ghost predicate Run(r: Replica, steps: seq<Step>, r': Replica, settings: Settings)
    decreases |steps|
  {
    if steps == [] then r' == r
    else Enabled(r, steps[0], settings) && Run(Take(r, steps[0], settings), steps[1..], r', settings)
  }

  predicate Stored(r: Replica, id: int) {
    exists i :: 0 <= i < |r.rows| && r.rows[i].tgId == id
  }

  /** What a step never undoes. */
  predicate Extends(r: Replica, r': Replica) {
    && r.lastSeen <= r'.lastSeen && |r.rows| <= |r'.rows|
    && (forall i :: 0 <= i < |r.rows| ==>
          && r'.rows[i].tgId == r.rows[i].tgId
          && (!Live(r.rows[i]) ==>
                r'.rows[i].deletedAt == r.rows[i].deletedAt && r'.rows[i].content == r.rows[i].content))
    && (forall i :: |r.rows| <= i < |r'.rows| ==> r'.rows[i].tgId > r.lastSeen)
  }

  lemma StepExtends(r: Replica, s: Step, settings: Settings)
    requires Valid(r) && Enabled(r, s, settings)
    ensures Valid(Take(r, s, settings)) && Extends(r, Take(r, s, settings))
  {
    if s.Collection? {
      CollectKeepsValid(r, s.v, settings);
      FetchedIdsAreNew(r, s.v, settings);
    }
  }

  /** Over every run, with processing and failures in between: ids stay unique and below the offset, the offset
      never moves back, a deleted message is never revived, and only ids above the old offset are added. */
  lemma {:induction false} ReplicaOverRuns(r: Replica, steps: seq<Step>, r': Replica, settings: Settings)
    requires Valid(r) && Run(r, steps, r', settings)
    ensures Valid(r') && Extends(r, r')
    decreases |steps|
  {
    if steps == [] {
    } else {
      StepExtends(r, steps[0], settings);
      ReplicaOverRuns(Take(r, steps[0], settings), steps[1..], r', settings);
    }
  }

  /** A message that was not stored when the offset passed it is never stored. */
  lemma SkippedForever(r: Replica, steps: seq<Step>, r': Replica, settings: Settings, id: int)
    requires Valid(r) && Run(r, steps, r', settings)
    requires id <= r.lastSeen && !Stored(r, id)
    ensures !Stored(r', id)
  {
    ReplicaOverRuns(r, steps, r', settings);
    forall i | 0 <= i < |r'.rows| ensures r'.rows[i].tgId != id {
      assert i < |r.rows| ==> r.rows[i].tgId != id;
    }
  }

  /** A collection misses nothing exactly when the new messages fit its batch and none is dropped as too old. */
  lemma NothingMissedIff(r: Replica, v: View, settings: Settings)
    requires Valid(r) && ViewOk(r, v, settings)
    ensures (forall id :: id in NewSet(v.atFetch, r.lastSeen) ==> Stored(Collect(r, v, settings), id))
            <==> |NewSet(v.atFetch, r.lastSeen)| <= settings.batchLimit
                 && forall id :: id in NewSet(v.atFetch, r.lastSeen) ==>
                      || r.lastSeen > 0
                      || v.now - v.atFetch[id].publishedAt
                         <= (settings.backfillDays + settings.bufferDays) * 86_400_000_000
  {
    var added, batch := NewSet(v.atFetch, r.lastSeen), Elements(v.batch);
    DistinctCardinality(v.batch);
    assert batch <= added;
    SubsetCardinality(batch, added);
    forall id | id in added
      ensures Stored(Collect(r, v, settings), id)
              <==> id in v.batch && Kept(r.lastSeen, Cutoff(v.now, settings), v.atFetch[id])
    {
      StoredIffKept(r, v, settings, id);
    }
    if |added| <= settings.batchLimit {
      assert batch == added;
    } else {
      assert batch != added;
      var id :| id in added && id !in batch;
    }
  }

  lemma FromEitherPart(r: Replica, v: View, settings: Settings, id: int)
    requires ViewOk(r, v, settings)
    ensures Stored(Collect(r, v, settings), id) <==> Stored(r, id) || id in FetchedIds(r, v, settings)
  {
    var ids, r' := FetchedIds(r, v, settings), Collect(r, v, settings);
    assert forall i | 0 <= i < |r'.rows| ::
        r'.rows[i].tgId == if i < |r.rows| then r.rows[i].tgId else ids[i - |r.rows|];
    if id in ids {
      var i :| 0 <= i < |ids| && ids[i] == id;
      assert r'.rows[|r.rows| + i].tgId == id;
    }
    if Stored(r, id) {
      var i :| 0 <= i < |r.rows| && r.rows[i].tgId == id;
      assert r'.rows[i].tgId == id;
    }
  }

  lemma StoredIffKept(r: Replica, v: View, settings: Settings, id: int)
    requires Valid(r) && ViewOk(r, v, settings) && New(v.atFetch, r.lastSeen, id)
    ensures Stored(Collect(r, v, settings), id)
            <==> id in v.batch && Kept(r.lastSeen, Cutoff(v.now, settings), v.atFetch[id])
  {
    KeptIdsFromBatch(v.atFetch, r.lastSeen, Cutoff(v.now, settings), v.batch);
    FromEitherPart(r, v, settings, id);
  }

  // ---------- convergence ----------

  /** After a collection a message that was live or new is live and equals its remote original exactly when the
      remote has it, is marked deleted now when the remote lacks it, and what was deleted before is left alone. */
  lemma CollectionConverges(r: Replica, v: View, settings: Settings)
    requires ViewOk(r, v, settings)
    ensures var r' := Collect(r, v, settings);
            forall i :: 0 <= i < |r'.rows| ==>
              && (r'.rows[i].deletedAt.None? ==>
                    && r'.rows[i].tgId in v.atSync && r'.rows[i].content == v.atSync[r'.rows[i].tgId]
                    && r'.rows[i].normalized == r'.rows[i].content.text)
              && (i < |r.rows| && r.rows[i].deletedAt.Some? ==> r'.rows[i] == r.rows[i])
              && (i >= |r.rows| || r.rows[i].deletedAt.None? ==>
                    r'.rows[i].deletedAt == if r'.rows[i].tgId in v.atSync then None else Some(v.now))
  {
    var r' := Collect(r, v, settings);
    forall i | 0 <= i < |r'.rows| ensures r'.rows[i] == Synced(WithNew(r, v, settings)[i], v.atSync, v.now) {}
  }

  /** What a collection stores: of its batch, everything once something has been seen, and to begin with what is at most
      as many days old as the backfill and its buffer last. The new offset is the greatest id stored. */
  lemma CollectedByAge(r: Replica, v: View, settings: Settings, id: int)
    requires Valid(r) && ViewOk(r, v, settings)
    ensures var r' := Collect(r, v, settings);
            && (id in v.batch ==>
                  id in v.atFetch
                  && (Stored(r', id) <==>
                        r.lastSeen > 0
                        || v.now - v.atFetch[id].publishedAt
                           <= (settings.backfillDays + settings.bufferDays) * 86_400_000_000))
            && (id !in v.batch ==> (Stored(r', id) <==> Stored(r, id)))
            && (Stored(r', id) ==> id <= r'.lastSeen)
            && (r'.lastSeen == r.lastSeen || (r'.lastSeen in v.batch && Stored(r', r'.lastSeen)))
  {
    var ids, r' := FetchedIds(r, v, settings), Collect(r, v, settings);
    KeptIdsFromBatch(v.atFetch, r.lastSeen, Cutoff(v.now, settings), v.batch);
    CollectKeepsValid(r, v, settings);
    FromEitherPart(r, v, settings, id);
    if id in v.batch {
      assert New(v.atFetch, r.lastSeen, id);
    }
    if ids != [] {
      FromEitherPart(r, v, settings, ids[|ids| - 1]);
    }
  }

  /** A row that a collection writes is dated, unless it is only marked deleted, which changes nothing else. */
  lemma WrittenRowsAreDated(r: Replica, v: View, settings: Settings, i: nat)
    requires ViewOk(r, v, settings) && i < |Collect(r, v, settings).rows|
    ensures var row := Collect(r, v, settings).rows[i];
            if i >= |r.rows| then row.collectedAt == v.now
            else if row == r.rows[i] then true
            else if row.deletedAt.Some? then row == r.rows[i].(deletedAt := Some(v.now))
            else row.collectedAt == v.now
  {
    assert Collect(r, v, settings).rows[i] == Synced(WithNew(r, v, settings)[i], v.atSync, v.now);
  }

  // ---------- what is processed again ----------

  lemma {:induction false} ChangedOnce(rows: seq<Row>, remote: Remote, now: Time, i: nat)
    ensures multiset(Changed(rows, remote, now))[i]
            == if i < |rows| && SyncAll(rows, remote, now)[i] != rows[i] then 1 else 0
  {
    if rows == [] {
    } else {
      ChangedOnce(rows[..|rows| - 1], remote, now, i);
    }
  }

  lemma {:induction false} NumbersOnce(first: nat, n: nat, i: nat)
    ensures multiset(Numbers(first, n))[i] == if first <= i < first + n then 1 else 0
    decreases n
  {
    if n == 0 {
    } else {
      NumbersOnce(first, n - 1, i);
      assert Numbers(first, n) == Numbers(first, n - 1) + [first + n - 1];
    }
  }

  /** A message is enqueued once for being stored and once for being edited or deleted, an old one exactly when the
      collection changes its row. */
  lemma EnqueuedOncePerChange(r: Replica, v: View, settings: Settings, i: nat)
    requires ViewOk(r, v, settings)
    ensures var r' := Collect(r, v, settings);
            var times := multiset(Enqueued(r, v, settings))[i];
            if i >= |r'.rows| then times == 0
            else if i < |r.rows| then times == if r'.rows[i] != r.rows[i] then 1 else 0
            else
              var id := r'.rows[i].tgId;
              id in v.atFetch && times == if id in v.atSync && v.atSync[id] == v.atFetch[id] then 1 else 2
  {
    var rows, n := WithNew(r, v, settings), |FetchedIds(r, v, settings)|;
    ChangedOnce(rows, v.atSync, v.now, i);
    NumbersOnce(|r.rows|, n, i);
    CountOfConcat(Numbers(|r.rows|, n), Changed(rows, v.atSync, v.now), i);
    if i < |rows| {
      NewRowsAre(r, v, settings, i);
    }
  }

  lemma CountOfConcat(a: seq<nat>, b: seq<nat>, i: nat)
    ensures multiset(a + b)[i] == multiset(a)[i] + multiset(b)[i]
  {
  }

  lemma NewRowsAre(r: Replica, v: View, settings: Settings, i: nat)
    requires ViewOk(r, v, settings) && i < |Collect(r, v, settings).rows|
    ensures var rows, r' := WithNew(r, v, settings), Collect(r, v, settings);
            && r'.rows == SyncAll(rows, v.atSync, v.now)
            && (i < |r.rows| ==> rows[i] == r.rows[i])
            && (i >= |r.rows| ==>
                  var id := r'.rows[i].tgId;
                  && id in v.atFetch && rows[i] == NewRow(Snapshot(id, v.atFetch[id]), v.now)
                  && (r'.rows[i] == rows[i] <==> id in v.atSync && v.atSync[id] == v.atFetch[id]))
  {
    assert Collect(r, v, settings).rows[i] == Synced(WithNew(r, v, settings)[i], v.atSync, v.now);
  }

  function WentAway(rows: seq<Row>, synced: seq<Row>): set<nat>
    requires |synced| == |rows|
  {
    set i: nat | i < |rows| && rows[i].deletedAt.None? && synced[i].deletedAt.Some?
  }

  lemma OneMoreAway(rows: seq<Row>, synced: seq<Row>)
    requires |synced| == |rows| > 0
    ensures var n := |rows| - 1;
            |WentAway(rows, synced)|
            == |WentAway(rows[..n], synced[..n])|
               + (if rows[n].deletedAt.None? && synced[n].deletedAt.Some? then 1 else 0)
  {
    var n := |rows| - 1;
    var before := WentAway(rows[..n], synced[..n]);
    assert WentAway(rows, synced) == before + if n in WentAway(rows, synced) then {n} else {};
  }

  /** The deletions counted are the rows that were live and no longer are. */
  lemma {:induction false} DeletedAreCounted(rows: seq<Row>, remote: Remote, now: Time)
    ensures DeletedCount(rows, remote) == |WentAway(rows, SyncAll(rows, remote, now))|
  {
    if rows == [] {
      assert WentAway(rows, SyncAll(rows, remote, now)) == {};
    } else {
      var n := |rows| - 1;
      DeletedAreCounted(rows[..n], remote, now);
      OneMoreAway(rows, SyncAll(rows, remote, now));
      assert SyncAll(rows, remote, now)[..n] == SyncAll(rows[..n], remote, now);
    }
  }

  // ---------- collecting again ----------

  /** A fetched message that the backfill keeps. */
  predicate KeptOf(r: Replica, v: View, settings: Settings, id: int) {
    id in v.batch && id in v.atFetch && Kept(r.lastSeen, Cutoff(v.now, settings), v.atFetch[id])
  }

  /** The backfill keeps something and drops this message, which lies above everything it keeps. */
  ghost predicate Straggler(r: Replica, v: View, settings: Settings, id: int) {
    && id in v.batch && id in v.atFetch && !Kept(r.lastSeen, Cutoff(v.now, settings), v.atFetch[id])
    && (exists k :: KeptOf(r, v, settings, k))
    && (forall k :: KeptOf(r, v, settings, k) ==> k < id)
  }

  /** The new offset is the greatest kept id, so a straggler is a dropped message above it. */
  lemma StragglerIsAboveOffset(r: Replica, v: View, settings: Settings, id: int)
    requires Valid(r) && ViewOk(r, v, settings)
    ensures Straggler(r, v, settings, id)
            <==> && id in v.batch && id in v.atFetch && !Kept(r.lastSeen, Cutoff(v.now, settings), v.atFetch[id])
                 && id > Collect(r, v, settings).lastSeen > 0
  {
    var ids := FetchedIds(r, v, settings);
    FetchedIdsAreNew(r, v, settings);
    KeptIdsFromBatch(v.atFetch, r.lastSeen, Cutoff(v.now, settings), v.batch);
    forall k ensures k in ids <==> KeptOf(r, v, settings, k) {
    }
    if ids != [] {
      assert KeptOf(r, v, settings, ids[|ids| - 1]);
      forall k | k in ids ensures k <= ids[|ids| - 1] {
        var i :| 0 <= i < |ids| && ids[i] == k;
      }
    }
  }

  /** With the remote unchanged, a second collection changes nothing and enqueues nothing, exactly when the
      initial backfill kept nothing or dropped no message above everything it kept. */
  lemma SecondCollectionIsIdleIff(r: Replica, v: View, w: View, settings: Settings)
    requires Valid(r) && ViewOk(r, v, settings) && ViewOk(Collect(r, v, settings), w, settings)
    requires v.atFetch == v.atSync == w.atFetch == w.atSync && v.now <= w.now
    ensures var r' := Collect(r, v, settings);
            (Collect(r', w, settings) == r' && Enqueued(r', w, settings) == [])
            <==> !exists id :: Straggler(r, v, settings, id)
  {
    var r' := Collect(r, v, settings);
    CollectKeepsValid(r, v, settings);
    KeptIdsFromBatch(w.atFetch, r'.lastSeen, Cutoff(w.now, settings), w.batch);
    var ids := FetchedIds(r', w, settings);
    if exists id :: Straggler(r, v, settings, id) {
      var id :| Straggler(r, v, settings, id);
      StragglerIsAboveOffset(r, v, settings, id);
      assert New(w.atFetch, r'.lastSeen, id);
      assert w.batch != [];
      assert w.batch[0] in ids;
      assert Enqueued(r', w, settings) != [];
    } else {
      if ids != [] {
        FetchedAgainIsStraggler(r, v, w, settings, ids[0]);
        assert false;
      }
      NothingToSync(r, v, w, settings);
    }
  }

  lemma NothingToSync(r: Replica, v: View, w: View, settings: Settings)
    requires Valid(r) && ViewOk(r, v, settings) && ViewOk(Collect(r, v, settings), w, settings)
    requires v.atSync == w.atSync && FetchedIds(Collect(r, v, settings), w, settings) == []
    ensures var r' := Collect(r, v, settings); Collect(r', w, settings) == r' && Enqueued(r', w, settings) == []
  {
    var r' := Collect(r, v, settings);
    CollectionConverges(r, v, settings);
    assert WithNew(r', w, settings) == r'.rows;
    forall i | 0 <= i < |r'.rows| ensures Synced(r'.rows[i], w.atSync, w.now) == r'.rows[i] {}
    NoneChanged(r'.rows, w.atSync, w.now);
  }

  lemma {:induction false} NoneChanged(rows: seq<Row>, remote: Remote, now: Time)
    requires forall i :: 0 <= i < |rows| ==> Synced(rows[i], remote, now) == rows[i]
    ensures Changed(rows, remote, now) == []
  {
    if rows == [] {
    } else {
      NoneChanged(rows[..|rows| - 1], remote, now);
    }
  }

  lemma FetchedAgainIsStraggler(r: Replica, v: View, w: View, settings: Settings, id: int)
    requires Valid(r) && ViewOk(r, v, settings) && ViewOk(Collect(r, v, settings), w, settings)
    requires v.atFetch == w.atFetch && v.now <= w.now
    requires id in FetchedIds(Collect(r, v, settings), w, settings)
    ensures Straggler(r, v, settings, id)
  {
    var r' := Collect(r, v, settings);
    FetchedIdsAreNew(r, v, settings);
    KeptIdsFromBatch(v.atFetch, r.lastSeen, Cutoff(v.now, settings), v.batch);
    KeptIdsFromBatch(w.atFetch, r'.lastSeen, Cutoff(w.now, settings), w.batch);
    var ids := FetchedIds(r, v, settings);
    assert New(w.atFetch, r'.lastSeen, id);
    assert id !in ids;
    if ids == [] {
      assert r'.lastSeen == r.lastSeen;
      BatchIsUnique(v.atFetch, r.lastSeen, settings.batchLimit, v.batch, w.batch, id);
      assert false;
    }
    assert ids[0] in ids && ids[0] in v.batch && ids[0] <= r'.lastSeen < id;
    StragglerIsAboveOffset(r, v, settings, id);
  }

  lemma BatchIsUnique(remote: Remote, lastSeen: int, limit: nat, a: seq<int>, b: seq<int>, id: int)
    requires IsBatch(remote, lastSeen, limit, a) && IsBatch(remote, lastSeen, limit, b) && id in b
    ensures id in a
  {
    assert New(remote, lastSeen, id) && id in Elements(b);
    if id !in a {
      // Then `a` is full of ids above `id`, and one of them is missing from `b`, which holds `id` instead.
      DistinctCardinality(a);
      DistinctCardinality(b);
      if Elements(a) <= Elements(b) {
        SubsetCardinality(Elements(a), Elements(b));
      }
    }
  }

  /** Such a backfill exists: a message with a higher id but an older date is dropped first and fetched next. */
  lemma StragglerExists() returns (r: Replica, v: View, settings: Settings)
    ensures Valid(r) && ViewOk(r, v, settings) && Straggler(r, v, settings, 2)
  {
    settings := Settings(500, 7, 1);
    r := Replica([], 0);
    var recent, aged := Content(0, None, None, None, None), Content(-9 * DAY, None, None, None, None);
    var remote: Remote := map[1 := recent, 2 := aged];
    v := View(remote, remote, [2, 1], 0);
    assert KeptOf(r, v, settings, 1);
  }

  /** Processing rewrites the normalized text; the next sync of an unchanged message takes that for an edit,
      puts the raw text back and enqueues the message again, exactly when the two texts differ. */
  lemma ProcessingIsUndoneIff(r: Replica, v: View, w: View, settings: Settings, i: nat, normalized: Option<string>)
    requires Valid(r) && ViewOk(r, v, settings) && v.atSync == w.atSync
    requires i < |Collect(r, v, settings).rows| && Live(Collect(r, v, settings).rows[i])
    requires var p := Take(Collect(r, v, settings), Process(i, normalized), settings); ViewOk(p, w, settings)
    ensures var p := Take(Collect(r, v, settings), Process(i, normalized), settings);
            && Collect(p, w, settings).rows[i].normalized == p.rows[i].content.text
            && (i in Enqueued(p, w, settings) <==> normalized != p.rows[i].content.text)
  {
    var p := Take(Collect(r, v, settings), Process(i, normalized), settings);
    CollectionConverges(r, v, settings);
    var rows := WithNew(p, w, settings);
    assert rows[i] == p.rows[i];
    ChangedAre(rows, w.atSync, w.now, i);
  }

  lemma {:induction false} ChangedAre(rows: seq<Row>, remote: Remote, now: Time, i: nat)
    ensures i in Changed(rows, remote, now) <==> i < |rows| && Synced(rows[i], remote, now) != rows[i]
  {
    if rows == [] {
    } else {
      ChangedAre(rows[..|rows| - 1], remote, now, i);
    }
  }
}
