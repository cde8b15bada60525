/** The tables the analyzer keeps between cycles, as in-memory state: the
    file table giving each (host, path) a stable id, the checkpoint table
    keyed by file id, and the append-only event table. */
module CheckpointStore {
  import opened LogTypes

  class Store {
    /** files: (host, path) -> id, unique on (host, path). */
    var files: map<SourceId, nat>
    /** The id the next new file row receives. */
    var nextId: nat
    /** checkpoints: file id -> (offset, mtime). */
    var checkpoints: map<nat, Checkpoint>
    /** The event rows, in insertion order. */
    var events: seq<Event>

    /** Ids are positive, below nextId and unique; every checkpoint row
        belongs to a file row (the foreign key). */
    ghost predicate Valid()
      reads this
    {
      && 0 < nextId
      && (forall s :: s in files ==> 0 < files[s] < nextId)
      && (forall s, t :: s in files && t in files && files[s] == files[t] ==> s == t)
      && (forall id :: id in checkpoints ==> id in files.Values)
    }

    /** The checkpoint the table reports for a file id: its row, or (0, 0). */
    ghost function StoredAt(id: nat): Checkpoint
      reads this
    {
      if id in checkpoints then checkpoints[id] else DEFAULT_CHECKPOINT
    }

    /** The checkpoint of a source as get_checkpoint would report it. */
    ghost function CheckpointFor(sid: SourceId): Checkpoint
      reads this
    {
      if sid in files then StoredAt(files[sid]) else DEFAULT_CHECKPOINT
    }

    /** The checkpoint rows seen per source. */
    ghost function Snapshot(): (m: map<SourceId, Checkpoint>)
      reads this
      ensures forall sid :: Lookup(m, sid) == CheckpointFor(sid)
    {
      map sid | sid in files :: StoredAt(files[sid])
    }

    constructor ()
      ensures Valid()
      ensures files == map[] && checkpoints == map[] && events == []
    {
      files := map[];
      nextId := 1;
      checkpoints := map[];
      events := [];
    }

    /** upsert_file_id: insert the (host, path) row unless present, then
        return its id. The same source always gets the same id. */
    method UpsertFileId(sid: SourceId) returns (id: nat)
      requires Valid()
      modifies this
      ensures Valid()
      ensures sid in files && files[sid] == id
      ensures sid in old(files) ==> id == old(files)[sid] && files == old(files)
      ensures sid !in old(files) ==> id !in old(files).Values && files == old(files)[sid := id]
      ensures checkpoints == old(checkpoints) && events == old(events)
      ensures forall s :: CheckpointFor(s) == old(CheckpointFor(s))
    {
      if sid !in files {
        id := nextId;
        ghost var before := files;
        files := files[sid := id];
        nextId := nextId + 1;
        assert forall s :: s in before ==> s in files && files[s] == before[s];
      } else {
        id := files[sid];
      }
    }

    /** get_checkpoint: the stored row, or (0, 0) after inserting that
        default row. Either way no source's reported checkpoint changes. */
    method GetCheckpoint(id: nat) returns (cp: Checkpoint)
      requires Valid() && id in files.Values
      modifies this
      ensures Valid()
      ensures cp == old(StoredAt(id))
      ensures id in old(checkpoints) ==> checkpoints == old(checkpoints)
      ensures id !in old(checkpoints) ==> checkpoints == old(checkpoints)[id := DEFAULT_CHECKPOINT]
      ensures files == old(files) && nextId == old(nextId) && events == old(events)
      ensures forall s :: CheckpointFor(s) == old(CheckpointFor(s))
    {
      if id in checkpoints {
        cp := checkpoints[id];
      } else {
        checkpoints := checkpoints[id := DEFAULT_CHECKPOINT];
        cp := DEFAULT_CHECKPOINT;
      }
    }

    /** update_checkpoint: insert or overwrite the row of one file id;
        every other source keeps its checkpoint. */
    method UpdateCheckpoint(id: nat, offset: nat, mtime: int)
      requires Valid() && id in files.Values
      modifies this
      ensures Valid()
      ensures checkpoints == old(checkpoints)[id := Checkpoint(offset, mtime)]
      ensures files == old(files) && nextId == old(nextId) && events == old(events)
      ensures forall s :: s in files && files[s] == id ==> CheckpointFor(s) == Checkpoint(offset, mtime)
      ensures forall s :: !(s in files && files[s] == id) ==> CheckpointFor(s) == old(CheckpointFor(s))
    {
      checkpoints := checkpoints[id := Checkpoint(offset, mtime)];
    }

    /** The event INSERT: rows are only ever appended. */
    method AppendEvents(batch: seq<Event>)
      requires Valid()
      modifies this
      ensures Valid()
      ensures events == old(events) + batch
      ensures files == old(files) && nextId == old(nextId) && checkpoints == old(checkpoints)
    {
      events := events + batch;
    }
  }

  /** A checkpoint map read the way get_checkpoint reads its table. */
  function Lookup(m: map<SourceId, Checkpoint>, sid: SourceId): (cp: Checkpoint)
    ensures sid !in m ==> cp == DEFAULT_CHECKPOINT
  {
    if sid in m then m[sid] else DEFAULT_CHECKPOINT
  }

  /** A client of the store: the round trip the source relies on from one
      cycle to the next. */
  method UpdateThenGet(store: Store, sid: SourceId, other: SourceId, offset: nat, mtime: int)
    returns (cp: Checkpoint)
    requires store.Valid() && sid != other
    modifies store
    ensures store.Valid()
    ensures cp == Checkpoint(offset, mtime)
    ensures store.CheckpointFor(other) == old(store.CheckpointFor(other))
  {
    var id := store.UpsertFileId(sid);
    store.UpdateCheckpoint(id, offset, mtime);
    var again := store.UpsertFileId(sid);
    assert again == id;
    cp := store.GetCheckpoint(again);
  }
}
