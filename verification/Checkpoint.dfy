// The checkpoint store of app/infrastructure/checkpoint_store.py: three tables. A checkpoint row keeps
// only the version of each channel; the values are split out into versioned blobs and put together
// again on read. Checkpoint ids are integers, standing for the order of the database.
module Checkpoint {
  import opened Common

  // A thread and a checkpoint namespace.
  datatype Space = Space(thread: string, ns: string)

  datatype BlobKey = BlobKey(space: Space, channel: string, version: string)
  datatype RowKey = RowKey(space: Space, id: int)
  datatype WriteKey = WriteKey(space: Space, id: int, task: string, idx: int)

  datatype Blob = Empty | Stored(value: string)

  datatype Row = Row(versions: map<string, string>, rest: string, metadata: string, parent: Option<int>)

  datatype Write = Write(channel: string, value: string)

  datatype WriteRow = WriteRow(write: Write, path: string)

  datatype Slot = Slot(task: string, idx: int)

  datatype Tables = Tables(blobs: map<BlobKey, Blob>, rows: map<RowKey, Row>, writes: map<WriteKey, WriteRow>)

  datatype Checkpoint = Checkpoint(id: int, values: map<string, string>, versions: map<string, string>, rest: string)

  datatype CheckpointTuple = CheckpointTuple(id: int, checkpoint: Checkpoint, metadata: string, parent: Option<int>,
                                             pending: map<Slot, Write>)

  // ----- Writing -----

  function BlobFor(values: map<string, string>, channel: string): Blob {
    if channel in values then Stored(values[channel]) else Empty
  }

  function NewBlobs(space: Space, values: map<string, string>, newVersions: map<string, string>): map<BlobKey, Blob> {
    map channel | channel in newVersions :: BlobKey(space, channel, newVersions[channel]) := BlobFor(values, channel)
  }

  function RowFor(c: Checkpoint, metadata: string, parent: Option<int>): Row {
    Row(c.versions, c.rest, metadata, parent)
  }

  function AfterPut(t: Tables, space: Space, parent: Option<int>, c: Checkpoint, metadata: string,
                    newVersions: map<string, string>): Tables {
    Tables(t.blobs + NewBlobs(space, c.values, newVersions), t.rows[RowKey(space, c.id) := RowFor(c, metadata, parent)],
           t.writes)
  }

  // The number of a write: special channels have their own, below zero.
  function IndexOf(special: map<string, int>, w: Write, i: nat): int {
    if w.channel in special then special[w.channel] else i
  }

  function AfterWrite(writes: map<WriteKey, WriteRow>, key: WriteKey, w: Write, path: string): map<WriteKey, WriteRow> {
    if key.idx >= 0 && key in writes then writes else writes[key := WriteRow(w, path)]
  }

  // The table of writes after one call of put_writes.
  function AfterWrites(writes: map<WriteKey, WriteRow>, special: map<string, int>, space: Space, id: int,
                       ws: seq<Write>, task: string, path: string): map<WriteKey, WriteRow>
    decreases |ws|
  {
    if ws == [] then writes
    else
      var n := |ws| - 1;
      AfterWrite(AfterWrites(writes, special, space, id, ws[..n], task, path),
                 WriteKey(space, id, task, IndexOf(special, ws[n], n)), ws[n], path)
  }

  function WithoutThread(t: Tables, thread: string): Tables {
    Tables(map k | k in t.blobs && k.space.thread != thread :: t.blobs[k],
           map k | k in t.rows && k.space.thread != thread :: t.rows[k],
           map k | k in t.writes && k.space.thread != thread :: t.writes[k])
  }

  function WithoutSpace(t: Tables, space: Space): Tables {
    Tables(map k | k in t.blobs && k.space != space :: t.blobs[k],
           map k | k in t.rows && k.space != space :: t.rows[k],
           map k | k in t.writes && k.space != space :: t.writes[k])
  }

  // ----- Reading -----

  // What a read finds under a blob key: absent and empty blobs look alike.
  function Visible(blobs: map<BlobKey, Blob>, key: BlobKey): Option<string> {
    if key in blobs && blobs[key].Stored? then Some(blobs[key].value) else None
  }

  function LoadBlobs(blobs: map<BlobKey, Blob>, space: Space, versions: map<string, string>): map<string, string> {
    map channel | channel in versions && Visible(blobs, BlobKey(space, channel, versions[channel])).Some? ::
      Visible(blobs, BlobKey(space, channel, versions[channel])).value
  }

  function RowsIn(rows: map<RowKey, Row>, space: Space): set<RowKey> {
    set k | k in rows && k.space == space
  }

  // ORDER BY checkpoint_id DESC LIMIT 1.
  ghost predicate IsGreatest(key: RowKey, keys: set<RowKey>) {
    key in keys && forall other | other in keys :: other.id <= key.id
  }

  function PendingOf(t: Tables, key: RowKey): map<Slot, Write> {
    map k | k in t.writes && RowKey(k.space, k.id) == key :: Slot(k.task, k.idx) := t.writes[k].write
  }

  function TupleOf(t: Tables, key: RowKey): CheckpointTuple
    requires key in t.rows
  {
    var row := t.rows[key];
    CheckpointTuple(key.id, Checkpoint(key.id, LoadBlobs(t.blobs, key.space, row.versions), row.versions, row.rest),
                    row.metadata, row.parent, PendingOf(t, key))
  }

  function Get(t: Tables, space: Space, id: int): Option<CheckpointTuple> {
    if RowKey(space, id) in t.rows then Some(TupleOf(t, RowKey(space, id))) else None
  }

  // ----- The saver -----

  class DatabaseCheckpointSaver {
    const special: map<string, int>
    var blobs: map<BlobKey, Blob>
    var rows: map<RowKey, Row>
    var writes: map<WriteKey, WriteRow>

    constructor (special: map<string, int>)
      ensures this.special == special && blobs == map[] && rows == map[] && writes == map[]
    {
      this.special := special;
      blobs, rows, writes := map[], map[], map[];
    }

    function Contents(): Tables
      reads this
    {
      Tables(blobs, rows, writes)
    }

    method Put(space: Space, parent: Option<int>, c: Checkpoint, metadata: string, newVersions: map<string, string>)
      modifies this`blobs, this`rows
      ensures Contents() == AfterPut(old(Contents()), space, parent, c, metadata, newVersions)
    {
      var left := newVersions.Keys;
      while left != {}
        invariant left <= newVersions.Keys && rows == old(rows)
        invariant blobs == old(blobs) + NewBlobs(space, c.values, newVersions - left)
        decreases left
      {
        var channel :| channel in left;
        BlobAdded(old(blobs), space, c.values, newVersions, left, channel);
        blobs := blobs[BlobKey(space, channel, newVersions[channel]) := BlobFor(c.values, channel)];
        left := left - {channel};
      }
      assert newVersions - left == newVersions;
      rows := rows[RowKey(space, c.id) := RowFor(c, metadata, parent)];
    }

    method PutWrites(space: Space, id: int, ws: seq<Write>, task: string, path: string)
      modifies this`writes
      ensures writes == AfterWrites(old(writes), special, space, id, ws, task, path)
    {
      for i := 0 to |ws|
        invariant writes == AfterWrites(old(writes), special, space, id, ws[..i], task, path)
      {
        assert ws[..i + 1][..i] == ws[..i];
        var key := WriteKey(space, id, task, IndexOf(special, ws[i], i));
        if key.idx >= 0 && key in writes {
          continue;
        }
        writes := writes[key := WriteRow(ws[i], path)];
      }
      assert ws[..|ws|] == ws;
    }

    method DeleteThread(thread: string)
      modifies this`blobs, this`rows, this`writes
      ensures Contents() == WithoutThread(old(Contents()), thread)
    {
      writes := map k | k in writes && k.space.thread != thread :: writes[k];
      blobs := map k | k in blobs && k.space.thread != thread :: blobs[k];
      rows := map k | k in rows && k.space.thread != thread :: rows[k];
    }

    method DeleteNamespace(space: Space)
      modifies this`blobs, this`rows, this`writes
      ensures Contents() == WithoutSpace(old(Contents()), space)
    {
      writes := map k | k in writes && k.space != space :: writes[k];
      blobs := map k | k in blobs && k.space != space :: blobs[k];
      rows := map k | k in rows && k.space != space :: rows[k];
    }

    // With an id, that checkpoint; without one, the greatest of the namespace.
    method GetTuple(space: Space, requested: Option<int>) returns (r: Option<CheckpointTuple>)
      ensures requested.Some? ==> r == Get(Contents(), space, requested.value)
      ensures requested.None? ==> if r.None? then RowsIn(rows, space) == {}
                                  else IsGreatest(RowKey(space, r.value.id), RowsIn(rows, space))
                                       && r == Get(Contents(), space, r.value.id)
    {
      var key;
      if requested.Some? {
        key := RowKey(space, requested.value);
        if key !in rows { return None; }
      } else {
        var keys := RowsIn(rows, space);
        if keys == {} { return None; }
        key := GreatestOf(keys);
      }
      var row := rows[key];
      var values := ReadBlobs(space, row.versions);
      return Some(CheckpointTuple(key.id, Checkpoint(key.id, values, row.versions, row.rest), row.metadata, row.parent,
                                  PendingOf(Contents(), key)));
    }

    method ReadBlobs(space: Space, versions: map<string, string>) returns (values: map<string, string>)
      ensures values == LoadBlobs(blobs, space, versions)
    {
      values := map[];
      var left := versions.Keys;
      while left != {}
        invariant left <= versions.Keys
        invariant values == LoadBlobs(blobs, space, versions - left)
        decreases left
      {
        var channel :| channel in left;
        var key := BlobKey(space, channel, versions[channel]);
        BlobRead(blobs, space, versions, left, channel);
        left := left - {channel};
        if key !in blobs || blobs[key].Empty? {
          continue;
        }
        values := values[channel := blobs[key].value];
      }
      assert versions - left == versions;
    }
  }

  method GreatestOf(keys: set<RowKey>) returns (key: RowKey)
    requires keys != {}
    ensures IsGreatest(key, keys)
  {
    key :| key in keys;
    var left := keys;
    while left != {}
      invariant left <= keys && key in keys && forall other | other in keys && other !in left :: other.id <= key.id
      decreases left
    {
      var other :| other in left;
      if other.id > key.id {
        key := other;
      }
      left := left - {other};
    }
  }

  lemma BlobAdded(blobs: map<BlobKey, Blob>, space: Space, values: map<string, string>,
                  newVersions: map<string, string>, left: set<string>, channel: string)
    requires left <= newVersions.Keys && channel in left
    ensures (blobs + NewBlobs(space, values, newVersions - left))
              [BlobKey(space, channel, newVersions[channel]) := BlobFor(values, channel)]
            == blobs + NewBlobs(space, values, newVersions - (left - {channel}))
  {
    assert newVersions - (left - {channel}) == (newVersions - left)[channel := newVersions[channel]];
    NewBlobsMore(space, values, newVersions - left, channel, newVersions[channel]);
  }

  lemma NewBlobsMore(space: Space, values: map<string, string>, versions: map<string, string>, channel: string,
                     version: string)
    requires channel !in versions
    ensures NewBlobs(space, values, versions[channel := version])
            == NewBlobs(space, values, versions)[BlobKey(space, channel, version) := BlobFor(values, channel)]
  {}

  lemma BlobRead(blobs: map<BlobKey, Blob>, space: Space, versions: map<string, string>, left: set<string>,
                 channel: string)
    requires left <= versions.Keys && channel in left
    ensures var (read, seen) := (LoadBlobs(blobs, space, versions - left),
                                 Visible(blobs, BlobKey(space, channel, versions[channel])));
            LoadBlobs(blobs, space, versions - (left - {channel}))
            == if seen.Some? then read[channel := seen.value] else read
  {
    assert versions - (left - {channel}) == (versions - left)[channel := versions[channel]];
  }
}
