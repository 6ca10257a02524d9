// What the checkpoint store gives back over whole histories of puts, writes and deletions.
module CheckpointHistory {
  import opened Common
  import opened Checkpoint

  // ----- One put -----

  function ValueOf(values: map<string, string>, channel: string): Option<string> {
    if channel in values then Some(values[channel]) else None
  }

  predicate IsWritten(channel: string, version: string, newVersions: map<string, string>) {
    channel in newVersions && newVersions[channel] == version
  }

  lemma VisibleAfterPut(t: Tables, space: Space, parent: Option<int>, c: Checkpoint, metadata: string,
                        newVersions: map<string, string>, key: BlobKey)
    ensures Visible(AfterPut(t, space, parent, c, metadata, newVersions).blobs, key)
            == if key.space == space && IsWritten(key.channel, key.version, newVersions) then
                 ValueOf(c.values, key.channel)
               else Visible(t.blobs, key)
  {}

  // Reading a row gives these values exactly when they are versioned and each version shows its value.
  ghost predicate Shows(blobs: map<BlobKey, Blob>, space: Space, versions: map<string, string>,
                        values: map<string, string>) {
    && values.Keys <= versions.Keys
    && forall channel | channel in versions ::
         Visible(blobs, BlobKey(space, channel, versions[channel])) == ValueOf(values, channel)
  }

  lemma LoadsExactlyWhen(blobs: map<BlobKey, Blob>, space: Space, versions: map<string, string>,
                         values: map<string, string>)
    ensures LoadBlobs(blobs, space, versions) == values <==> Shows(blobs, space, versions, values)
  {
    var loaded := LoadBlobs(blobs, space, versions);
    if loaded == values {
      assert forall channel | channel in values :: channel in loaded;
      assert forall channel | channel in versions :: channel in loaded <==> channel in values;
    }
  }

  // Before the put: every value has a version, and every version is written by this put or already
  // shows the value, or the absence, it should.
  ghost predicate CanReadBack(t: Tables, space: Space, c: Checkpoint, newVersions: map<string, string>) {
    && c.values.Keys <= c.versions.Keys
    && forall channel | channel in c.versions ::
         || IsWritten(channel, c.versions[channel], newVersions)
         || Visible(t.blobs, BlobKey(space, channel, c.versions[channel])) == ValueOf(c.values, channel)
  }

  // A read right after a put gives back the checkpoint exactly when that holds.
  lemma {:induction false} PutReadsBackExactlyWhen(t: Tables, space: Space, parent: Option<int>, c: Checkpoint,
                                                   metadata: string, newVersions: map<string, string>)
    ensures var r := Get(AfterPut(t, space, parent, c, metadata, newVersions), space, c.id);
            && r.Some? && r.value.id == c.id && r.value.metadata == metadata && r.value.parent == parent
            && (r.value.checkpoint == c <==> CanReadBack(t, space, c, newVersions))
  {
    var after := AfterPut(t, space, parent, c, metadata, newVersions);
    LoadsExactlyWhen(after.blobs, space, c.versions, c.values);
    forall channel | channel in c.versions
      ensures Visible(after.blobs, BlobKey(space, channel, c.versions[channel]))
              == if IsWritten(channel, c.versions[channel], newVersions) then ValueOf(c.values, channel)
                 else Visible(t.blobs, BlobKey(space, channel, c.versions[channel]))
    {
      VisibleAfterPut(t, space, parent, c, metadata, newVersions, BlobKey(space, channel, c.versions[channel]));
    }
  }

  // ----- The other checkpoints -----

  ghost predicate IsNamed(t: Tables, space: Space, channel: string, version: string, except: int) {
    exists key :: key in t.rows && key.space == space && key.id != except
                  && channel in t.rows[key].versions && t.rows[key].versions[channel] == version
  }

  // Each written pair shows what it showed, or no other stored checkpoint names it.
  ghost predicate IsCareful(t: Tables, space: Space, c: Checkpoint, newVersions: map<string, string>) {
    forall channel | channel in newVersions ::
      || Visible(t.blobs, BlobKey(space, channel, newVersions[channel])) == ValueOf(c.values, channel)
      || !IsNamed(t, space, channel, newVersions[channel], c.id)
  }

  lemma RowUnchanged(t: Tables, space: Space, parent: Option<int>, c: Checkpoint, metadata: string,
                     newVersions: map<string, string>, key: RowKey)
    requires IsCareful(t, space, c, newVersions) && key in t.rows && key != RowKey(space, c.id)
    ensures var after := AfterPut(t, space, parent, c, metadata, newVersions);
            LoadBlobs(after.blobs, key.space, t.rows[key].versions)
            == LoadBlobs(t.blobs, key.space, t.rows[key].versions)
  {
    var versions, after := t.rows[key].versions, AfterPut(t, space, parent, c, metadata, newVersions);
    forall channel | channel in versions
      ensures Visible(after.blobs, BlobKey(key.space, channel, versions[channel]))
              == Visible(t.blobs, BlobKey(key.space, channel, versions[channel]))
    {
      VisibleAfterPut(t, space, parent, c, metadata, newVersions, BlobKey(key.space, channel, versions[channel]));
      if key.space == space && IsWritten(channel, versions[channel], newVersions) {
        assert IsNamed(t, space, channel, newVersions[channel], c.id);
      }
    }
  }

  lemma NamedValueChanges(t: Tables, space: Space, parent: Option<int>, c: Checkpoint, metadata: string,
                          newVersions: map<string, string>, channel: string, key: RowKey)
    requires channel in newVersions && key in t.rows && key.space == space
    requires channel in t.rows[key].versions && t.rows[key].versions[channel] == newVersions[channel]
    requires Visible(t.blobs, BlobKey(space, channel, newVersions[channel])) != ValueOf(c.values, channel)
    ensures var (after, versions) := (AfterPut(t, space, parent, c, metadata, newVersions), t.rows[key].versions);
            LoadBlobs(after.blobs, space, versions) != LoadBlobs(t.blobs, space, versions)
  {
    var after, versions := AfterPut(t, space, parent, c, metadata, newVersions), t.rows[key].versions;
    var loaded, before := LoadBlobs(after.blobs, space, versions), LoadBlobs(t.blobs, space, versions);
    VisibleAfterPut(t, space, parent, c, metadata, newVersions, BlobKey(space, channel, newVersions[channel]));
    assert ValueOf(loaded, channel) == ValueOf(c.values, channel);
    assert ValueOf(before, channel) == Visible(t.blobs, BlobKey(space, channel, newVersions[channel]));
  }

  ghost predicate LeavesOthers(t: Tables, after: Tables, put: RowKey) {
    forall key | key in t.rows && key != put ::
      key in after.rows && TupleOf(after, key).checkpoint == TupleOf(t, key).checkpoint
  }

  // A put leaves what reads of all other checkpoints give exactly when it is careful.
  lemma {:induction false} PutLeavesOthersExactlyWhen(t: Tables, space: Space, parent: Option<int>, c: Checkpoint,
                                                      metadata: string, newVersions: map<string, string>)
    ensures LeavesOthers(t, AfterPut(t, space, parent, c, metadata, newVersions), RowKey(space, c.id))
            <==> IsCareful(t, space, c, newVersions)
  {
    var after := AfterPut(t, space, parent, c, metadata, newVersions);
    if IsCareful(t, space, c, newVersions) {
      forall key | key in t.rows && key != RowKey(space, c.id)
        ensures key in after.rows && TupleOf(after, key).checkpoint == TupleOf(t, key).checkpoint
      {
        RowUnchanged(t, space, parent, c, metadata, newVersions, key);
      }
    } else {
      var channel :| channel in newVersions && IsNamed(t, space, channel, newVersions[channel], c.id)
        && Visible(t.blobs, BlobKey(space, channel, newVersions[channel])) != ValueOf(c.values, channel);
      var key :| key in t.rows && key.space == space && key.id != c.id
        && channel in t.rows[key].versions && t.rows[key].versions[channel] == newVersions[channel];
      NamedValueChanges(t, space, parent, c, metadata, newVersions, channel, key);
    }
  }

  // ----- Histories -----

  datatype Op =
    | Put(space: Space, parent: Option<int>, c: Checkpoint, metadata: string, newVersions: map<string, string>)
    | PutWrites(space: Space, id: int, ws: seq<Write>, task: string, path: string)
    | DropThread(thread: string)
    | DropNamespace(space: Space)

  function Apply(t: Tables, special: map<string, int>, op: Op): Tables {
    match op
    case Put(space, parent, c, metadata, newVersions) => AfterPut(t, space, parent, c, metadata, newVersions)
    case PutWrites(space, id, ws, task, path) =>
      Tables(t.blobs, t.rows, AfterWrites(t.writes, special, space, id, ws, task, path))
    case DropThread(thread) => WithoutThread(t, thread)
    case DropNamespace(space) => WithoutSpace(t, space)
  }

  function Run(special: map<string, int>, ops: seq<Op>): Tables {
    if ops == [] then Tables(map[], map[], map[])
    else Apply(Run(special, ops[..|ops| - 1]), special, ops[|ops| - 1])
  }

  // Every put of a history can be read back and is careful.
  ghost predicate IsCarefulHistory(special: map<string, int>, ops: seq<Op>) {
    ops == [] ||
    (var before, op := ops[..|ops| - 1], ops[|ops| - 1];
     && IsCarefulHistory(special, before)
     && (op.Put? ==> && CanReadBack(Run(special, before), op.space, op.c, op.newVersions)
                     && IsCareful(Run(special, before), op.space, op.c, op.newVersions)))
  }

  // What the last put of a checkpoint was given, unless it was deleted since.
  datatype Given = Given(c: Checkpoint, metadata: string, parent: Option<int>)

  function LastGiven(ops: seq<Op>, key: RowKey): Option<Given> {
    if ops == [] then None
    else
      var before, op := ops[..|ops| - 1], ops[|ops| - 1];
      match op
      case Put(space, parent, c, metadata, _) =>
        if key == RowKey(space, c.id) then Some(Given(c, metadata, parent)) else LastGiven(before, key)
      case PutWrites(_, _, _, _, _) => LastGiven(before, key)
      case DropThread(thread) => if key.space.thread == thread then None else LastGiven(before, key)
      case DropNamespace(space) => if key.space == space then None else LastGiven(before, key)
  }

  ghost predicate GivesBack(t: Tables, key: RowKey, given: Option<Given>) {
    if given.None? then Get(t, key.space, key.id).None?
    else
      var r := Get(t, key.space, key.id);
      && r.Some? && r.value.id == key.id
      && r.value.checkpoint == given.value.c && r.value.metadata == given.value.metadata
      && r.value.parent == given.value.parent
  }

  // Over any careful history, a read of any id gives back exactly what the last put of that id was
  // given, whatever was put, written or deleted elsewhere since.
  lemma {:induction false} ReadsGiveBackTheLastPut(special: map<string, int>, ops: seq<Op>, key: RowKey)
    requires IsCarefulHistory(special, ops)
    ensures GivesBack(Run(special, ops), key, LastGiven(ops, key))
  {
    if ops != [] {
      var before, op := ops[..|ops| - 1], ops[|ops| - 1];
      var t := Run(special, before);
      ReadsGiveBackTheLastPut(special, before, key);
      match op
      case Put(space, parent, c, metadata, newVersions) => PutGivesBack(t, op, key, LastGiven(before, key));
      case PutWrites(_, _, _, _, _) =>
      case DropThread(thread) => DropThreadLeavesOthers(t, thread, key);
      case DropNamespace(space) => DropNamespaceLeavesOthers(t, space, key);
    }
  }

  lemma {:induction false} PutGivesBack(t: Tables, op: Op, key: RowKey, given: Option<Given>)
    requires op.Put? && CanReadBack(t, op.space, op.c, op.newVersions) && IsCareful(t, op.space, op.c, op.newVersions)
    requires GivesBack(t, key, given)
    ensures GivesBack(AfterPut(t, op.space, op.parent, op.c, op.metadata, op.newVersions), key,
                      if key == RowKey(op.space, op.c.id) then Some(Given(op.c, op.metadata, op.parent)) else given)
  {
    if key == RowKey(op.space, op.c.id) {
      PutReadsBackExactlyWhen(t, op.space, op.parent, op.c, op.metadata, op.newVersions);
    } else if key in t.rows {
      RowUnchanged(t, op.space, op.parent, op.c, op.metadata, op.newVersions, key);
    }
  }

  // ----- Deletions -----

  // Deleting a namespace makes its own reads find nothing and leaves all others, pending writes
  // included.
  lemma DropNamespaceLeavesOthers(t: Tables, space: Space, key: RowKey)
    ensures Get(WithoutSpace(t, space), key.space, key.id)
            == if key.space == space then None else Get(t, key.space, key.id)
  {
    var after := WithoutSpace(t, space);
    if key in after.rows {
      assert LoadBlobs(after.blobs, key.space, t.rows[key].versions)
             == LoadBlobs(t.blobs, key.space, t.rows[key].versions);
      assert PendingOf(after, key) == PendingOf(t, key);
    }
  }

  lemma DropThreadLeavesOthers(t: Tables, thread: string, key: RowKey)
    ensures Get(WithoutThread(t, thread), key.space, key.id)
            == if key.space.thread == thread then None else Get(t, key.space, key.id)
  {
    var after := WithoutThread(t, thread);
    if key in after.rows {
      assert LoadBlobs(after.blobs, key.space, t.rows[key].versions)
             == LoadBlobs(t.blobs, key.space, t.rows[key].versions);
      assert PendingOf(after, key) == PendingOf(t, key);
    }
  }

  // ----- Fresh pairs -----

  // Every version that a stored checkpoint names has a blob.
  ghost predicate IsSettled(t: Tables) {
    forall key, channel | key in t.rows && channel in t.rows[key].versions ::
      BlobKey(key.space, channel, t.rows[key].versions[channel]) in t.blobs
  }

  // The put writes fresh pairs or the same blobs again, and every version it names has a blob then.
  ghost predicate IsFresh(t: Tables, space: Space, c: Checkpoint, newVersions: map<string, string>) {
    && (forall channel | channel in newVersions ::
          var key := BlobKey(space, channel, newVersions[channel]);
          key !in t.blobs || t.blobs[key] == BlobFor(c.values, channel))
    && (forall channel | channel in c.versions ::
          || IsWritten(channel, c.versions[channel], newVersions)
          || BlobKey(space, channel, c.versions[channel]) in t.blobs)
  }

  lemma FreshIsCareful(t: Tables, space: Space, c: Checkpoint, newVersions: map<string, string>)
    requires IsSettled(t) && IsFresh(t, space, c, newVersions)
    ensures IsCareful(t, space, c, newVersions)
  {}

  lemma FreshSettles(t: Tables, op: Op)
    requires op.Put? && IsSettled(t) && IsFresh(t, op.space, op.c, op.newVersions)
    ensures IsSettled(AfterPut(t, op.space, op.parent, op.c, op.metadata, op.newVersions))
  {
    var after := AfterPut(t, op.space, op.parent, op.c, op.metadata, op.newVersions);
    forall key, channel | key in after.rows && channel in after.rows[key].versions
      ensures BlobKey(key.space, channel, after.rows[key].versions[channel]) in after.blobs
    {
      if key == RowKey(op.space, op.c.id) && IsWritten(channel, op.c.versions[channel], op.newVersions) {
        assert BlobKey(op.space, channel, op.newVersions[channel]) in NewBlobs(op.space, op.c.values, op.newVersions);
      }
    }
  }

  ghost predicate IsFreshHistory(special: map<string, int>, ops: seq<Op>) {
    ops == [] ||
    (var before, op := ops[..|ops| - 1], ops[|ops| - 1];
     && IsFreshHistory(special, before)
     && (op.Put? ==> && CanReadBack(Run(special, before), op.space, op.c, op.newVersions)
                     && IsFresh(Run(special, before), op.space, op.c, op.newVersions)))
  }

  // Histories whose puts write only fresh pairs, or the same again, are careful.
  lemma {:induction false} FreshHistoryIsCareful(special: map<string, int>, ops: seq<Op>)
    requires IsFreshHistory(special, ops)
    ensures IsCarefulHistory(special, ops) && IsSettled(Run(special, ops))
  {
    if ops != [] {
      var before, op := ops[..|ops| - 1], ops[|ops| - 1];
      var t := Run(special, before);
      FreshHistoryIsCareful(special, before);
      match op
      case Put(space, parent, c, metadata, newVersions) =>
        FreshIsCareful(t, space, c, newVersions);
        FreshSettles(t, op);
      case PutWrites(_, _, _, _, _) =>
      case DropThread(thread) =>
      case DropNamespace(space) =>
    }
  }

  // ----- Pending writes -----

  // Of the writes of one call with a given number, the one that stays: the first if the number is
  // not negative, the last if it is.
  function Staying(special: map<string, int>, ws: seq<Write>, idx: int): Option<Write> {
    if ws == [] then None
    else
      var n := |ws| - 1;
      var before := Staying(special, ws[..n], idx);
      if IndexOf(special, ws[n], n) == idx && (idx < 0 || before.None?) then Some(ws[n]) else before
  }

  lemma {:induction false} StayingIs(special: map<string, int>, ws: seq<Write>, idx: int)
    ensures Staying(special, ws, idx).None? <==> forall i | 0 <= i < |ws| :: IndexOf(special, ws[i], i) != idx
    ensures Staying(special, ws, idx).Some? ==>
              exists i :: 0 <= i < |ws| && ws[i] == Staying(special, ws, idx).value && IndexOf(special, ws[i], i) == idx
                          && if idx >= 0 then forall j | 0 <= j < i :: IndexOf(special, ws[j], j) != idx
                             else forall j | i < j < |ws| :: IndexOf(special, ws[j], j) != idx
  {
    if ws != [] {
      var n := |ws| - 1;
      StayingIs(special, ws[..n], idx);
    }
  }

  // After a call, a number that is not negative keeps what was there before it, if anything; a
  // negative one has the last write of the call.
  lemma {:induction false} WritesAre(writes: map<WriteKey, WriteRow>, special: map<string, int>, space: Space, id: int,
                                     ws: seq<Write>, task: string, path: string, key: WriteKey)
    ensures var (after, mine) := (AfterWrites(writes, special, space, id, ws, task, path),
                                  key == WriteKey(space, id, task, key.idx));
            if mine && Staying(special, ws, key.idx).Some? && (key.idx < 0 || key !in writes) then
              key in after && after[key] == WriteRow(Staying(special, ws, key.idx).value, path)
            else
              (key in after <==> key in writes) && (key in after ==> after[key] == writes[key])
    decreases |ws|
  {
    if ws != [] {
      WritesAre(writes, special, space, id, ws[..|ws| - 1], task, path, key);
    }
  }

  // Doing the same put_writes again changes nothing.
  lemma ReplayChangesNothing(writes: map<WriteKey, WriteRow>, special: map<string, int>, space: Space, id: int,
                             ws: seq<Write>, task: string, path: string)
    ensures var once := AfterWrites(writes, special, space, id, ws, task, path);
            AfterWrites(once, special, space, id, ws, task, path) == once
  {
    var once := AfterWrites(writes, special, space, id, ws, task, path);
    var twice := AfterWrites(once, special, space, id, ws, task, path);
    forall key: WriteKey
      ensures (key in twice <==> key in once) && (key in twice ==> twice[key] == once[key])
    {
      WritesAre(writes, special, space, id, ws, task, path, key);
      WritesAre(once, special, space, id, ws, task, path, key);
    }
  }
}
