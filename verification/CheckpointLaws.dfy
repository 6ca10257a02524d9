// What reads of the checkpoint store tell about pending writes and deletions, row by row.
module CheckpointLaws {
  import opened Common
  import opened Checkpoint
  import opened CheckpointHistory

  // ----- Pending writes -----

  // The pending writes of a read are the rows of its own checkpoint, by task and number.
  lemma PendingIs(t: Tables, space: Space, id: int, slot: Slot)
    requires Get(t, space, id).Some?
    ensures var (pending, key) := (Get(t, space, id).value.pending, WriteKey(space, id, slot.task, slot.idx));
            && (slot in pending <==> key in t.writes)
            && (slot in pending ==> pending[slot] == t.writes[key].write)
  {
    PendingRows(t, RowKey(space, id), slot);
  }

  lemma PendingRows(t: Tables, key: RowKey, slot: Slot)
    ensures var (pending, k) := (PendingOf(t, key), WriteKey(key.space, key.id, slot.task, slot.idx));
            (slot in pending <==> k in t.writes) && (slot in pending ==> pending[slot] == t.writes[k].write)
  {
    var k := WriteKey(key.space, key.id, slot.task, slot.idx);
    assert k in t.writes ==> RowKey(k.space, k.id) == key && Slot(k.task, k.idx) == slot;
  }

  // The i-th write of a call has the number: its channel's own, or its position.
  ghost predicate HasNumber(special: map<string, int>, ws: seq<Write>, i: nat, number: int)
    requires i < |ws|
  {
    if ws[i].channel in special then special[ws[i].channel] == number else i == number
  }

  // It is the one that counts: the first with a number that is not negative, the last with a negative one.
  ghost predicate Counts(special: map<string, int>, ws: seq<Write>, i: nat, number: int) {
    && i < |ws| && HasNumber(special, ws, i, number)
    && if number >= 0 then forall j: nat | j < i :: !HasNumber(special, ws, j, number)
       else forall j: nat | i < j < |ws| :: !HasNumber(special, ws, j, number)
  }

  ghost predicate NoneHas(special: map<string, int>, ws: seq<Write>, number: int) {
    forall i: nat | i < |ws| :: !HasNumber(special, ws, i, number)
  }

  lemma StayingCounts(special: map<string, int>, ws: seq<Write>, i: nat, number: int)
    ensures NoneHas(special, ws, number) <==> Staying(special, ws, number).None?
    ensures Counts(special, ws, i, number) ==> Staying(special, ws, number) == Some(ws[i])
  {
    StayingIs(special, ws, number);
    assert forall k: nat | k < |ws| :: HasNumber(special, ws, k, number) <==> IndexOf(special, ws[k], k) == number;
  }

  // After put_writes a read of that checkpoint shows, under each number of that task, the write of the
  // call that counts, unless the number is not negative and was taken before; everything else any read
  // shows stays.
  lemma PendingAfterWrites(t: Tables, special: map<string, int>, op: Op, space: Space, id: int, slot: Slot, i: nat)
    requires op.PutWrites? && Get(t, space, id).Some?
    ensures Get(Apply(t, special, op), space, id).Some?
    ensures var (before, after) := (Get(t, space, id).value, Get(Apply(t, special, op), space, id).value);
            var mine := space == op.space && id == op.id && slot.task == op.task;
            && after.checkpoint == before.checkpoint && after.metadata == before.metadata
            && after.parent == before.parent
            && (mine && Counts(special, op.ws, i, slot.idx) && (slot.idx < 0 || slot !in before.pending) ==>
                  slot in after.pending && after.pending[slot] == op.ws[i])
            && (!mine || NoneHas(special, op.ws, slot.idx) || (slot.idx >= 0 && slot in before.pending) ==>
                  && (slot in after.pending <==> slot in before.pending)
                  && (slot in after.pending ==> after.pending[slot] == before.pending[slot]))
  {
    var key := WriteKey(space, id, slot.task, slot.idx);
    var after := Apply(t, special, op);
    PendingIs(t, space, id, slot);
    PendingIs(after, space, id, slot);
    WritesAre(t.writes, special, op.space, op.id, op.ws, op.task, op.path, key);
    StayingCounts(special, op.ws, i, slot.idx);
  }

  // A put leaves all pending writes, also those of the checkpoint it stores.
  lemma PutLeavesPending(t: Tables, special: map<string, int>, op: Op, space: Space, id: int)
    requires op.Put? && Get(Apply(t, special, op), space, id).Some?
    ensures var pending := Get(Apply(t, special, op), space, id).value.pending;
            forall slot: Slot ::
              var key := WriteKey(space, id, slot.task, slot.idx);
              (slot in pending <==> key in t.writes) && (slot in pending ==> pending[slot] == t.writes[key].write)
  {
    forall slot: Slot
      ensures var (pending, key) := (Get(Apply(t, special, op), space, id).value.pending,
                                     WriteKey(space, id, slot.task, slot.idx));
              (slot in pending <==> key in t.writes) && (slot in pending ==> pending[slot] == t.writes[key].write)
    {
      PendingIs(Apply(t, special, op), space, id, slot);
    }
  }

  // ----- Deletions -----

  ghost predicate IsDropped(op: Op, space: Space) {
    || (op.DropThread? && space.thread == op.thread)
    || (op.DropNamespace? && space == op.space)
  }

  // A deletion leaves no value and no pending write behind that a later checkpoint of the same id or
  // versions could show, and takes nothing else.
  lemma DeletionLeavesNothing(t: Tables, special: map<string, int>, op: Op, key: BlobKey, w: WriteKey, row: RowKey)
    requires op.DropThread? || op.DropNamespace?
    ensures var after := Apply(t, special, op);
            && (IsDropped(op, key.space) ==> Visible(after.blobs, key) == None)
            && (!IsDropped(op, key.space) ==> Visible(after.blobs, key) == Visible(t.blobs, key))
            && (w in after.writes <==> w in t.writes && !IsDropped(op, w.space))
            && (w in after.writes ==> after.writes[w] == t.writes[w])
            && (row in after.rows <==> row in t.rows && !IsDropped(op, row.space))
            && (row in after.rows ==> after.rows[row] == t.rows[row])
  {}
}
