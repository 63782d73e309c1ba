/**
 The checkpointed ingest worker: a slice of a collection is read in order,
 documents with text are upserted in batches, and a checkpoint lets a killed
 worker resume.
 */
module Ingest {
  datatype Doc = Doc(title: string, summary: string)

  predicate HasText(d: Doc) {
    d.title != "" || d.summary != ""
  }

  /** One worker's share of the collection. */
  datatype Job = Job(docs: seq<Doc>, skip: nat, limit: nat, batchSize: nat)

  /** What survives a kill: the checkpoint file, absent reading as 0, and the vector store. */
  datatype Saved = Saved(checkpoint: nat, upserted: set<nat>)

  /**
   How a batch fares: embedding or upserting may fail, the embedding may come
   back with fewer vectors than there were texts, and the checkpoint write may
   fail. Vectors and documents are paired up to the shorter of the two.
   */
  datatype Batch = Dropped | Embedded(missing: nat, recorded: bool)

  const DONE: Batch := Embedded(0, true)

  predicate Whole(batch: Batch) {
    batch.Embedded? && batch.missing == 0
  }

  /** How many of `n` documents get a point. */
  function Points(batch: Batch, n: nat): nat {
    if batch.Dropped? || batch.missing > n then 0 else n - batch.missing
  }

  /**
   The position after the last document the cursor returns. A limit of zero
   means no limit, so a worker that resumes at or past its limit reads on.
   */
  function CursorEnd(job: Job, offset: nat): nat {
    var n := |job.docs|;
    if offset < job.limit && job.skip + job.limit < n then job.skip + job.limit else n
  }

  datatype Flushed = Flushed(saved: Saved, processed: nat, effects: nat, killed: bool)

  /** One batch: upsert, then checkpoint, with a kill possible before either. */
  function FlushBatch(saved: Saved, offset: nat, pending: seq<nat>, processed: nat, batch: Batch, effects: nat): Flushed {
    if batch.Dropped? then Flushed(saved, processed, effects, false)
    else if effects == 0 then Flushed(saved, processed, 0, true)
    else
      var points := pending[..Points(batch, |pending|)];
      var stored := saved.(upserted := saved.upserted + set p | p in points);
      var total := processed + |points|;
      if !batch.recorded then Flushed(stored, total, effects - 1, false)
      else if effects == 1 then Flushed(stored, total, 0, true)
      else Flushed(stored.(checkpoint := offset + total), total, effects - 2, false)
  }

  /** How a session ends: what is saved, whether it ran to its end, how far it read, how many batches it tried. */
  datatype Ended = Ended(saved: Saved, finished: bool, pos: nat, batches: nat)

  /** The rest of a session, killed after `effects` more writes. */
  function SessionFrom(job: Job, saved: Saved, offset: nat, pos: nat, pending: seq<nat>, processed: nat,
                       batches: nat, fate: nat -> Batch, effects: nat): Ended
    decreases |job.docs| - pos
  {
    if pos >= CursorEnd(job, offset) then
      if pending == [] then Ended(saved, true, pos, batches)
      else
        var f := FlushBatch(saved, offset, pending, processed, fate(batches), effects);
        Ended(f.saved, !f.killed, pos, batches + 1)
    else if !HasText(job.docs[pos]) then
      SessionFrom(job, saved, offset, pos + 1, pending, processed, batches, fate, effects)
    else if |pending| + 1 < job.batchSize then
      SessionFrom(job, saved, offset, pos + 1, pending + [pos], processed, batches, fate, effects)
    else
      var f := FlushBatch(saved, offset, pending + [pos], processed, fate(batches), effects);
      if f.killed then Ended(f.saved, false, pos + 1, batches + 1)
      else SessionFrom(job, f.saved, offset, pos + 1, [], f.processed, batches + 1, fate, f.effects)
  }

  function Session(job: Job, saved: Saved, fate: nat -> Batch, effects: nat): Ended {
    SessionFrom(job, saved, saved.checkpoint, job.skip + saved.checkpoint, [], 0, 0, fate, effects)
  }

  // ── The source's loop ──────────────────────────────────────────────────

  class Worker {
    const job: Job
    var checkpoint: nat
    var upserted: set<nat>

    constructor (job: Job)
      ensures this.job == job && View() == Saved(0, {})
    {
      this.job, checkpoint, upserted := job, 0, {};
    }

    ghost function View(): Saved
      reads this
    {
      Saved(checkpoint, upserted)
    }

    method TryBatch(offset: nat, pending: seq<nat>, processed: nat, batch: Batch, effects: nat)
      returns (total: nat, left: nat, killed: bool)
      modifies this
      ensures Flushed(View(), total, left, killed) == FlushBatch(old(View()), offset, pending, processed, batch, effects)
    {
      total, left, killed := processed, effects, false;
      if batch.Dropped? {
        return;
      }
      if left == 0 {
        killed := true;
        return;
      }
      var points := if batch.missing > |pending| then [] else pending[..|pending| - batch.missing];
      upserted := upserted + set p | p in points;
      left := left - 1;
      total := processed + |points|;
      if !batch.recorded {
        return;
      }
      if left == 0 {
        killed := true;
        return;
      }
      checkpoint := offset + total;
      left := left - 1;
    }

    method RunSession(fate: nat -> Batch, effects: nat) returns (finished: bool, pos: nat, batches: nat)
      modifies this
      ensures Ended(View(), finished, pos, batches) == Session(job, old(View()), fate, effects)
    {
      hide FlushBatch;
      var offset := checkpoint;
      var pending: seq<nat> := [];
      var processed, left, killed := 0, effects, false;
      pos, batches := job.skip + offset, 0;
      while pos < CursorEnd(job, offset)
        invariant Session(job, old(View()), fate, effects)
          == SessionFrom(job, View(), offset, pos, pending, processed, batches, fate, left)
        decreases |job.docs| - pos
      {
        var at := pos;
        pos := pos + 1;
        if !HasText(job.docs[at]) {
          continue;
        }
        var full := pending + [at];
        if |full| < job.batchSize {
          pending := full;
          continue;
        }
        processed, left, killed := TryBatch(offset, full, processed, fate(batches), left);
        batches := batches + 1;
        if killed {
          return false, pos, batches;
        }
        pending := [];
      }
      if pending != [] {
        processed, left, killed := TryBatch(offset, pending, processed, fate(batches), left);
        batches := batches + 1;
      }
      finished := !killed;
    }
  }

  // ── Recovery ───────────────────────────────────────────────────────────

  /** Every document with text in the range has been upserted. */
  ghost predicate Covered(docs: seq<Doc>, from: nat, to: nat, upserted: set<nat>) {
    forall p :: from <= p < to && p < |docs| && HasText(docs[p]) ==> p in upserted
  }

  /** The checkpoint never claims more than has been upserted. */
  ghost predicate Sound(job: Job, saved: Saved) {
    Covered(job.docs, job.skip, job.skip + saved.checkpoint, saved.upserted)
  }

  /** Inside a session: documents read since `from` are upserted or pending, and the count keeps below the cursor. */
  ghost predicate InStep(job: Job, from: nat, saved: Saved, offset: nat, pos: nat, pending: seq<nat>, processed: nat) {
    && job.skip + offset + processed + |pending| <= pos
    && job.skip + saved.checkpoint <= pos
    && forall p :: from <= p < pos && p < |job.docs| && HasText(job.docs[p]) ==> p in saved.upserted || p in pending
  }

  /** No batch fails or comes back short of vectors. */
  predicate NoDrops(fate: nat -> Batch, from: nat, to: nat) {
    forall b :: from <= b < to ==> Whole(fate(b))
  }

  ghost predicate SoundFrom(job: Job, from: nat, saved: Saved) {
    Covered(job.docs, from, job.skip + saved.checkpoint, saved.upserted)
  }

  lemma FlushKeeps(job: Job, from: nat, saved: Saved, offset: nat, pos: nat, pending: seq<nat>, processed: nat, batch: Batch, effects: nat)
    requires SoundFrom(job, from, saved) && InStep(job, from, saved, offset, pos, pending, processed) && Whole(batch)
    ensures var f := FlushBatch(saved, offset, pending, processed, batch, effects);
      && SoundFrom(job, from, f.saved)
      && (!f.killed ==> InStep(job, from, f.saved, offset, pos, [], f.processed))
  {
    assert pending[..|pending|] == pending;
  }

  lemma {:induction false} SessionFromKeeps(job: Job, from: nat, saved: Saved, offset: nat, pos: nat, pending: seq<nat>, processed: nat,
                                            batches: nat, fate: nat -> Batch, effects: nat)
    requires SoundFrom(job, from, saved) && InStep(job, from, saved, offset, pos, pending, processed)
    requires NoDrops(fate, batches, SessionFrom(job, saved, offset, pos, pending, processed, batches, fate, effects).batches)
    ensures var e := SessionFrom(job, saved, offset, pos, pending, processed, batches, fate, effects);
      && SoundFrom(job, from, e.saved)
      && (e.finished ==> Covered(job.docs, from, CursorEnd(job, offset), e.saved.upserted))
    decreases |job.docs| - pos
  {
    hide FlushBatch;
    BatchesGrow(job, saved, offset, pos, pending, processed, batches, fate, effects);
    if pos >= CursorEnd(job, offset) {
      if pending != [] {
        FlushKeeps(job, from, saved, offset, pos, pending, processed, fate(batches), effects);
      }
    } else if !HasText(job.docs[pos]) {
      SessionFromKeeps(job, from, saved, offset, pos + 1, pending, processed, batches, fate, effects);
    } else if |pending| + 1 < job.batchSize {
      SessionFromKeeps(job, from, saved, offset, pos + 1, pending + [pos], processed, batches, fate, effects);
    } else {
      var f := FlushBatch(saved, offset, pending + [pos], processed, fate(batches), effects);
      if !f.killed {
        BatchesGrow(job, f.saved, offset, pos + 1, [], f.processed, batches + 1, fate, f.effects);
      }
      FlushKeeps(job, from, saved, offset, pos + 1, pending + [pos], processed, fate(batches), effects);
      if !f.killed {
        SessionFromKeeps(job, from, f.saved, offset, pos + 1, [], f.processed, batches + 1, fate, f.effects);
      }
    }
  }

  lemma {:induction false} BatchesGrow(job: Job, saved: Saved, offset: nat, pos: nat, pending: seq<nat>, processed: nat,
                                       batches: nat, fate: nat -> Batch, effects: nat)
    ensures var e := SessionFrom(job, saved, offset, pos, pending, processed, batches, fate, effects);
      && batches <= e.batches
      && (pos < CursorEnd(job, offset) && HasText(job.docs[pos]) && |pending| + 1 >= job.batchSize ==> batches < e.batches)
      && (pos >= CursorEnd(job, offset) && pending != [] ==> batches < e.batches)
    decreases |job.docs| - pos
  {
    hide FlushBatch;
    if pos < CursorEnd(job, offset) {
      if !HasText(job.docs[pos]) {
        BatchesGrow(job, saved, offset, pos + 1, pending, processed, batches, fate, effects);
      } else if |pending| + 1 < job.batchSize {
        BatchesGrow(job, saved, offset, pos + 1, pending + [pos], processed, batches, fate, effects);
      } else {
        var f := FlushBatch(saved, offset, pending + [pos], processed, fate(batches), effects);
        if !f.killed {
          BatchesGrow(job, f.saved, offset, pos + 1, [], f.processed, batches + 1, fate, f.effects);
        }
      }
    }
  }

  /** A session without dropped batches keeps the checkpoint sound, and if it finishes, covers what it read. */
  lemma SessionKeeps(job: Job, saved: Saved, fate: nat -> Batch, effects: nat)
    requires Sound(job, saved) && NoDrops(fate, 0, Session(job, saved, fate, effects).batches)
    ensures var e := Session(job, saved, fate, effects);
      && Sound(job, e.saved)
      && (e.finished ==> Covered(job.docs, job.skip, CursorEnd(job, saved.checkpoint), e.saved.upserted))
      && (e.finished ==> Covered(job.docs, job.skip, job.skip + job.limit, e.saved.upserted))
  {
    SessionFromKeeps(job, job.skip, saved, saved.checkpoint, job.skip + saved.checkpoint, [], 0, 0, fate, effects);
  }

  /** Whatever fails, the checkpoint never decreases or passes the cursor, and nothing is un-upserted. */
  lemma {:induction false} CheckpointMonotone(job: Job, saved: Saved, offset: nat, pos: nat, pending: seq<nat>, processed: nat,
                                              batches: nat, fate: nat -> Batch, effects: nat)
    requires saved.checkpoint <= offset + processed
    requires job.skip + offset + processed + |pending| <= pos
    ensures var e := SessionFrom(job, saved, offset, pos, pending, processed, batches, fate, effects);
      && saved.checkpoint <= e.saved.checkpoint && job.skip + e.saved.checkpoint <= e.pos
      && saved.upserted <= e.saved.upserted
    decreases |job.docs| - pos
  {
    if pos < CursorEnd(job, offset) {
      if !HasText(job.docs[pos]) {
        CheckpointMonotone(job, saved, offset, pos + 1, pending, processed, batches, fate, effects);
      } else if |pending| + 1 < job.batchSize {
        CheckpointMonotone(job, saved, offset, pos + 1, pending + [pos], processed, batches, fate, effects);
      } else {
        var f := FlushBatch(saved, offset, pending + [pos], processed, fate(batches), effects);
        if !f.killed {
          CheckpointMonotone(job, f.saved, offset, pos + 1, [], f.processed, batches + 1, fate, f.effects);
        }
      }
    }
  }

  lemma SessionMonotone(job: Job, saved: Saved, fate: nat -> Batch, effects: nat)
    ensures var e := Session(job, saved, fate, effects);
      && saved.checkpoint <= e.saved.checkpoint && job.skip + e.saved.checkpoint <= e.pos
      && saved.upserted <= e.saved.upserted
  {
    CheckpointMonotone(job, saved, saved.checkpoint, job.skip + saved.checkpoint, [], 0, 0, fate, effects);
  }

  // ── Any number of kills and resumes ────────────────────────────────────

  datatype Attempt = Attempt(fate: nat -> Batch, effects: nat)

  function AttemptsFrom(job: Job, saved: Saved, plan: seq<Attempt>): Ended {
    if plan == [] then Ended(saved, false, job.skip + saved.checkpoint, 0)
    else
      var last := plan[|plan| - 1];
      Session(job, AttemptsFrom(job, saved, plan[..|plan| - 1]).saved, last.fate, last.effects)
  }

  /** All attempts of a worker that starts without a checkpoint. */
  function Attempts(job: Job, plan: seq<Attempt>): Ended {
    AttemptsFrom(job, Saved(0, {}), plan)
  }

  ghost predicate NeverDrops(plan: seq<Attempt>) {
    forall i, b: nat :: 0 <= i < |plan| ==> Whole(plan[i].fate(b))
  }

  /** Without dropped documents, attempts extend whatever is covered below the checkpoint, and a finished one covers what it read. */
  lemma {:induction false} AttemptsKeep(job: Job, from: nat, saved: Saved, plan: seq<Attempt>)
    requires SoundFrom(job, from, saved) && NeverDrops(plan)
    ensures var e := AttemptsFrom(job, saved, plan);
      && SoundFrom(job, from, e.saved) && saved.checkpoint <= e.saved.checkpoint
      && (e.finished ==> Covered(job.docs, from, CursorEnd(job, saved.checkpoint), e.saved.upserted))
    decreases |plan|
  {
    hide SessionFrom;
    if plan != [] {
      var before, last := AttemptsFrom(job, saved, plan[..|plan| - 1]).saved, plan[|plan| - 1];
      AttemptsKeep(job, from, saved, plan[..|plan| - 1]);
      SessionFromKeeps(job, from, before, before.checkpoint, job.skip + before.checkpoint, [], 0, 0, last.fate, last.effects);
      SessionMonotone(job, before, last.fate, last.effects);
    }
  }

  /** However often a worker is killed and resumed, once a session finishes its whole slice is upserted. */
  lemma Recovered(job: Job, plan: seq<Attempt>)
    requires NeverDrops(plan)
    ensures var e := Attempts(job, plan);
      && Sound(job, e.saved)
      && (e.finished ==> Covered(job.docs, job.skip, job.skip + job.limit, e.saved.upserted))
  {
    hide SessionFrom, AttemptsFrom;
    AttemptsKeep(job, job.skip, Saved(0, {}), plan);
  }

  // ── How far a session reaches ──────────────────────────────────────────

  lemma FlushAdds(saved: Saved, offset: nat, pending: seq<nat>, processed: nat, batch: Batch, effects: nat, p: nat)
    ensures p in FlushBatch(saved, offset, pending, processed, batch, effects).saved.upserted ==> p in saved.upserted || p in pending
  {
    var n := Points(batch, |pending|);
    assert p in pending[..n] ==> p in pending;
  }

  /** What a session adds it has read: from its checkpoint up to the cursor's end. */
  lemma {:induction false} AddsInside(job: Job, saved: Saved, offset: nat, pos: nat, pending: seq<nat>, processed: nat,
                                      batches: nat, fate: nat -> Batch, effects: nat, p: nat)
    requires forall q :: q in pending ==> job.skip + offset <= q < pos && q < CursorEnd(job, offset)
    requires job.skip + offset <= pos
    requires p in SessionFrom(job, saved, offset, pos, pending, processed, batches, fate, effects).saved.upserted
    ensures p in saved.upserted || job.skip + offset <= p < CursorEnd(job, offset)
    decreases |job.docs| - pos
  {
    hide FlushBatch;
    if pos >= CursorEnd(job, offset) {
      FlushAdds(saved, offset, pending, processed, fate(batches), effects, p);
    } else if !HasText(job.docs[pos]) {
      AddsInside(job, saved, offset, pos + 1, pending, processed, batches, fate, effects, p);
    } else if |pending| + 1 < job.batchSize {
      AddsInside(job, saved, offset, pos + 1, pending + [pos], processed, batches, fate, effects, p);
    } else {
      var f := FlushBatch(saved, offset, pending + [pos], processed, fate(batches), effects);
      FlushAdds(saved, offset, pending + [pos], processed, fate(batches), effects, p);
      if !f.killed {
        AddsInside(job, f.saved, offset, pos + 1, [], f.processed, batches + 1, fate, f.effects, p);
      }
    }
  }

  const WITHOUT_FAULTS: nat -> Batch := _ => DONE

  /** Undisturbed, a session finishes and upserts every document with text it reads. */
  lemma {:induction false} UndisturbedFrom(job: Job, saved: Saved, offset: nat, pos: nat, pending: seq<nat>, processed: nat,
                                           batches: nat, effects: nat)
    requires effects >= 2 * (if pos < |job.docs| then |job.docs| - pos else 0) + 2
    ensures var e := SessionFrom(job, saved, offset, pos, pending, processed, batches, WITHOUT_FAULTS, effects);
      && e.finished && saved.upserted <= e.saved.upserted
      && (forall q :: q in pending ==> q in e.saved.upserted)
      && Covered(job.docs, pos, CursorEnd(job, offset), e.saved.upserted)
    decreases |job.docs| - pos
  {
    if pos < CursorEnd(job, offset) {
      if !HasText(job.docs[pos]) {
        UndisturbedFrom(job, saved, offset, pos + 1, pending, processed, batches, effects);
      } else if |pending| + 1 < job.batchSize {
        UndisturbedFrom(job, saved, offset, pos + 1, pending + [pos], processed, batches, effects);
        assert pos in pending + [pos];
      } else {
        var f := FlushBatch(saved, offset, pending + [pos], processed, DONE, effects);
        assert (pending + [pos])[..|pending| + 1] == pending + [pos];
        assert pos in pending + [pos];
        UndisturbedFrom(job, f.saved, offset, pos + 1, [], f.processed, batches + 1, f.effects);
      }
    }
  }

  function Undisturbed(job: Job): Attempt {
    Attempt(WITHOUT_FAULTS, 2 * |job.docs| + 2)
  }

  lemma UndisturbedSession(job: Job, saved: Saved)
    ensures var e := Session(job, saved, WITHOUT_FAULTS, Undisturbed(job).effects);
      && e.finished && saved.upserted <= e.saved.upserted
      && Covered(job.docs, job.skip + saved.checkpoint, CursorEnd(job, saved.checkpoint), e.saved.upserted)
  {
    UndisturbedFrom(job, saved, saved.checkpoint, job.skip + saved.checkpoint, [], 0, 0, Undisturbed(job).effects);
  }

  /** Below its limit a session adds nothing outside its own slice. */
  lemma StaysInSlice(job: Job, saved: Saved, a: Attempt, p: nat)
    requires saved.checkpoint < job.limit
    requires p in Session(job, saved, a.fate, a.effects).saved.upserted && p !in saved.upserted
    ensures job.skip + saved.checkpoint <= p < job.skip + job.limit && p < |job.docs|
  {
    AddsInside(job, saved, saved.checkpoint, job.skip + saved.checkpoint, [], 0, 0, a.fate, a.effects, p);
  }

  predicate AddsPast(job: Job, saved: Saved, a: Attempt, p: nat) {
    p >= job.skip + job.limit && p !in saved.upserted && p in Session(job, saved, a.fate, a.effects).saved.upserted
  }

  /** The next session may upsert documents past its slice. */
  ghost predicate CanLeaveSlice(job: Job, saved: Saved) {
    exists a: Attempt, p: nat :: AddsPast(job, saved, a, p)
  }

  predicate Missing(job: Job, saved: Saved, p: nat) {
    p < |job.docs| && HasText(job.docs[p]) && p !in saved.upserted
  }

  /** It may exactly when the checkpoint has reached the limit and a later document is missing: a cursor limit of zero is none. */
  lemma LeavesSliceIff(job: Job, saved: Saved)
    ensures CanLeaveSlice(job, saved) <==>
      saved.checkpoint >= job.limit && exists p :: p >= job.skip + saved.checkpoint && Missing(job, saved, p)
  {
    hide SessionFrom;
    var a := Undisturbed(job);
    UndisturbedSession(job, saved);
    if saved.checkpoint >= job.limit {
      forall p: nat | p >= job.skip + saved.checkpoint && Missing(job, saved, p)
        ensures AddsPast(job, saved, a, p)
      {
      }
    }
    forall b: Attempt, p: nat | AddsPast(job, saved, b, p)
      ensures saved.checkpoint >= job.limit && p >= job.skip + saved.checkpoint && Missing(job, saved, p)
    {
      LeavingMisses(job, saved, b, p);
    }
  }

  /** Reading on, it finishes only with everything from its slice to the collection's end upserted. */
  lemma ResumeAtLimitReadsOn(job: Job, saved: Saved, fate: nat -> Batch, effects: nat)
    requires Sound(job, saved) && saved.checkpoint >= job.limit
    requires var e := Session(job, saved, fate, effects); e.finished && NoDrops(fate, 0, e.batches)
    ensures Covered(job.docs, job.skip, |job.docs|, Session(job, saved, fate, effects).saved.upserted)
  {
    SessionKeeps(job, saved, fate, effects);
  }

  lemma LeavingMisses(job: Job, saved: Saved, a: Attempt, p: nat)
    requires AddsPast(job, saved, a, p)
    ensures saved.checkpoint >= job.limit && p >= job.skip + saved.checkpoint && Missing(job, saved, p)
  {
    hide SessionFrom;
    if saved.checkpoint < job.limit {
      StaysInSlice(job, saved, a, p);
    }
    AddsText(job, saved, saved.checkpoint, job.skip + saved.checkpoint, [], 0, 0, a.fate, a.effects, p);
    AddsInside(job, saved, saved.checkpoint, job.skip + saved.checkpoint, [], 0, 0, a.fate, a.effects, p);
  }

  lemma {:induction false} AddsText(job: Job, saved: Saved, offset: nat, pos: nat, pending: seq<nat>, processed: nat,
                                    batches: nat, fate: nat -> Batch, effects: nat, p: nat)
    requires forall q :: q in pending ==> q < |job.docs| && HasText(job.docs[q])
    requires p in SessionFrom(job, saved, offset, pos, pending, processed, batches, fate, effects).saved.upserted
    ensures p in saved.upserted || (p < |job.docs| && HasText(job.docs[p]))
    decreases |job.docs| - pos
  {
    hide FlushBatch;
    if pos >= CursorEnd(job, offset) {
      FlushAdds(saved, offset, pending, processed, fate(batches), effects, p);
    } else if !HasText(job.docs[pos]) {
      AddsText(job, saved, offset, pos + 1, pending, processed, batches, fate, effects, p);
    } else if |pending| + 1 < job.batchSize {
      AddsText(job, saved, offset, pos + 1, pending + [pos], processed, batches, fate, effects, p);
    } else {
      var f := FlushBatch(saved, offset, pending + [pos], processed, fate(batches), effects);
      FlushAdds(saved, offset, pending + [pos], processed, fate(batches), effects, p);
      if !f.killed {
        AddsText(job, f.saved, offset, pos + 1, [], f.processed, batches + 1, fate, f.effects, p);
      }
    }
  }

  // ── Dropped batches ────────────────────────────────────────────────────

  /** A document that was read but is neither upserted nor pending. */
  predicate Lost(job: Job, saved: Saved, pos: nat, pending: seq<nat>, p: nat) {
    p < pos && p < |job.docs| && HasText(job.docs[p]) && p !in saved.upserted && p !in pending
  }

  lemma {:induction false} LostStaysLost(job: Job, saved: Saved, offset: nat, pos: nat, pending: seq<nat>, processed: nat,
                                         batches: nat, fate: nat -> Batch, effects: nat, p: nat)
    requires Lost(job, saved, pos, pending, p)
    ensures p !in SessionFrom(job, saved, offset, pos, pending, processed, batches, fate, effects).saved.upserted
    decreases |job.docs| - pos
  {
    if pos < CursorEnd(job, offset) {
      if !HasText(job.docs[pos]) {
        LostStaysLost(job, saved, offset, pos + 1, pending, processed, batches, fate, effects, p);
      } else if |pending| + 1 < job.batchSize {
        LostStaysLost(job, saved, offset, pos + 1, pending + [pos], processed, batches, fate, effects, p);
      } else {
        var f := FlushBatch(saved, offset, pending + [pos], processed, fate(batches), effects);
        if !f.killed {
          LostStaysLost(job, f.saved, offset, pos + 1, [], f.processed, batches + 1, fate, f.effects, p);
        }
      }
    }
  }

  // ── What a dropped batch costs ─────────────────────────────────────────

  /** The documents of a batch that get no point. */
  function Without(pending: seq<nat>, batch: Batch): set<nat> {
    set q | q in pending[Points(batch, |pending|)..]
  }

  /** The documents of the rest of a session that were in a dropped batch, or left without a vector. */
  function DroppedFrom(job: Job, saved: Saved, offset: nat, pos: nat, pending: seq<nat>, processed: nat,
                       batches: nat, fate: nat -> Batch, effects: nat): set<nat>
    decreases |job.docs| - pos
  {
    if pos >= CursorEnd(job, offset) then
      if pending != [] then Without(pending, fate(batches)) else {}
    else if !HasText(job.docs[pos]) then
      DroppedFrom(job, saved, offset, pos + 1, pending, processed, batches, fate, effects)
    else if |pending| + 1 < job.batchSize then
      DroppedFrom(job, saved, offset, pos + 1, pending + [pos], processed, batches, fate, effects)
    else
      var full := pending + [pos];
      var f := FlushBatch(saved, offset, full, processed, fate(batches), effects);
      Without(full, fate(batches))
      + if f.killed then {} else DroppedFrom(job, f.saved, offset, pos + 1, [], f.processed, batches + 1, fate, f.effects)
  }

  /** Pending, or still to be read and with text. */
  predicate ToUpsert(job: Job, offset: nat, pos: nat, pending: seq<nat>, p: nat) {
    p in pending || (pos <= p < CursorEnd(job, offset) && HasText(job.docs[p]))
  }

  lemma {:induction false} DroppedWasRead(job: Job, saved: Saved, offset: nat, pos: nat, pending: seq<nat>, processed: nat,
                                          batches: nat, fate: nat -> Batch, effects: nat, p: nat)
    requires p in DroppedFrom(job, saved, offset, pos, pending, processed, batches, fate, effects)
    ensures ToUpsert(job, offset, pos, pending, p)
    decreases |job.docs| - pos
  {
    hide FlushBatch;
    if pos < CursorEnd(job, offset) {
      if !HasText(job.docs[pos]) {
        DroppedWasRead(job, saved, offset, pos + 1, pending, processed, batches, fate, effects, p);
      } else if |pending| + 1 < job.batchSize {
        DroppedWasRead(job, saved, offset, pos + 1, pending + [pos], processed, batches, fate, effects, p);
      } else {
        var full := pending + [pos];
        var f := FlushBatch(saved, offset, full, processed, fate(batches), effects);
        if !f.killed && p in DroppedFrom(job, f.saved, offset, pos + 1, [], f.processed, batches + 1, fate, f.effects) {
          DroppedWasRead(job, f.saved, offset, pos + 1, [], f.processed, batches + 1, fate, f.effects, p);
        }
      }
    }
  }

  predicate Ascending(pending: seq<nat>, pos: nat) {
    && (forall i, j :: 0 <= i < j < |pending| ==> pending[i] < pending[j])
    && (forall q :: q in pending ==> q < pos)
  }

  lemma AscendingNext(pending: seq<nat>, pos: nat)
    requires Ascending(pending, pos)
    ensures Ascending(pending, pos + 1) && Ascending(pending + [pos], pos + 1) && Ascending([], pos + 1)
  {
    assert forall i :: 0 <= i < |pending| ==> (pending + [pos])[i] == pending[i] && pending[i] in pending;
  }

  /** A flush that is not killed upserts the documents of its batch, less those without a point. */
  lemma FlushUpserts(saved: Saved, offset: nat, pos: nat, pending: seq<nat>, processed: nat, batch: Batch, effects: nat, p: nat)
    requires Ascending(pending, pos)
    requires !FlushBatch(saved, offset, pending, processed, batch, effects).killed
    ensures p in FlushBatch(saved, offset, pending, processed, batch, effects).saved.upserted <==>
      p in saved.upserted || (p in pending && p !in Without(pending, batch))
    ensures p in Without(pending, batch) ==> p in pending
    ensures p in pending ==> p < pos
  {
    var n := Points(batch, |pending|);
    assert pending == pending[..n] + pending[n..];
  }

  lemma {:induction false} UpsertsExactlyFrom(job: Job, saved: Saved, offset: nat, pos: nat, pending: seq<nat>, processed: nat,
                                              batches: nat, fate: nat -> Batch, effects: nat, p: nat)
    requires Ascending(pending, pos)
    requires SessionFrom(job, saved, offset, pos, pending, processed, batches, fate, effects).finished
    ensures p in SessionFrom(job, saved, offset, pos, pending, processed, batches, fate, effects).saved.upserted <==>
      p in saved.upserted || (ToUpsert(job, offset, pos, pending, p)
        && p !in DroppedFrom(job, saved, offset, pos, pending, processed, batches, fate, effects))
    decreases |job.docs| - pos
  {
    hide FlushBatch, Without, Ascending;
    if pos >= CursorEnd(job, offset) {
      if pending != [] {
        FlushUpserts(saved, offset, pos, pending, processed, fate(batches), effects, p);
      }
    } else if !HasText(job.docs[pos]) {
      AscendingNext(pending, pos);
      UpsertsExactlyFrom(job, saved, offset, pos + 1, pending, processed, batches, fate, effects, p);
    } else if |pending| + 1 < job.batchSize {
      AscendingNext(pending, pos);
      UpsertsExactlyFrom(job, saved, offset, pos + 1, pending + [pos], processed, batches, fate, effects, p);
    } else {
      var full := pending + [pos];
      var f := FlushBatch(saved, offset, full, processed, fate(batches), effects);
      AscendingNext(pending, pos);
      FlushUpserts(saved, offset, pos + 1, full, processed, fate(batches), effects, p);
      UpsertsExactlyFrom(job, f.saved, offset, pos + 1, [], f.processed, batches + 1, fate, f.effects, p);
      if p in DroppedFrom(job, f.saved, offset, pos + 1, [], f.processed, batches + 1, fate, f.effects) {
        DroppedWasRead(job, f.saved, offset, pos + 1, [], f.processed, batches + 1, fate, f.effects, p);
      }
      assert ToUpsert(job, offset, pos, pending, p) <==> p in full || ToUpsert(job, offset, pos + 1, [], p);
    }
  }

  function DroppedDocs(job: Job, saved: Saved, fate: nat -> Batch, effects: nat): set<nat> {
    DroppedFrom(job, saved, saved.checkpoint, job.skip + saved.checkpoint, [], 0, 0, fate, effects)
  }

  /** A session that finishes, first or resumed, adds exactly the documents with text it read, less those it dropped. */
  lemma SessionUpserts(job: Job, saved: Saved, fate: nat -> Batch, effects: nat)
    requires Session(job, saved, fate, effects).finished
    ensures forall p :: p in Session(job, saved, fate, effects).saved.upserted <==>
      p in saved.upserted || (ToUpsert(job, saved.checkpoint, job.skip + saved.checkpoint, [], p)
        && p !in DroppedDocs(job, saved, fate, effects))
  {
    hide SessionFrom, DroppedFrom;
    forall p
      ensures p in Session(job, saved, fate, effects).saved.upserted <==>
        p in saved.upserted || (ToUpsert(job, saved.checkpoint, job.skip + saved.checkpoint, [], p)
          && p !in DroppedDocs(job, saved, fate, effects))
    {
      if p >= 0 {
        UpsertsExactlyFrom(job, saved, saved.checkpoint, job.skip + saved.checkpoint, [], 0, 0, fate, effects, p);
      }
    }
  }

  /** So it has covered what it read exactly when every document it dropped was there before. */
  lemma CoveredIffDroppedKnown(job: Job, saved: Saved, fate: nat -> Batch, effects: nat)
    requires Session(job, saved, fate, effects).finished
    ensures Covered(job.docs, job.skip + saved.checkpoint, CursorEnd(job, saved.checkpoint), Session(job, saved, fate, effects).saved.upserted)
      <==> DroppedDocs(job, saved, fate, effects) <= saved.upserted
  {
    hide SessionFrom, DroppedFrom;
    SessionUpserts(job, saved, fate, effects);
    forall p | p in DroppedDocs(job, saved, fate, effects)
      ensures ToUpsert(job, saved.checkpoint, job.skip + saved.checkpoint, [], p)
    {
      DroppedWasRead(job, saved, saved.checkpoint, job.skip + saved.checkpoint, [], 0, 0, fate, effects, p);
    }
  }

  /** Every batch a finished session tried kept all its documents exactly when none of them is dropped. */
  lemma {:induction false} DropsIff(job: Job, saved: Saved, offset: nat, pos: nat, pending: seq<nat>, processed: nat,
                                    batches: nat, fate: nat -> Batch, effects: nat)
    requires SessionFrom(job, saved, offset, pos, pending, processed, batches, fate, effects).finished
    ensures DroppedFrom(job, saved, offset, pos, pending, processed, batches, fate, effects) == {} <==>
      NoDrops(fate, batches, SessionFrom(job, saved, offset, pos, pending, processed, batches, fate, effects).batches)
    decreases |job.docs| - pos
  {
    hide FlushBatch, Without;
    if pos >= CursorEnd(job, offset) {
      if pending != [] {
        WithoutIff(pending, fate(batches));
      }
    } else if !HasText(job.docs[pos]) {
      DropsIff(job, saved, offset, pos + 1, pending, processed, batches, fate, effects);
    } else if |pending| + 1 < job.batchSize {
      DropsIff(job, saved, offset, pos + 1, pending + [pos], processed, batches, fate, effects);
    } else {
      var full := pending + [pos];
      var f := FlushBatch(saved, offset, full, processed, fate(batches), effects);
      WithoutIff(full, fate(batches));
      BatchesGrow(job, f.saved, offset, pos + 1, [], f.processed, batches + 1, fate, f.effects);
      DropsIff(job, f.saved, offset, pos + 1, [], f.processed, batches + 1, fate, f.effects);
    }
  }

  lemma WithoutIff(pending: seq<nat>, batch: Batch)
    requires pending != []
    ensures Without(pending, batch) == {} <==> Whole(batch)
  {
    var n := Points(batch, |pending|);
    if n < |pending| {
      assert pending[n..][0] in Without(pending, batch);
    }
  }

  /** A first session that finishes has upserted everything it read exactly when no batch dropped a document. */
  lemma CoveredIffNoDrops(job: Job, fate: nat -> Batch, effects: nat)
    requires Session(job, Saved(0, {}), fate, effects).finished
    ensures var e := Session(job, Saved(0, {}), fate, effects);
      Covered(job.docs, job.skip, CursorEnd(job, 0), e.saved.upserted) <==> NoDrops(fate, 0, e.batches)
  {
    hide SessionFrom, DroppedFrom;
    CoveredIffDroppedKnown(job, Saved(0, {}), fate, effects);
    DropsIff(job, Saved(0, {}), 0, job.skip, [], 0, 0, fate, effects);
  }

  // ── Which missing documents can still be recovered ─────────────────────

  predicate Recovers(job: Job, saved: Saved, plan: seq<Attempt>, p: nat) {
    p in AttemptsFrom(job, saved, plan).saved.upserted
  }

  ghost predicate CanRecover(job: Job, saved: Saved, p: nat) {
    exists plan :: Recovers(job, saved, plan, p)
  }

  /** A missing document below the checkpoint is never read again. */
  lemma {:induction false} StaysMissing(job: Job, saved: Saved, plan: seq<Attempt>, p: nat)
    requires Missing(job, saved, p) && p < job.skip + saved.checkpoint
    ensures var e := AttemptsFrom(job, saved, plan); Missing(job, e.saved, p) && p < job.skip + e.saved.checkpoint
    decreases |plan|
  {
    hide SessionFrom;
    if plan != [] {
      var before, last := AttemptsFrom(job, saved, plan[..|plan| - 1]).saved, plan[|plan| - 1];
      StaysMissing(job, saved, plan[..|plan| - 1], p);
      LostStaysLost(job, before, before.checkpoint, job.skip + before.checkpoint, [], 0, 0, last.fate, last.effects, p);
      SessionMonotone(job, before, last.fate, last.effects);
    }
  }

  /**
   Whatever was dropped or killed before, a missing document of the slice can
   still be upserted by further attempts exactly when the checkpoint has not
   passed it.
   */
  lemma RecoverableIff(job: Job, saved: Saved, p: nat)
    requires Missing(job, saved, p) && job.skip <= p < job.skip + job.limit
    ensures CanRecover(job, saved, p) <==> job.skip + saved.checkpoint <= p
  {
    hide SessionFrom;
    if job.skip + saved.checkpoint <= p {
      var plan := [Undisturbed(job)];
      UndisturbedSession(job, saved);
      assert plan[..0] == [];
      assert AttemptsFrom(job, saved, plan[..0]).saved == saved;
      assert Recovers(job, saved, plan, p);
    } else {
      forall plan
        ensures !Recovers(job, saved, plan, p)
      {
        StaysMissing(job, saved, plan, p);
      }
    }
  }

  const TWO_DOCS: Job := Job([Doc("a", ""), Doc("b", "")], 0, 2, 1)

  const DROPS_FIRST: Attempt := Attempt(b => if b == 0 then Dropped else DONE, 9)

  lemma FirstDropped()
    ensures Session(TWO_DOCS, Saved(0, {}), DROPS_FIRST.fate, 9) == Ended(Saved(1, {1}), true, 2, 2)
  {
    var job, fate, start := TWO_DOCS, DROPS_FIRST.fate, Saved(0, {});
    assert FlushBatch(start, 0, [0], 0, Dropped, 9) == Flushed(start, 0, 9, false);
    assert {} + (set p | p in [1]) == {1};
    assert FlushBatch(start, 0, [1], 0, DONE, 9) == Flushed(Saved(1, {1}), 1, 7, false);
    assert SessionFrom(job, Saved(1, {1}), 0, 2, [], 1, 2, fate, 7) == Ended(Saved(1, {1}), true, 2, 2);
    assert [] + [1] == [1] && [] + [0] == [0];
    assert SessionFrom(job, start, 0, 1, [], 0, 1, fate, 9) == Ended(Saved(1, {1}), true, 2, 2);
  }

  /** A worker whose first document is dropped and its second is not: no further attempts upsert the first. */
  lemma DropNotRecovered()
    ensures var e := Attempts(TWO_DOCS, [DROPS_FIRST]);
      e.finished && e.saved == Saved(1, {1}) && !CanRecover(TWO_DOCS, e.saved, 0)
  {
    hide SessionFrom;
    FirstDropped();
    assert [DROPS_FIRST][..0] == [];
    assert AttemptsFrom(TWO_DOCS, Saved(0, {}), []).saved == Saved(0, {});
    RecoverableIff(TWO_DOCS, Saved(1, {1}), 0);
  }

  const ONE_DOC: Job := Job([Doc("a", "")], 0, 1, 1)

  const DROPS_ALL: Attempt := Attempt(_ => Dropped, 9)

  lemma OnlyDropped()
    ensures Session(ONE_DOC, Saved(0, {}), DROPS_ALL.fate, 9) == Ended(Saved(0, {}), true, 1, 1)
  {
    var start := Saved(0, {});
    assert FlushBatch(start, 0, [0], 0, Dropped, 9) == Flushed(start, 0, 9, false);
    assert [] + [0] == [0];
    assert SessionFrom(ONE_DOC, start, 0, 1, [], 0, 1, DROPS_ALL.fate, 9) == Ended(start, true, 1, 1);
  }

  /** A worker whose only document is dropped: its checkpoint stays, and a further attempt can upsert it. */
  lemma DropRecovered()
    ensures var e := Attempts(ONE_DOC, [DROPS_ALL]);
      e.finished && e.saved == Saved(0, {}) && CanRecover(ONE_DOC, e.saved, 0)
  {
    hide SessionFrom;
    OnlyDropped();
    assert [DROPS_ALL][..0] == [];
    assert AttemptsFrom(ONE_DOC, Saved(0, {}), []).saved == Saved(0, {});
    RecoverableIff(ONE_DOC, Saved(0, {}), 0);
  }

  // ── Slices ─────────────────────────────────────────────────────────────

  datatype Slice = Slice(skip: nat, limit: nat)

  function Chunk(cap: nat, workers: nat): nat
    requires workers >= 1
  {
    (cap + workers - 1) / workers
  }

  /** The slices of the first `i` workers; one that would be empty is not started. */
  function Slices(cap: nat, workers: nat, i: nat): seq<Slice>
    requires workers >= 1
  {
    if i == 0 then []
    else
      var before := Slices(cap, workers, i - 1);
      var skip := (i - 1) * Chunk(cap, workers);
      if skip >= cap then before
      else before + [Slice(skip, if Chunk(cap, workers) < cap - skip then Chunk(cap, workers) else cap - skip)]
  }

  method PlanSlices(cap: nat, workers: nat) returns (slices: seq<Slice>)
    requires workers >= 1
    ensures slices == Slices(cap, workers, workers)
  {
    slices := [];
    var chunk := Chunk(cap, workers);
    var i := 0;
    while i < workers
      invariant i <= workers && slices == Slices(cap, workers, i)
    {
      var skip := i * chunk;
      var limit := if chunk < cap - skip then chunk else cap - skip;
      if limit <= 0 {
        if chunk > 0 { NoMoreSlices(cap, workers, i, workers); } else { ChunkZero(cap, workers, i); }
        break;
      }
      slices := slices + [Slice(skip, limit)];
      i := i + 1;
    }
  }

  lemma MulMonotone(a: nat, b: nat, c: nat)
    requires a <= b
    ensures a * c <= b * c
  {
  }

  lemma {:induction false} NoMoreSlices(cap: nat, workers: nat, i: nat, n: nat)
    requires workers >= 1 && i <= n && i * Chunk(cap, workers) >= cap
    ensures Slices(cap, workers, n) == Slices(cap, workers, i)
    decreases n
  {
    hide Chunk;
    if i < n {
      NoMoreSlices(cap, workers, i, n - 1);
      MulMonotone(i, n - 1, Chunk(cap, workers));
    }
  }

  lemma ChunkZero(cap: nat, workers: nat, i: nat)
    requires workers >= 1 && Chunk(cap, workers) == 0 && i <= workers
    ensures Slices(cap, workers, workers) == Slices(cap, workers, i)
  {
    ChunkCovers(cap, workers);
    NoMoreSlices(cap, workers, i, workers);
  }

  lemma ChunkCovers(cap: nat, workers: nat)
    requires workers >= 1
    ensures workers * Chunk(cap, workers) >= cap
  {
    var q := Chunk(cap, workers);
    assert cap + workers - 1 == workers * q + (cap + workers - 1) % workers;
  }

  predicate InSlice(s: Slice, p: nat) {
    s.skip <= p < s.skip + s.limit
  }

  ghost predicate InSome(slices: seq<Slice>, p: nat) {
    exists k :: 0 <= k < |slices| && InSlice(slices[k], p)
  }

  lemma {:induction false} SlicesAt(cap: nat, workers: nat, i: nat)
    requires workers >= 1
    ensures var s := Slices(cap, workers, i); var chunk := Chunk(cap, workers);
      && |s| <= i && (|s| == i || |s| * chunk >= cap)
      && forall k :: 0 <= k < |s| ==>
           k * chunk < cap && s[k] == Slice(k * chunk, if chunk < cap - k * chunk then chunk else cap - k * chunk)
    decreases i
  {
    hide Chunk;
    if i > 0 {
      SlicesAt(cap, workers, i - 1);
      if (i - 1) * Chunk(cap, workers) >= cap {
        NoMoreSlices(cap, workers, i - 1, i);
      } else if |Slices(cap, workers, i - 1)| < i - 1 {
        MulMonotone(|Slices(cap, workers, i - 1)|, i - 1, Chunk(cap, workers));
      }
    }
  }

  /** The slices of all workers are disjoint, and cover exactly the documents below the cap. */
  lemma SlicesPartition(cap: nat, workers: nat)
    requires workers >= 1
    ensures var s := Slices(cap, workers, workers);
      && (forall p: nat :: InSome(s, p) <==> p < cap)
      && (forall j, k, p: nat :: 0 <= j < k < |s| && InSlice(s[j], p) ==> !InSlice(s[k], p))
  {
    hide Chunk, Slices;
    var s, chunk := Slices(cap, workers, workers), Chunk(cap, workers);
    SlicesAt(cap, workers, workers);
    ChunkCovers(cap, workers);
    forall p: nat
      ensures InSome(s, p) <==> p < cap
    {
      if p < cap {
        SliceOf(s, chunk, cap, p);
      }
    }
    forall j, k, p: nat | 0 <= j < k < |s| && InSlice(s[j], p)
      ensures !InSlice(s[k], p)
    {
      MulMonotone(j + 1, k, chunk);
      assert (j + 1) * chunk == j * chunk + chunk;
    }
  }

  lemma SliceOf(s: seq<Slice>, chunk: nat, cap: nat, p: nat)
    requires p < cap <= |s| * chunk
    requires forall k :: 0 <= k < |s| ==>
      k * chunk < cap && s[k] == Slice(k * chunk, if chunk < cap - k * chunk then chunk else cap - k * chunk)
    ensures InSome(s, p)
  {
    var k := p / chunk;
    assert p == chunk * k + p % chunk;
    if k >= |s| {
      MulMonotone(|s|, k, chunk);
    }
    assert InSlice(s[k], p);
  }

  /** The worker of a slice has upserted the document, over all its sessions. */
  predicate Upserted(docs: seq<Doc>, s: Slice, batchSize: nat, plan: seq<Attempt>, p: nat) {
    p in Attempts(Job(docs, s.skip, s.limit, batchSize), plan).saved.upserted
  }

  /** Once every worker has finished a session, every document with text below the cap is upserted. */
  lemma AllIngested(docs: seq<Doc>, cap: nat, workers: nat, batchSize: nat, plans: seq<seq<Attempt>>)
    requires workers >= 1 && |plans| == |Slices(cap, workers, workers)|
    requires forall k :: 0 <= k < |plans| ==>
      var s := Slices(cap, workers, workers)[k];
      NeverDrops(plans[k]) && Attempts(Job(docs, s.skip, s.limit, batchSize), plans[k]).finished
    ensures forall p :: 0 <= p < cap && p < |docs| && HasText(docs[p]) ==>
      exists k :: 0 <= k < |plans| && Upserted(docs, Slices(cap, workers, workers)[k], batchSize, plans[k], p)
  {
    hide Attempts, Slices;
    SlicesPartition(cap, workers);
    var slices := Slices(cap, workers, workers);
    forall p | 0 <= p < cap && p < |docs| && HasText(docs[p])
      ensures exists k :: 0 <= k < |plans| && Upserted(docs, slices[k], batchSize, plans[k], p)
    {
      assert InSome(slices, p);
      var k :| 0 <= k < |slices| && InSlice(slices[k], p);
      Recovered(Job(docs, slices[k].skip, slices[k].limit, batchSize), plans[k]);
      assert Upserted(docs, slices[k], batchSize, plans[k], p);
    }
  }

  // ── Resuming with other slices ─────────────────────────────────────────

  /** Checkpoint files are named by worker number alone: a worker starts from whatever an earlier one of its number left. */
  function StartOf(checkpoints: seq<nat>, i: nat): nat {
    if i < |checkpoints| then checkpoints[i] else 0
  }

  function JobOf(docs: seq<Doc>, s: Slice, batchSize: nat): Job {
    Job(docs, s.skip, s.limit, batchSize)
  }

  /** Worker `i`, over all its sessions, from the checkpoint it finds; what others stored makes no difference to it. */
  function WorkerEnd(docs: seq<Doc>, slices: seq<Slice>, batchSize: nat, starts: seq<nat>, plans: seq<seq<Attempt>>, i: nat): Ended
    requires i < |slices| && i < |plans|
  {
    AttemptsFrom(JobOf(docs, slices[i], batchSize), Saved(StartOf(starts, i), {}), plans[i])
  }

  ghost predicate StoredBy(docs: seq<Doc>, slices: seq<Slice>, batchSize: nat, starts: seq<nat>, plans: seq<seq<Attempt>>, p: nat)
    requires |plans| == |slices|
  {
    exists i :: 0 <= i < |slices| && p in WorkerEnd(docs, slices, batchSize, starts, plans, i).saved.upserted
  }

  ghost predicate NoneDrops(plans: seq<seq<Attempt>>) {
    forall i :: 0 <= i < |plans| ==> NeverDrops(plans[i])
  }

  /** Workers that started without checkpoints, dropped no batch and left these checkpoints, killed or not. */
  ghost predicate Leave(docs: seq<Doc>, slices: seq<Slice>, batchSize: nat, plans: seq<seq<Attempt>>, checkpoints: seq<nat>) {
    && |plans| == |slices| == |checkpoints| && NoneDrops(plans)
    && forall i :: 0 <= i < |slices| ==> WorkerEnd(docs, slices, batchSize, [], plans, i).saved.checkpoint == checkpoints[i]
  }

  /** Workers that started from these checkpoints, dropped no batch and all finished. */
  ghost predicate Finish(docs: seq<Doc>, slices: seq<Slice>, batchSize: nat, plans: seq<seq<Attempt>>, checkpoints: seq<nat>) {
    && |plans| == |slices| && NoneDrops(plans)
    && forall i :: 0 <= i < |slices| ==> WorkerEnd(docs, slices, batchSize, checkpoints, plans, i).finished
  }

  /** Whatever the collection and the runs, a document with text at `p` is stored by one of the two. */
  ghost predicate Survives(before: seq<Slice>, checkpoints: seq<nat>, after: seq<Slice>, p: nat) {
    forall docs, b, c, plans, rerun ::
      Leave(docs, before, b, plans, checkpoints) && Finish(docs, after, c, rerun, checkpoints) && p < |docs| && HasText(docs[p]) ==>
        StoredBy(docs, before, b, [], plans, p) || StoredBy(docs, after, c, checkpoints, rerun, p)
  }

  /** Position `p` lies in the part of its slice that an old checkpoint claims. */
  predicate Claims(s: Slice, checkpoint: nat, p: nat) {
    s.skip <= p < s.skip + checkpoint
  }

  /** A worker of slice `s` that starts from the checkpoint reads position `p`; at or past its limit it reads on. */
  predicate ReadsAt(s: Slice, checkpoint: nat, p: nat) {
    s.skip + checkpoint <= p && (p < s.skip + s.limit || checkpoint >= s.limit)
  }

  ghost predicate Reached(before: seq<Slice>, checkpoints: seq<nat>, after: seq<Slice>, p: nat)
    requires |checkpoints| == |before|
  {
    || (exists i :: 0 <= i < |before| && Claims(before[i], checkpoints[i], p))
    || (exists i :: 0 <= i < |after| && ReadsAt(after[i], StartOf(checkpoints, i), p))
  }

  lemma ReachedSurvives(before: seq<Slice>, checkpoints: seq<nat>, after: seq<Slice>, p: nat, docs: seq<Doc>, b: nat, c: nat,
                        plans: seq<seq<Attempt>>, rerun: seq<seq<Attempt>>)
    requires |checkpoints| == |before| && Reached(before, checkpoints, after, p)
    requires Leave(docs, before, b, plans, checkpoints) && Finish(docs, after, c, rerun, checkpoints)
    requires p < |docs| && HasText(docs[p])
    ensures StoredBy(docs, before, b, [], plans, p) || StoredBy(docs, after, c, checkpoints, rerun, p)
  {
    hide AttemptsFrom;
    if i :| 0 <= i < |before| && Claims(before[i], checkpoints[i], p) {
      AttemptsKeep(JobOf(docs, before[i], b), before[i].skip, Saved(0, {}), plans[i]);
      assert p in WorkerEnd(docs, before, b, [], plans, i).saved.upserted;
    } else {
      var i :| 0 <= i < |after| && ReadsAt(after[i], StartOf(checkpoints, i), p);
      var start := StartOf(checkpoints, i);
      AttemptsKeep(JobOf(docs, after[i], c), after[i].skip + start, Saved(start, {}), rerun[i]);
      assert p in WorkerEnd(docs, after, c, checkpoints, rerun, i).saved.upserted;
    }
  }

  // A history for any checkpoints: batches of one, and every session killed after its first.

  const ONE_BATCH: Attempt := Attempt(WITHOUT_FAULTS, 2)

  predicate InRange(from: nat, to: nat, p: nat) {
    from <= p < to
  }

  function Range(from: nat, to: nat): set<nat> {
    set p: nat | p < to && InRange(from, to, p)
  }

  ghost predicate AllText(docs: seq<Doc>) {
    forall p :: 0 <= p < |docs| ==> HasText(docs[p])
  }

  lemma OneBatch(job: Job, saved: Saved)
    requires AllText(job.docs) && job.batchSize == 1 && job.skip + saved.checkpoint < |job.docs|
    ensures Session(job, saved, ONE_BATCH.fate, ONE_BATCH.effects).saved
      == Saved(saved.checkpoint + 1, saved.upserted + {job.skip + saved.checkpoint})
  {
    var offset, pos := saved.checkpoint, job.skip + saved.checkpoint;
    var next := Saved(offset + 1, saved.upserted + {pos});
    assert [] + [pos] == [pos] && [pos][..1] == [pos];
    assert FlushBatch(saved, offset, [pos], 0, DONE, 2) == Flushed(next, 1, 0, false);
    assert SessionFrom(job, next, offset, pos + 1, [], 1, 1, WITHOUT_FAULTS, 0).saved == next;
    assert SessionFrom(job, saved, offset, pos, [], 0, 0, WITHOUT_FAULTS, 2)
      == SessionFrom(job, next, offset, pos + 1, [], 1, 1, WITHOUT_FAULTS, 0);
  }

  lemma {:induction false} ManyBatches(job: Job, n: nat)
    requires AllText(job.docs) && job.batchSize == 1 && job.skip + n <= |job.docs|
    ensures Attempts(job, seq(n, _ => ONE_BATCH)).saved == Saved(n, Range(job.skip, job.skip + n))
  {
    hide SessionFrom;
    var plan := seq(n, _ => ONE_BATCH);
    if n > 0 {
      assert plan[..n - 1] == seq(n - 1, _ => ONE_BATCH);
      ManyBatches(job, n - 1);
      OneBatch(job, Attempts(job, plan[..n - 1]).saved);
      assert Range(job.skip, job.skip + n) == Range(job.skip, job.skip + n - 1) + {job.skip + n - 1};
    }
  }

  /** An undisturbed session of a worker reads just what `ReadsAt` says. */
  lemma UndisturbedReads(docs: seq<Doc>, s: Slice, start: nat, p: nat)
    ensures var e := AttemptsFrom(JobOf(docs, s, 1), Saved(start, {}), [Undisturbed(JobOf(docs, s, 1))]);
      e.finished && (p in e.saved.upserted ==> ReadsAt(s, start, p))
  {
    hide SessionFrom;
    var job := JobOf(docs, s, 1);
    UndisturbedSession(job, Saved(start, {}));
    assert [Undisturbed(job)][..0] == [];
    var e := Session(job, Saved(start, {}), Undisturbed(job).fate, Undisturbed(job).effects);
    if p in e.saved.upserted {
      AddsInside(job, Saved(start, {}), start, job.skip + start, [], 0, 0, Undisturbed(job).fate, Undisturbed(job).effects, p);
    }
  }

  function {:induction false} Longest(slices: seq<Slice>, checkpoints: seq<nat>): (n: nat)
    requires |checkpoints| == |slices|
    ensures forall i :: 0 <= i < |slices| ==> slices[i].skip + checkpoints[i] <= n
  {
    if slices == [] then 0
    else
      var k := |slices| - 1;
      var rest := Longest(slices[..k], checkpoints[..k]);
      assert forall i :: 0 <= i < k ==> slices[..k][i] == slices[i] && checkpoints[..k][i] == checkpoints[i];
      if rest < slices[k].skip + checkpoints[k] then slices[k].skip + checkpoints[k] else rest
  }

  lemma UnreachedLost(before: seq<Slice>, checkpoints: seq<nat>, after: seq<Slice>, p: nat)
    requires |checkpoints| == |before| && !Reached(before, checkpoints, after, p)
    ensures !Survives(before, checkpoints, after, p)
  {
    hide AttemptsFrom, Session;
    var docs := seq(Longest(before, checkpoints) + p + 1, _ => Doc("a", ""));
    var plans := seq(|before|, i requires 0 <= i < |before| => seq(checkpoints[i], _ => ONE_BATCH));
    var rerun := seq(|after|, i requires 0 <= i < |after| => [Undisturbed(JobOf(docs, after[i], 1))]);
    forall i | 0 <= i < |before|
      ensures WorkerEnd(docs, before, 1, [], plans, i).saved == Saved(checkpoints[i], Range(before[i].skip, before[i].skip + checkpoints[i]))
    {
      ManyBatches(JobOf(docs, before[i], 1), checkpoints[i]);
    }
    forall i | 0 <= i < |after|
      ensures WorkerEnd(docs, after, 1, checkpoints, rerun, i).finished
      ensures p !in WorkerEnd(docs, after, 1, checkpoints, rerun, i).saved.upserted
    {
      UndisturbedReads(docs, after[i], StartOf(checkpoints, i), p);
    }
    assert Leave(docs, before, 1, plans, checkpoints);
    assert Finish(docs, after, 1, rerun, checkpoints);
  }

  /**
   Resuming with other slices: a position is sure to be stored exactly when an
   old checkpoint claims it or a new worker, from the checkpoint it finds,
   reads it.
   */
  lemma ResliceIff(before: seq<Slice>, checkpoints: seq<nat>, after: seq<Slice>, p: nat)
    requires |checkpoints| == |before|
    ensures Survives(before, checkpoints, after, p) <==> Reached(before, checkpoints, after, p)
  {
    if Reached(before, checkpoints, after, p) {
      forall docs, b, c, plans, rerun |
        Leave(docs, before, b, plans, checkpoints) && Finish(docs, after, c, rerun, checkpoints) && p < |docs| && HasText(docs[p])
        ensures StoredBy(docs, before, b, [], plans, p) || StoredBy(docs, after, c, checkpoints, rerun, p)
      {
        ReachedSurvives(before, checkpoints, after, p, docs, b, c, plans, rerun);
      }
    } else {
      UnreachedLost(before, checkpoints, after, p);
    }
  }

  /** With the same slices every position of a slice is reached, whatever the checkpoints. */
  lemma SameSlicesSurvive(slices: seq<Slice>, checkpoints: seq<nat>, p: nat)
    requires |checkpoints| == |slices| && InSome(slices, p)
    ensures Survives(slices, checkpoints, slices, p)
  {
    var i :| 0 <= i < |slices| && InSlice(slices[i], p);
    assert Claims(slices[i], checkpoints[i], p) || ReadsAt(slices[i], StartOf(checkpoints, i), p);
    ResliceIff(slices, checkpoints, slices, p);
  }

  /** Four documents, two workers of which the second finished, resumed with four workers: the second document is lost. */
  lemma ResliceLoses()
    ensures Slices(4, 2, 2) == [Slice(0, 2), Slice(2, 2)]
    ensures Slices(4, 4, 4) == [Slice(0, 1), Slice(1, 1), Slice(2, 1), Slice(3, 1)]
    ensures !Survives(Slices(4, 2, 2), [0, 2], Slices(4, 4, 4), 1)
  {
    assert Slices(4, 2, 0) == [];
    assert Slices(4, 2, 1) == [Slice(0, 2)];
    assert Slices(4, 4, 0) == [];
    assert Slices(4, 4, 1) == [Slice(0, 1)];
    assert Slices(4, 4, 2) == [Slice(0, 1), Slice(1, 1)];
    assert Slices(4, 4, 3) == [Slice(0, 1), Slice(1, 1), Slice(2, 1)];
    ResliceIff(Slices(4, 2, 2), [0, 2], Slices(4, 4, 4), 1);
  }
}
