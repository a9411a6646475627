/** The background saver: snapshots under the lock, writes after releasing it, in any interleaving
    with the operations of the store. */
module KvWatcher {
  import opened Principals
  import opened KvIndex
  import opened KvFile

  /** A store, the text the saver still has to write, and its file. `intact` says that the file is
      what the last completed write, or the restart, left in full. */
  datatype Watched = Watched(s: KvState, pending: Option<string>, file: string, intact: bool)

  datatype Step =
    | Do(op: Op)
    | Snapshot(ks: seq<string>)
    | Flush(ok: bool, torn: string)

  /** One saver: it starts no snapshot before its last write has ended. It may start one at any
      other time, not only when the store says it has changed. */
  ghost predicate Enabled(w: Watched, step: Step) {
    match step
    case Do(_) => true
    case Snapshot(ks) => w.pending.None? && OrderOk(ks, w.s.data)
    case Flush(_, _) => w.pending.Some?
  }

  ghost function After(w: Watched, step: Step): Watched
    requires Enabled(w, step)
  {
    match step
    case Do(op) => w.(s := Apply(w.s, op))
    case Snapshot(ks) => w.(s := w.s.(changed := false), pending := Some(Render(w.s.data, ks)))
    case Flush(ok, torn) => w.(file := if ok then w.pending.value else torn, intact := ok, pending := None)
  }

  /** A new store, which has never been written, or one just restored from its file. */
  ghost predicate Start(w: Watched, buildIndex: bool) {
    && w.pending.None?
    && if w.intact then w.s == Restored(w.file, buildIndex) else w.s == Replay(buildIndex, [])
  }

  ghost predicate IsRun(buildIndex: bool, states: seq<Watched>, steps: seq<Step>) {
    && |states| == |steps| + 1 && Start(states[0], buildIndex)
    && forall i :: 0 <= i < |steps| ==> Enabled(states[i], steps[i]) && states[i + 1] == After(states[i], steps[i])
  }

  // ---------------------------------------------------------------- what a history says

  /** The data at the last snapshot among the first `n` steps, or at the start. */
  function Base(states: seq<Watched>, steps: seq<Step>, n: nat): Lists
    requires n <= |steps| < |states|
  {
    if n == 0 then states[0].s.data
    else if steps[n - 1].Snapshot? then states[n - 1].s.data
    else Base(states, steps, n - 1)
  }

  /** The keys deleted since the last snapshot among the first `n` steps. */
  function DeletedSince(steps: seq<Step>, n: nat): set<string>
    requires n <= |steps|
  {
    if n == 0 || steps[n - 1].Snapshot? then {}
    else
      DeletedSince(steps, n - 1)
      + if steps[n - 1].Do? && steps[n - 1].op.Delete? then {steps[n - 1].op.path} else {}
  }

  /** Restoring the text gives the data, provided the data can be written at all. */
  ghost predicate Reads(buildIndex: bool, text: string, data: Lists) {
    Clean(data) ==> Restored(text, buildIndex).data == data
  }

  /** While nothing has been written since the last snapshot, only deletes have touched the data;
      and the text on its way, or the file if nothing is on its way, is that snapshot's. */
  ghost predicate Inv(buildIndex: bool, states: seq<Watched>, steps: seq<Step>, n: nat)
    requires n <= |steps| < |states|
  {
    var w, base := states[n], Base(states, steps, n);
    && (!w.s.changed ==> w.s.data == base - DeletedSince(steps, n))
    && (w.pending.Some? ==> Reads(buildIndex, w.pending.value, base))
    && (w.pending.None? && w.intact ==> Reads(buildIndex, w.file, base))
  }

  lemma {:induction false} InvThroughout(buildIndex: bool, states: seq<Watched>, steps: seq<Step>, n: nat)
    requires IsRun(buildIndex, states, steps) && n <= |steps|
    ensures Inv(buildIndex, states, steps, n)
  {
    if n == 0 {
      assert states[0].s.data - {} == states[0].s.data;
    } else {
      InvThroughout(buildIndex, states, steps, n - 1);
      var w, base := states[n - 1], Base(states, steps, n - 1);
      match steps[n - 1] {
        case Do(op) =>
          if op.Delete? {
            assert base - DeletedSince(steps, n) == (base - DeletedSince(steps, n - 1)) - {op.path};
          } else {
            assert base - (DeletedSince(steps, n - 1) + {}) == base - DeletedSince(steps, n - 1);
          }
        case Snapshot(ks) =>
          RoundTripIff(w.s.data, ks, buildIndex);
          assert w.s.data - {} == w.s.data;
        case Flush(_, _) =>
          assert base - (DeletedSince(steps, n - 1) + {}) == base - DeletedSince(steps, n - 1);
      }
    }
  }

  /** Whenever the store counts as unchanged, no write is on its way and the last one succeeded,
      a restart gives the data of the snapshot: every live key with its values, and any other key only
      if it was deleted since; so it gives exactly the live data just when no key of the snapshot
      has been deleted since. */
  lemma Durability(buildIndex: bool, states: seq<Watched>, steps: seq<Step>, n: nat)
    requires IsRun(buildIndex, states, steps) && n <= |steps|
    requires !states[n].s.changed && states[n].pending.None? && states[n].intact
    requires Clean(Base(states, steps, n))
    ensures var live, again := states[n].s.data, Restored(states[n].file, buildIndex).data;
            && (forall k :: k in live ==> k in again && again[k] == live[k])
            && (forall k :: k in again && k !in live ==> k in DeletedSince(steps, n))
            && again == Base(states, steps, n)
            && (again == live <==> Base(states, steps, n).Keys !! DeletedSince(steps, n))
  {
    InvThroughout(buildIndex, states, steps, n);
    var live, again := states[n].s.data, Restored(states[n].file, buildIndex).data;
    if again.Keys !! DeletedSince(steps, n) {
      assert again - DeletedSince(steps, n) == again;
    } else {
      var k :| k in again && k in DeletedSince(steps, n);
      assert k !in live;
    }
  }

  /** Data that is clean stays clean, so saving never meets an unwritable list, when only clean
      operations are applied. */
  lemma {:induction false} CleanThroughout(buildIndex: bool, states: seq<Watched>, steps: seq<Step>, n: nat)
    requires IsRun(buildIndex, states, steps) && n <= |steps|
    requires forall i :: 0 <= i < |steps| && steps[i].Do? && steps[i].op.Write? ==> CleanOp(steps[i].op)
    ensures Clean(states[n].s.data) && Clean(Base(states, steps, n))
  {
    if n == 0 {
      if states[0].intact {
        RestoredIsClean(states[0].file, buildIndex);
      }
    } else {
      CleanThroughout(buildIndex, states, steps, n - 1);
    }
  }

  /** Durability of a store whose callers write clean keys and values only. */
  lemma CleanStoreIsDurable(buildIndex: bool, states: seq<Watched>, steps: seq<Step>, n: nat)
    requires IsRun(buildIndex, states, steps) && n <= |steps|
    requires forall i :: 0 <= i < |steps| && steps[i].Do? && steps[i].op.Write? ==> CleanOp(steps[i].op)
    requires !states[n].s.changed && states[n].pending.None? && states[n].intact
    ensures var live, again := states[n].s.data, Restored(states[n].file, buildIndex).data;
            && (forall k :: k in live ==> k in again && again[k] == live[k])
            && (forall k :: k in again && k !in live ==> k in DeletedSince(steps, n))
            && again == Base(states, steps, n)
            && (again == live <==> Base(states, steps, n).Keys !! DeletedSince(steps, n))
  {
    CleanThroughout(buildIndex, states, steps, n);
    Durability(buildIndex, states, steps, n);
  }

  /** A deleted key comes back: after a save, deleting a saved key leaves the store unchanged in its
      own eyes, and a restart gives the key its old values. */
  lemma DeletedKeyReturns(w: Watched, ks: seq<string>, k: string, buildIndex: bool)
    requires w.pending.None? && OrderOk(ks, w.s.data) && Clean(w.s.data) && k in w.s.data
    ensures var saved := After(After(w, Snapshot(ks)), Flush(true, ""));
            var gone := After(saved, Do(Delete(k)));
            && !gone.s.changed && k !in gone.s.data
            && k in Restored(gone.file, buildIndex).data && Restored(gone.file, buildIndex).data[k] == w.s.data[k]
  {
    RoundTripIff(w.s.data, ks, buildIndex);
  }

  /** A failed write is forgotten: the store counts as unchanged while the file lacks its data. */
  lemma FailedWriteForgotten(w: Watched, ks: seq<string>, buildIndex: bool)
    requires w.pending.None? && OrderOk(ks, w.s.data) && w.s.data != map[]
    ensures var lost := After(After(w, Snapshot(ks)), Flush(false, ""));
            && !lost.s.changed && lost.pending.None? && lost.s.data == w.s.data
            && Restored(lost.file, buildIndex).data == map[]
  {
  }
}
