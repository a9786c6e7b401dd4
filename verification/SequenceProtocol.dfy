/**
 Contract numbers under concurrency: transactions that begin, take the advisory lock of their store,
 upsert the sequence row and commit or abort, interleaved in any way.
 */
module SequenceProtocol {
  import opened Domain
  import opened Numbering
  import Engine

  type TxId = nat

  /** What the advisory lock key names. */
  datatype Bucket = Bucket(tenant: Id, store: Id)

  datatype Phase = Begun | Locked | Upserted(yearMonth: string, number: nat)

  datatype Tx = Tx(bucket: Bucket, phase: Phase)

  /**
   committed: contract_sequences as other transactions see it; locks: advisory lock holder per hash;
   open: unfinished transactions; log: numbers in commit order.
   */
  datatype World = World(
    committed: map<SequenceKey, nat>, locks: map<int, TxId>, open: map<TxId, Tx>, log: seq<Issue>)

  datatype Event =
    | Begin(tx: TxId, bucket: Bucket)
    | AcquireLock(tx: TxId)
    | Upsert(tx: TxId, yearMonth: string)
    | Commit(tx: TxId)
    | Abort(tx: TxId)

  function Key(bucket: Bucket, yearMonth: string): SequenceKey {
    SequenceKey(bucket.tenant, bucket.store, yearMonth)
  }

  function Release(locks: map<int, TxId>, tx: TxId): map<int, TxId> {
    map h | h in locks && locks[h] != tx :: locks[h]
  }

  /** Whether the event can happen now; a lock that is held makes its requester wait. */
  predicate Enabled(hash: Bucket -> int, w: World, e: Event) {
    match e
    case Begin(tx, _) => tx !in w.open
    case AcquireLock(tx) => tx in w.open && w.open[tx].phase == Begun && hash(w.open[tx].bucket) !in w.locks
    case Upsert(tx, _) => tx in w.open && w.open[tx].phase == Locked
    case Commit(tx) => tx in w.open && w.open[tx].phase.Upserted?
    case Abort(tx) => tx in w.open
  }

  function Happen(hash: Bucket -> int, w: World, e: Event): World {
    if !Enabled(hash, w, e) then w
    else
      match e
      case Begin(tx, bucket) => w.(open := w.open[tx := Tx(bucket, Begun)])
      case AcquireLock(tx) =>
        w.(open := w.open[tx := w.open[tx].(phase := Locked)], locks := w.locks[hash(w.open[tx].bucket) := tx])
      case Upsert(tx, yearMonth) =>
        var n := Engine.NextNumber(w.committed, Key(w.open[tx].bucket, yearMonth));
        w.(open := w.open[tx := w.open[tx].(phase := Upserted(yearMonth, n))])
      case Commit(tx) =>
        var key, n := Key(w.open[tx].bucket, w.open[tx].phase.yearMonth), w.open[tx].phase.number;
        World(w.committed[key := n], Release(w.locks, tx), w.open - {tx}, w.log + [Issue(key, n)])
      case Abort(tx) => w.(locks := Release(w.locks, tx), open := w.open - {tx})
  }

  function Run(hash: Bucket -> int, events: seq<Event>): World {
    if events == [] then World(map[], map[], map[], [])
    else Happen(hash, Run(hash, events[..|events| - 1]), events[|events| - 1])
  }

  // ---------------------------------------------------------------- what every event keeps

  ghost predicate Holds(hash: Bucket -> int, w: World, tx: TxId) {
    tx in w.open && hash(w.open[tx].bucket) in w.locks && w.locks[hash(w.open[tx].bucket)] == tx
  }

  ghost predicate LocksHeld(hash: Bucket -> int, w: World) {
    && (forall tx | tx in w.open && w.open[tx].phase != Begun :: Holds(hash, w, tx))
    && (forall h | h in w.locks :: HeldByOpen(hash, w, h))
  }

  ghost predicate HeldByOpen(hash: Bucket -> int, w: World, h: int)
    requires h in w.locks
  {
    var tx := w.locks[h];
    tx in w.open && w.open[tx].phase != Begun && hash(w.open[tx].bucket) == h
  }

  /** What an open transaction has upserted is still the number after the committed one. */
  ghost predicate PendingIsNext(w: World) {
    forall tx | tx in w.open && w.open[tx].phase.Upserted? ::
      w.open[tx].phase.number == Last(w.committed, Key(w.open[tx].bucket, w.open[tx].phase.yearMonth)) + 1
  }

  ghost predicate Safe(hash: Bucket -> int, w: World) {
    LocksHeld(hash, w) && PendingIsNext(w) && Gapless(w.log, w.committed)
  }

  lemma MutualExclusion(hash: Bucket -> int, w: World, a: TxId, b: TxId)
    requires LocksHeld(hash, w) && a in w.open && b in w.open
    requires w.open[a].phase != Begun && w.open[b].phase != Begun && w.open[a].bucket == w.open[b].bucket
    ensures a == b
  {
    assert Holds(hash, w, a) && Holds(hash, w, b);
  }

  lemma LocksStayHeld(hash: Bucket -> int, w: World, e: Event)
    requires LocksHeld(hash, w)
    ensures LocksHeld(hash, Happen(hash, w, e))
  {
    var w' := Happen(hash, w, e);
    forall tx | tx in w'.open && w'.open[tx].phase != Begun ensures Holds(hash, w', tx) {
      if tx in w.open && w.open[tx].phase != Begun {
        assert Holds(hash, w, tx);
      }
    }
    forall h | h in w'.locks ensures HeldByOpen(hash, w', h) {
      if h in w.locks {
        assert HeldByOpen(hash, w, h);
      }
    }
  }

  lemma PendingStaysNext(hash: Bucket -> int, w: World, e: Event)
    requires LocksHeld(hash, w) && PendingIsNext(w)
    ensures PendingIsNext(Happen(hash, w, e))
  {
    var w' := Happen(hash, w, e);
    if e.Commit? && Enabled(hash, w, e) {
      forall tx | tx in w'.open && w'.open[tx].phase.Upserted?
        ensures w'.open[tx].phase.number == Last(w'.committed, Key(w'.open[tx].bucket, w'.open[tx].phase.yearMonth)) + 1
      {
        assert w.open[tx].bucket != w.open[e.tx].bucket by {
          if w.open[tx].bucket == w.open[e.tx].bucket {
            MutualExclusion(hash, w, tx, e.tx);
          }
        }
      }
    }
  }

  lemma StepSafe(hash: Bucket -> int, w: World, e: Event)
    requires Safe(hash, w)
    ensures Safe(hash, Happen(hash, w, e))
  {
    hide LocksHeld, Gapless;
    LocksStayHeld(hash, w, e);
    PendingStaysNext(hash, w, e);
    if e.Commit? && Enabled(hash, w, e) {
      GaplessAppend(w.log, w.committed, Key(w.open[e.tx].bucket, w.open[e.tx].phase.yearMonth));
    }
  }

  lemma {:induction false} RunSafe(hash: Bucket -> int, events: seq<Event>)
    ensures Safe(hash, Run(hash, events))
  {
    if events == [] {
    } else {
      RunSafe(hash, events[..|events| - 1]);
      StepSafe(hash, Run(hash, events[..|events| - 1]), events[|events| - 1]);
    }
  }

  /**
   Under every interleaving, with any lock hash, the numbers committed for each tenant, store and month
   are exactly 1 to last_seq, each once, in commit order: aborts leave no gap.
   */
  lemma CommittedNumbersAreGapless(hash: Bucket -> int, events: seq<Event>, key: SequenceKey)
    ensures var w := Run(hash, events);
            Numbers(w.log, key) == UpTo(Last(w.committed, key))
  {
    RunSafe(hash, events);
  }

  /** Two transactions of one store are never both past the lock. */
  lemma OneTransactionPastTheLock(hash: Bucket -> int, events: seq<Event>, a: TxId, b: TxId)
    requires var open := Run(hash, events).open;
             a in open && b in open && open[a].phase != Begun && open[b].phase != Begun && open[a].bucket == open[b].bucket
    ensures a == b
  {
    RunSafe(hash, events);
    MutualExclusion(hash, Run(hash, events), a, b);
  }

  // ---------------------------------------------------------------- the atomic allocator

  /** One allocation as the atomic service steps make it. */
  function Allocate(sequences: map<SequenceKey, nat>, key: SequenceKey): (map<SequenceKey, nat>, Issue) {
    var n := Engine.NextNumber(sequences, key);
    (sequences[key := n], Issue(key, n))
  }

  /** The allocations of a list of requests, one after the other. */
  function AllocateAll(keys: seq<SequenceKey>): (map<SequenceKey, nat>, seq<Issue>) {
    if keys == [] then (map[], [])
    else
      var (sequences, log) := AllocateAll(keys[..|keys| - 1]);
      var (sequences', issue) := Allocate(sequences, keys[|keys| - 1]);
      (sequences', log + [issue])
  }

  function Keys(log: seq<Issue>): (keys: seq<SequenceKey>)
    ensures |keys| == |log|
  {
    seq(|log|, i requires 0 <= i < |log| => log[i].key)
  }

  /** Only a commit shows, and what it shows is one atomic allocation. */
  lemma CommitAllocates(hash: Bucket -> int, w: World, e: Event)
    requires PendingIsNext(w)
    ensures var w' := Happen(hash, w, e);
            if e.Commit? && Enabled(hash, w, e) then
              var key := Key(w.open[e.tx].bucket, w.open[e.tx].phase.yearMonth);
              (w'.committed, w'.log) == (Allocate(w.committed, key).0, w.log + [Allocate(w.committed, key).1])
            else w'.committed == w.committed && w'.log == w.log
  {
  }

  /** Every interleaving is worth the atomic allocations of its committed transactions, in commit order. */
  lemma {:induction false} Linearizable(hash: Bucket -> int, events: seq<Event>)
    ensures var w := Run(hash, events); AllocateAll(Keys(w.log)) == (w.committed, w.log)
  {
    hide Happen, LocksHeld, Gapless, PendingIsNext;
    if events == [] {
    } else {
      var before, e := events[..|events| - 1], events[|events| - 1];
      Linearizable(hash, before);
      RunSafe(hash, before);
      var w, w' := Run(hash, before), Run(hash, events);
      CommitAllocates(hash, w, e);
      if e.Commit? && Enabled(hash, w, e) {
        assert Keys(w'.log)[..|w.log|] == Keys(w.log);
      }
    }
  }

  /** No deadlock: while a transaction is open, some open transaction can take its next step without aborting. */
  lemma SomeoneCanProceed(hash: Bucket -> int, events: seq<Event>, tx: TxId, yearMonth: string)
    requires tx in Run(hash, events).open
    ensures var w := Run(hash, events);
            exists t | t in w.open :: Enabled(hash, w, AcquireLock(t)) || Enabled(hash, w, Upsert(t, yearMonth)) || Enabled(hash, w, Commit(t))
  {
    RunSafe(hash, events);
    var w := Run(hash, events);
    if w.open[tx].phase == Begun && hash(w.open[tx].bucket) in w.locks {
      var holder := w.locks[hash(w.open[tx].bucket)];
      assert HeldByOpen(hash, w, hash(w.open[tx].bucket));
      assert Enabled(hash, w, Upsert(holder, yearMonth)) || Enabled(hash, w, Commit(holder));
    } else {
      assert Enabled(hash, w, AcquireLock(tx)) || Enabled(hash, w, Upsert(tx, yearMonth)) || Enabled(hash, w, Commit(tx));
    }
  }
}
