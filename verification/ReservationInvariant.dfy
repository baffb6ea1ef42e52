/** Reservations are conserved and no release gets lost, whatever the interleaving. */
module ReservationInvariant {
  import opened Options
  import opened LookupTables
  import opened TableProtocol

  // ----- the invariant

  /** The tasks that have a recorded reservation for `k`. */
  function Holders(s: State, k: Pubkey): set<TaskId> {
    set t | t in s.tasks && k in HeldBy(s.tasks[t])
  }

  /** The tasks whose release scan for `k` stands at position `j` or later. */
  function ReleasersFrom(s: State, k: Pubkey, j: nat): set<TaskId> {
    set t | t in s.scans && s.scans[t].ReleaseScan? && s.scans[t].key == k && j <= s.scans[t].pos
  }

  predicate TaskOk(s: State, t: TaskId)
    requires t in s.tasks
  {
    s.tasks[t].Acquiring? ==>
      var Acquiring(mode, want, todo, reserved, remaining) := s.tasks[t];
      && todo !! reserved !! remaining
      && (mode == Reserve ==> want == todo + reserved + remaining)
      && (mode == LeaveUnreserved ==> todo == {} && reserved == {} && remaining <= want)
  }

  predicate ScanOk(s: State, t: TaskId)
    requires t in s.scans
  {
    && t in s.tasks
    && s.scans[t].pos <= |s.active|
    && match s.scans[t]
       case ReserveScan(k, _) => s.tasks[t].Acquiring? && s.tasks[t].mode == Reserve && k in s.tasks[t].todo
       case ReleaseScan(k, _) => s.tasks[t].Releasing? && k in s.tasks[t].left
  }

  predicate WriterOk(s: State) {
    s.writer.Some? ==>
      && s.scans == map[]
      && var t := s.writer.value.task;
         && t in s.tasks && s.tasks[t].Acquiring? && s.tasks[t].todo == {}
         && match s.writer.value.stage
            case Deciding => true
            case ExtendFailed => s.active != []
            case Reconciled => s.active != []
            case ExtendSent(_, batch) => s.active != [] && IsBatch(batch, s.tasks[t].remaining)
            case CreateSent(_, _, batch) => IsBatch(batch, s.tasks[t].remaining)
  }

  /** The reservations of `k` over all active tables are those its holders recorded, plus pins. */
  predicate Conserved(s: State, k: Pubkey) {
    Total(s.active, k) == |Holders(s, k)| + s.pins[k]
  }

  /** From every position on there are enough reservations for the releasers that got there. */
  predicate Covered(s: State, k: Pubkey, j: nat) {
    j <= |s.active| ==> |ReleasersFrom(s, k, j)| <= SuffixCount(s.active, k, j)
  }

  ghost predicate Inv(s: State) {
    && (forall t :: t in s.tasks ==> TaskOk(s, t))
    && (forall t :: t in s.scans ==> ScanOk(s, t))
    && WriterOk(s)
    && (forall k :: Conserved(s, k))
    && (forall k, j :: Covered(s, k, j))
  }

  // ----- counting

  lemma CardinalityMonotone<T>(a: set<T>, b: set<T>)
    requires a <= b
    ensures |a| <= |b|
  {
    assert b == a + (b - a);
  }

  lemma CardinalityChange<T>(a: set<T>, b: set<T>, t: T)
    requires a - {t} == b - {t}
    ensures |b| - |a| == (if t in b then 1 else 0) - (if t in a then 1 else 0)
  {
    assert |a| == |a - {t}| + if t in a then 1 else 0;
    assert |b| == |b - {t}| + if t in b then 1 else 0;
  }

  predicate SameTask(s: State, s': State, u: TaskId) {
    (u in s.tasks <==> u in s'.tasks) && (u in s.tasks ==> s'.tasks[u] == s.tasks[u])
  }

  /** Holders of `k` when only task `t` changed. */
  lemma HoldersChange(s: State, s': State, t: TaskId, k: Pubkey)
    requires forall u :: u != t ==> SameTask(s, s', u)
    ensures |Holders(s', k)| - |Holders(s, k)| ==
            (if t in Holders(s', k) then 1 else 0) - (if t in Holders(s, k) then 1 else 0)
  {
    forall u | u != t ensures u in Holders(s, k) <==> u in Holders(s', k) {
      assert SameTask(s, s', u);
    }
    assert Holders(s, k) - {t} == Holders(s', k) - {t};
    CardinalityChange(Holders(s, k), Holders(s', k), t);
  }

  /** A task holds `k` while it scans to release it, so releasers are among the holders. */
  lemma ReleasersHold(s: State, k: Pubkey)
    requires forall t :: t in s.scans ==> ScanOk(s, t)
    ensures ReleasersFrom(s, k, 0) <= Holders(s, k)
  {
  }

  /** The whole list always covers its releasers, because they are holders. */
  lemma CoveredAtStart(s: State, k: Pubkey)
    requires forall t :: t in s.scans ==> ScanOk(s, t)
    requires Conserved(s, k)
    ensures Covered(s, k, 0)
  {
    ReleasersHold(s, k);
    CardinalityMonotone(ReleasersFrom(s, k, 0), Holders(s, k));
  }

  lemma CoveredWithoutScans(s: State)
    requires s.scans == map[]
    ensures forall k, j :: Covered(s, k, j)
  {
    forall k, j ensures Covered(s, k, j) {
      assert ReleasersFrom(s, k, j) == {};
    }
  }

  /** Steps that touch neither tables nor scans nor any recorded reservation. */
  lemma CountsUntouched(s: State, s': State)
    requires Inv(s)
    requires s'.active == s.active && s'.scans == s.scans && s'.pins == s.pins
    requires forall k :: Holders(s', k) == Holders(s, k)
    ensures forall k :: Conserved(s', k)
    ensures forall k, j :: Covered(s', k, j)
  {
    forall k ensures Conserved(s', k) {
      assert Conserved(s, k);
    }
    forall k, j ensures Covered(s', k, j) {
      assert Covered(s, k, j);
      assert ReleasersFrom(s', k, j) == ReleasersFrom(s, k, j);
    }
  }

  // ----- every step keeps it: reserving

  lemma StartReserveKeeps(s: State, t: TaskId, want: set<Pubkey>, s': State)
    requires Inv(s) && StartReserve(s, t, want, s')
    ensures Inv(s')
  {
    forall k ensures Holders(s', k) == Holders(s, k) {}
    CountsUntouched(s, s');
  }

  lemma StartEnsureKeeps(s: State, t: TaskId, want: set<Pubkey>, s': State)
    requires Inv(s) && StartEnsure(s, t, want, s')
    ensures Inv(s')
  {
    forall k ensures Holders(s', k) == Holders(s, k) {}
    CountsUntouched(s, s');
  }

  lemma BeginReserveScanKeeps(s: State, t: TaskId, key: Pubkey, s': State)
    requires Inv(s) && BeginReserveScan(s, t, key, s')
    ensures Inv(s')
  {
    assert TaskOk(s, t);
    forall k ensures Conserved(s', k) {
      assert Conserved(s, k) && Holders(s', k) == Holders(s, k);
    }
    forall k, j ensures Covered(s', k, j) {
      assert Covered(s, k, j) && ReleasersFrom(s', k, j) == ReleasersFrom(s, k, j);
    }
  }

  lemma ReserveHitKeeps(s: State, t: TaskId, s': State)
    requires Inv(s) && ReserveHit(s, t, s')
    ensures Inv(s')
  {
    var p, key := s.scans[t].pos, s.scans[t].key;
    assert ScanOk(s, t) && TaskOk(s, t);
    forall u | u in s'.scans ensures ScanOk(s', u) { assert ScanOk(s, u); }
    forall u | u in s'.tasks ensures TaskOk(s', u) { if u != t { assert TaskOk(s, u); } }
    forall k ensures Conserved(s', k) {
      assert Conserved(s, k);
      SuffixUpdate(s.active, p, s'.active[p], k, 0);
      HoldersChange(s, s', t, k);
    }
    forall k, j: nat | j <= |s'.active| ensures Covered(s', k, j) {
      assert Covered(s, k, j) && ReleasersFrom(s', k, j) == ReleasersFrom(s, k, j);
      SuffixUpdate(s.active, p, s'.active[p], k, j);
    }
  }

  lemma ReservePassKeeps(s: State, t: TaskId, s': State)
    requires Inv(s) && ReservePass(s, t, s')
    ensures Inv(s')
  {
    assert ScanOk(s, t);
    forall u | u in s'.scans ensures ScanOk(s', u) { assert ScanOk(s, u); }
    forall k ensures Conserved(s', k) {
      assert Conserved(s, k) && Holders(s', k) == Holders(s, k);
    }
    forall k, j ensures Covered(s', k, j) {
      assert Covered(s, k, j) && ReleasersFrom(s', k, j) == ReleasersFrom(s, k, j);
    }
  }

  lemma ReserveMissKeeps(s: State, t: TaskId, s': State)
    requires Inv(s) && ReserveMiss(s, t, s')
    ensures Inv(s')
  {
    assert ScanOk(s, t) && TaskOk(s, t);
    forall u | u in s'.scans ensures ScanOk(s', u) { assert ScanOk(s, u); }
    forall u | u in s'.tasks ensures TaskOk(s', u) { if u != t { assert TaskOk(s, u); } }
    forall k ensures Conserved(s', k) {
      assert Conserved(s, k) && Holders(s', k) == Holders(s, k);
    }
    forall k, j ensures Covered(s', k, j) {
      assert Covered(s, k, j) && ReleasersFrom(s', k, j) == ReleasersFrom(s, k, j);
    }
  }

  // ----- every step keeps it: the write lock

  lemma TakeWriteLockKeeps(s: State, t: TaskId, s': State)
    requires Inv(s) && TakeWriteLock(s, t, s')
    ensures Inv(s')
  {
    forall k ensures Holders(s', k) == Holders(s, k) {}
    CountsUntouched(s, s');
  }

  lemma DropWriteLockKeeps(s: State, t: TaskId, s': State)
    requires Inv(s) && DropWriteLock(s, t, s')
    ensures Inv(s')
  {
    forall k ensures Holders(s', k) == Holders(s, k) {}
    CountsUntouched(s, s');
  }

  lemma SendExtendKeeps(s: State, t: TaskId, batch: seq<Pubkey>, s': State)
    requires Inv(s) && SendExtend(s, t, batch, s')
    ensures Inv(s')
  {
    forall k ensures Holders(s', k) == Holders(s, k) {}
    CountsUntouched(s, s');
  }

  lemma ExtendErrorKeeps(s: State, t: TaskId, s': State)
    requires Inv(s) && ExtendError(s, t, s')
    ensures Inv(s')
  {
    forall k ensures Holders(s', k) == Holders(s, k) {}
    CountsUntouched(s, s');
  }

  lemma SendCreateKeeps(s: State, t: TaskId, slot: nat, batch: seq<Pubkey>, s': State)
    requires Inv(s) && SendCreate(s, t, slot, batch, s')
    ensures Inv(s')
  {
    forall k ensures Holders(s', k) == Holders(s, k) {}
    CountsUntouched(s, s');
  }

  lemma RecordedTasksOk(s: State, t: TaskId, batch: seq<Pubkey>)
    requires Inv(s) && t in s.tasks && s.tasks[t].Acquiring?
    requires IsBatch(batch, s.tasks[t].remaining)
    ensures var s' := Recorded(s, t, batch); forall u :: u in s'.tasks ==> TaskOk(s', u)
  {
    var s' := Recorded(s, t, batch);
    forall u | u in s'.tasks ensures TaskOk(s', u) { assert TaskOk(s, u); }
  }

  /** Storing a batch adds one holder or one pin per key of the batch. */
  lemma RecordedCounts(s: State, t: TaskId, batch: seq<Pubkey>, k: Pubkey)
    requires Inv(s) && t in s.tasks && s.tasks[t].Acquiring?
    requires IsBatch(batch, s.tasks[t].remaining)
    ensures var s' := Recorded(s, t, batch);
            |Holders(s', k)| + s'.pins[k] == |Holders(s, k)| + s.pins[k] + if k in batch then 1 else 0
  {
    var s' := Recorded(s, t, batch);
    assert TaskOk(s, t);
    HoldersChange(s, s', t, k);
    DistinctMultiplicity(batch, k);
  }

  lemma RecordedKeeps(s: State, t: TaskId, batch: seq<Pubkey>, s': State)
    requires Inv(s) && s.writer.Some? && s.writer.value.task == t
    requires IsBatch(batch, s.tasks[t].remaining)
    requires s' == Recorded(s, t, batch).(active := s'.active, writer := None)
    requires forall k :: Total(s'.active, k) == Total(s.active, k) + if k in batch then 1 else 0
    ensures Inv(s')
  {
    RecordedTasksOk(s, t, batch);
    forall u | u in s'.tasks ensures TaskOk(s', u) { assert TaskOk(Recorded(s, t, batch), u); }
    forall k ensures Conserved(s', k) {
      assert Conserved(s, k);
      RecordedCounts(s, t, batch, k);
      assert Holders(s', k) == Holders(Recorded(s, t, batch), k);
    }
    CoveredWithoutScans(s');
  }

  lemma ExtendOkKeeps(s: State, t: TaskId, s': State)
    requires Inv(s) && ExtendOk(s, t, s')
    ensures Inv(s')
  {
    var batch := s.writer.value.stage.batch;
    var n := |s.active| - 1;
    forall k ensures Total(s'.active, k) == Total(s.active, k) + if k in batch then 1 else 0 {
      SuffixUpdate(s.active, n, s'.active[n], k, 0);
      DistinctMultiplicity(batch, k);
    }
    RecordedKeeps(s, t, batch, s');
  }

  lemma CreateOkKeeps(s: State, t: TaskId, s': State)
    requires Inv(s) && CreateOk(s, t, s')
    ensures Inv(s')
  {
    var batch := s.writer.value.stage.batch;
    var table := s'.active[|s.active|];
    forall k ensures Total(s'.active, k) == Total(s.active, k) + if k in batch then 1 else 0 {
      SuffixAppend(s.active, [table], k, 0);
      DistinctMultiplicity(batch, k);
      assert Total([table], k) == CountOf(table, k) + SuffixCount([table], k, 1);
    }
    RecordedKeeps(s, t, batch, s');
  }

  lemma ReconcileTaskOk(s: State, t: TaskId, seen: seq<Pubkey>, s': State, u: TaskId)
    requires Inv(s) && Reconcile(s, t, seen, s') && u in s'.tasks
    ensures TaskOk(s', u)
  {
    assert TaskOk(s, t);
    if u != t { assert TaskOk(s, u); }
  }

  /** A key of the call gains a reservation exactly when it gains a holder. */
  lemma ReconcileConserves(s: State, t: TaskId, seen: seq<Pubkey>, s': State, k: Pubkey)
    requires Inv(s) && Reconcile(s, t, seen, s')
    ensures Conserved(s', k)
  {
    var n := |s.active| - 1;
    var here := k in s.tasks[t].remaining && k in s'.active[n].counts && s.tasks[t].mode == Reserve;
    assert TaskOk(s, t) && Conserved(s, k);
    SuffixUpdate(s.active, n, s'.active[n], k, 0);
    assert CountOf(s'.active[n], k) == CountOf(s.active[n], k) + if here then 1 else 0;
    HoldersChange(s, s', t, k);
  }

  lemma ReconcileKeeps(s: State, t: TaskId, seen: seq<Pubkey>, s': State)
    requires Inv(s) && Reconcile(s, t, seen, s')
    ensures Inv(s')
  {
    forall u | u in s'.tasks ensures TaskOk(s', u) { ReconcileTaskOk(s, t, seen, s', u); }
    forall k ensures Conserved(s', k) { ReconcileConserves(s, t, seen, s', k); }
    CoveredWithoutScans(s');
  }

  lemma SkipReconcileKeeps(s: State, t: TaskId, s': State)
    requires Inv(s) && SkipReconcile(s, t, s')
    ensures Inv(s')
  {
    forall k ensures Holders(s', k) == Holders(s, k) {}
    CountsUntouched(s, s');
  }

  lemma GiveUpExtendKeeps(s: State, t: TaskId, nonExtendable: bool, s': State)
    requires Inv(s) && GiveUpExtend(s, t, nonExtendable, s')
    ensures Inv(s')
  {
    var n := |s.active| - 1;
    forall k ensures Conserved(s', k) {
      assert Conserved(s, k) && Holders(s', k) == Holders(s, k);
      SuffixUpdate(s.active, n, s'.active[n], k, 0);
    }
    CoveredWithoutScans(s');
  }

  lemma EndedKeeps(s: State, t: TaskId, s': State)
    requires Inv(s) && t in s.tasks && s.tasks[t].Acquiring? && t !in s.scans
    requires s' == Ended(s, t).(writer := s'.writer)
    requires s'.writer == None || (s'.writer == s.writer && s.writer.value.task != t)
    ensures Inv(s')
  {
    assert TaskOk(s, t);
    forall u | u in s'.scans ensures ScanOk(s', u) { assert ScanOk(s, u); }
    forall u | u in s'.tasks ensures TaskOk(s', u) { if u != t { assert TaskOk(s, u); } }
    forall k ensures Holders(s', k) == Holders(s, k) {}
    CountsUntouched(s, s');
  }

  lemma ReturnKeeps(s: State, t: TaskId, s': State)
    requires Inv(s) && Return(s, t, s')
    ensures Inv(s')
  {
    assert t in s.scans ==> ScanOk(s, t);
    EndedKeeps(s, t, s');
  }

  lemma AbortKeeps(s: State, t: TaskId, s': State)
    requires Inv(s) && Abort(s, t, s')
    ensures Inv(s')
  {
    EndedKeeps(s, t, s');
  }

  // ----- every step keeps it: releasing

  lemma StartReleaseKeeps(s: State, t: TaskId, s': State)
    requires Inv(s) && StartRelease(s, t, s')
    ensures Inv(s')
  {
    forall u | u in s'.scans ensures ScanOk(s', u) { assert ScanOk(s, u); }
    forall k ensures Holders(s', k) == Holders(s, k) {}
    CountsUntouched(s, s');
  }

  lemma BeginReleaseScanKeeps(s: State, t: TaskId, key: Pubkey, s': State)
    requires Inv(s) && BeginReleaseScan(s, t, key, s')
    ensures Inv(s')
  {
    forall u | u in s'.scans ensures ScanOk(s', u) { if u != t { assert ScanOk(s, u); } }
    forall k ensures Conserved(s', k) {
      assert Conserved(s, k) && Holders(s', k) == Holders(s, k);
    }
    forall k, j ensures Covered(s', k, j) {
      if j == 0 {
        CoveredAtStart(s', k);
      } else {
        assert Covered(s, k, j) && ReleasersFrom(s', k, j) == ReleasersFrom(s, k, j);
      }
    }
  }

  lemma ReleaseHitKeeps(s: State, t: TaskId, s': State)
    requires Inv(s) && ReleaseHit(s, t, s')
    ensures Inv(s')
  {
    var p, key := s.scans[t].pos, s.scans[t].key;
    assert ScanOk(s, t);
    forall u | u in s'.scans ensures ScanOk(s', u) { assert ScanOk(s, u); }
    forall k ensures Conserved(s', k) {
      assert Conserved(s, k);
      SuffixUpdate(s.active, p, s'.active[p], k, 0);
      HoldersChange(s, s', t, k);
    }
    forall k, j: nat | j <= |s'.active| ensures Covered(s', k, j) {
      assert Covered(s, k, j);
      SuffixUpdate(s.active, p, s'.active[p], k, j);
      var here, there := ReleasersFrom(s, k, j), ReleasersFrom(s', k, j);
      if k == key && j <= p {
        assert t in here && there == here - {t};
      } else {
        assert there == here;
      }
    }
  }

  /** Moving past a table without reservations keeps the cover: the suffix loses nothing. */
  lemma ReleasePassKeeps(s: State, t: TaskId, s': State)
    requires Inv(s) && ReleasePass(s, t, s')
    ensures Inv(s')
  {
    var p, key := s.scans[t].pos, s.scans[t].key;
    assert ScanOk(s, t);
    forall u | u in s'.scans ensures ScanOk(s', u) { assert ScanOk(s, u); }
    forall k ensures Conserved(s', k) {
      assert Conserved(s, k) && Holders(s', k) == Holders(s, k);
    }
    forall k, j: nat | j <= |s'.active| ensures Covered(s', k, j) {
      if k == key && j == p + 1 {
        assert Covered(s, k, p);
        assert ReleasersFrom(s', k, j) <= ReleasersFrom(s, k, p);
        CardinalityMonotone(ReleasersFrom(s', k, j), ReleasersFrom(s, k, p));
      } else {
        assert Covered(s, k, j) && ReleasersFrom(s', k, j) == ReleasersFrom(s, k, j);
      }
    }
  }

  /** No release scan reaches the end of the list: a reservation is found before that. */
  lemma NoReleaseScanAtEnd(s: State, t: TaskId)
    requires Inv(s) && t in s.scans && s.scans[t].ReleaseScan?
    ensures s.scans[t].pos < |s.active|
    ensures SuffixCount(s.active, s.scans[t].key, s.scans[t].pos) > 0
  {
    var p, k := s.scans[t].pos, s.scans[t].key;
    assert ScanOk(s, t) && Covered(s, k, p);
    assert t in ReleasersFrom(s, k, p);
    CardinalityMonotone({t}, ReleasersFrom(s, k, p));
  }

  lemma DrainKeeps(s: State, t: TaskId, s': State)
    requires Inv(s) && Drain(s, t, s')
    ensures Inv(s')
  {
    forall k ensures Conserved(s', k) {
      assert Conserved(s, k) && Holders(s', k) == Holders(s, k);
      PartitionKeepsTotal(s.active, k);
    }
    CoveredWithoutScans(s');
  }

  /** The collector and the chain touch neither active tables nor tasks. */
  lemma ElsewhereKeeps(s: State, s': State)
    requires Inv(s)
    requires s'.active == s.active && s'.tasks == s.tasks && s'.scans == s.scans
    requires s'.writer == s.writer && s'.pins == s.pins
    ensures Inv(s')
  {
    forall u | u in s'.scans ensures ScanOk(s', u) { assert ScanOk(s, u); }
    forall u | u in s'.tasks ensures TaskOk(s', u) { assert TaskOk(s, u); }
    forall k ensures Holders(s', k) == Holders(s, k) {}
    CountsUntouched(s, s');
  }

  lemma InitHolds(s: State)
    requires Init(s)
    ensures Inv(s)
  {
    forall k ensures Conserved(s, k) {
      assert Holders(s, k) == {};
    }
    CoveredWithoutScans(s);
  }

  lemma ReserveNextKeeps(s: State, t: TaskId, act: ReserveAct, s': State)
    requires Inv(s) && ReserveNext(s, t, act, s')
    ensures Inv(s')
  {
    match act
    case LStartReserve(want) => StartReserveKeeps(s, t, want, s');
    case LStartEnsure(want) => StartEnsureKeeps(s, t, want, s');
    case LBeginReserveScan(k) => BeginReserveScanKeeps(s, t, k, s');
    case LReserveHit => ReserveHitKeeps(s, t, s');
    case LReservePass => ReservePassKeeps(s, t, s');
    case LReserveMiss => ReserveMissKeeps(s, t, s');
    case LReturn => ReturnKeeps(s, t, s');
    case LAbort => AbortKeeps(s, t, s');
  }

  lemma WriteNextKeeps(s: State, t: TaskId, act: WriteAct, s': State)
    requires Inv(s) && WriteNext(s, t, act, s')
    ensures Inv(s')
  {
    match act
    case LTakeWriteLock => TakeWriteLockKeeps(s, t, s');
    case LDropWriteLock => DropWriteLockKeeps(s, t, s');
    case LSendExtend(batch) => SendExtendKeeps(s, t, batch, s');
    case LExtendOk => ExtendOkKeeps(s, t, s');
    case LExtendError => ExtendErrorKeeps(s, t, s');
    case LReconcile(seen) => ReconcileKeeps(s, t, seen, s');
    case LSkipReconcile => SkipReconcileKeeps(s, t, s');
    case LGiveUpExtend(nonExtendable) => GiveUpExtendKeeps(s, t, nonExtendable, s');
    case LSendCreate(slot, batch) => SendCreateKeeps(s, t, slot, batch, s');
    case LCreateOk => CreateOkKeeps(s, t, s');
  }

  lemma ReleaseNextKeeps(s: State, t: TaskId, act: ReleaseAct, s': State)
    requires Inv(s) && ReleaseNext(s, t, act, s')
    ensures Inv(s')
  {
    match act
    case LStartRelease => StartReleaseKeeps(s, t, s');
    case LBeginReleaseScan(k) => BeginReleaseScanKeeps(s, t, k, s');
    case LReleaseHit => ReleaseHitKeeps(s, t, s');
    case LReleasePass => ReleasePassKeeps(s, t, s');
    case LReleaseMiss => NoReleaseScanAtEnd(s, t);
    case LDrain => DrainKeeps(s, t, s');
  }

  lemma NextKeeps(s: State, l: Label, s': State)
    requires Inv(s) && Next(s, l, s')
    ensures Inv(s')
  {
    match l
    case Reserving(t, act) => ReserveNextKeeps(s, t, act, s');
    case Writing(t, act) => WriteNextKeeps(s, t, act, s');
    case Freeing(t, act) => ReleaseNextKeeps(s, t, act, s');
    case Collecting(_) => ElsewhereKeeps(s, s');
    case Landing(_) => ElsewhereKeeps(s, s');
    case Ticking => ElsewhereKeeps(s, s');
  }
}
