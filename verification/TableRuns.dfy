/** What holds over every run of the reservation manager, with any number of tasks. */
module TableRuns {
  import opened Options
  import opened LookupTables
  import opened TableProtocol
  import R = ReservationInvariant
  import C = ChainInvariant

  lemma {:induction false} EveryState(states: seq<State>, labels: seq<Label>, i: nat)
    requires IsRun(states, labels) && i < |states|
    ensures R.Inv(states[i]) && C.Inv(states[i])
  {
    if i == 0 {
      R.InitHolds(states[0]);
      C.InitHolds(states[0]);
    } else {
      EveryState(states, labels, i - 1);
      R.NextKeeps(states[i - 1], labels[i - 1], states[i]);
      C.NextKeeps(states[i - 1], labels[i - 1], states[i]);
    }
  }

  // ----- reservations

  /** Over every run the active tables hold, for each key, one reservation per task that
      recorded it plus those pinned by keys stored on behalf of nobody. */
  lemma ReservationsConserved(states: seq<State>, labels: seq<Label>, i: nat, k: Pubkey)
    requires IsRun(states, labels) && i < |states|
    ensures Total(states[i].active, k) ==
            |set t | t in states[i].tasks && k in HeldBy(states[i].tasks[t])| + states[i].pins[k]
  {
    EveryState(states, labels, i);
    var s := states[i];
    assert R.Conserved(s, k);
    assert R.Holders(s, k) == set t | t in s.tasks && k in HeldBy(s.tasks[t]);
  }

  /** A release never falls off the end of the list, and a running release scan always has a
      reservation of its key at its position or further on. */
  lemma NoReleaseIsLost(states: seq<State>, labels: seq<Label>, i: nat)
    requires IsRun(states, labels) && i < |states|
    ensures i < |labels| ==> !(labels[i].Freeing? && labels[i].free.LReleaseMiss?)
    ensures forall t :: t in states[i].scans && states[i].scans[t].ReleaseScan? ==>
              exists j :: states[i].scans[t].pos <= j < |states[i].active|
                  && CountOf(states[i].active[j], states[i].scans[t].key) > 0
  {
    var s := states[i];
    EveryState(states, labels, i);
    if i < |labels| && labels[i].Freeing? && labels[i].free.LReleaseMiss? {
      assert Next(s, labels[i], states[i + 1]);
      R.NoReleaseScanAtEnd(s, labels[i].t);
    }
    forall t | t in s.scans && s.scans[t].ReleaseScan?
      ensures exists j :: s.scans[t].pos <= j < |s.active| && CountOf(s.active[j], s.scans[t].key) > 0
    {
      R.NoReleaseScanAtEnd(s, t);
      var j := SuffixWitness(s.active, s.scans[t].key, s.scans[t].pos);
    }
  }

  /** A key somebody holds is in an active table whose account lists it and is live on chain. */
  lemma HeldKeyIsServed(states: seq<State>, labels: seq<Label>, i: nat, t: TaskId, k: Pubkey) returns (j: nat)
    requires IsRun(states, labels) && i < |states|
    requires t in states[i].tasks && k in HeldBy(states[i].tasks[t])
    ensures j < |states[i].active| && CountOf(states[i].active[j], k) > 0
    ensures var a := states[i].active[j].address;
            a in states[i].chain && k in states[i].chain[a].keys && states[i].chain[a].status == Live
  {
    var s := states[i];
    EveryState(states, labels, i);
    assert t in R.Holders(s, k) && R.Conserved(s, k);
    R.CardinalityMonotone({t}, R.Holders(s, k));
    j := SuffixWitness(s.active, k, 0);
    assert C.ActiveOk(s, s.active[j]);
  }

  /** A successful reserve call returns with exactly the requested keys recorded. */
  lemma ReturnedReserveIsComplete(states: seq<State>, labels: seq<Label>, i: nat, t: TaskId)
    requires IsRun(states, labels) && i < |labels| && labels[i] == Reserving(t, LReturn)
    requires t in states[i].tasks && states[i].tasks[t].Acquiring? && states[i].tasks[t].mode == Reserve
    ensures states[i + 1].tasks == states[i].tasks[t := Holding(states[i].tasks[t].want)]
  {
    EveryState(states, labels, i);
    var s := states[i];
    assert Next(s, labels[i], states[i + 1]) && R.TaskOk(s, t);
    assert s.tasks[t].reserved == s.tasks[t].want;
  }

  lemma WritePinsGrow(s: State, t: TaskId, act: WriteAct, s': State)
    requires WriteNext(s, t, act, s')
    ensures s.pins <= s'.pins
  {
  }

  lemma PinsGrow(s: State, l: Label, s': State)
    requires Next(s, l, s')
    ensures s.pins <= s'.pins
  {
    if l.Writing? {
      WritePinsGrow(s, l.t, l.write, s');
    } else {
      assert s'.pins == s.pins;
    }
  }

  /** A key that was stored on behalf of nobody stays pinned: no release ever takes the last
      reservation of it, so some active table keeps it for the rest of the run. */
  lemma {:induction false} PinnedKeyStays(states: seq<State>, labels: seq<Label>, i: nat, n: nat, k: Pubkey)
    returns (j: nat)
    requires IsRun(states, labels) && i <= n < |states| && states[i].pins[k] > 0
    ensures states[i].pins <= states[n].pins
    ensures j < |states[n].active| && CountOf(states[n].active[j], k) > 0
    decreases n
  {
    if i < n {
      var before := PinnedKeyStays(states, labels, i, n - 1, k);
      PinsGrow(states[n - 1], labels[n - 1], states[n]);
    }
    EveryState(states, labels, n);
    assert R.Conserved(states[n], k);
    assert states[i].pins[k] <= states[n].pins[k];
    j := SuffixWitness(states[n].active, k, 0);
  }

  // ----- keys made sure of

  predicate Stored(s: State, k: Pubkey) {
    exists i :: 0 <= i < |s.active| && Contains(s.active[i], k)
  }

  /** The state in which the call of `t` that still runs at `n` had just begun. */
  function Since(states: seq<State>, n: nat, t: TaskId): (m: nat)
    requires n < |states|
    ensures m <= n
  {
    if n == 0 || t !in states[n - 1].tasks then n else Since(states, n - 1, t)
  }

  lemma {:induction false} SinceAfter(states: seq<State>, m: nat, n: nat, t: TaskId)
    requires m <= n < |states| && t !in states[m].tasks && t in states[n].tasks
    ensures m < Since(states, n, t)
  {
    if t in states[n - 1].tasks {
      SinceAfter(states, m, n - 1, t);
    }
  }

  function Actor(l: Label): Option<TaskId> {
    if l.Reserving? || l.Writing? || l.Freeing? then Some(l.t) else None
  }

  lemma ReserveActor(s: State, t: TaskId, act: ReserveAct, s': State, u: TaskId)
    requires ReserveNext(s, t, act, s') && u != t
    ensures R.SameTask(s, s', u)
  {
  }

  lemma WriteActor(s: State, t: TaskId, act: WriteAct, s': State, u: TaskId)
    requires WriteNext(s, t, act, s') && u != t
    ensures R.SameTask(s, s', u)
  {
  }

  lemma ReleaseActor(s: State, t: TaskId, act: ReleaseAct, s': State, u: TaskId)
    requires ReleaseNext(s, t, act, s') && u != t
    ensures R.SameTask(s, s', u)
  {
  }

  lemma OnlyActorChanges(s: State, l: Label, s': State, u: TaskId)
    requires Next(s, l, s') && Actor(l) != Some(u)
    ensures R.SameTask(s, s', u)
  {
    match l
    case Reserving(t, act) => ReserveActor(s, t, act, s', u);
    case Writing(t, act) => WriteActor(s, t, act, s', u);
    case Freeing(t, act) => ReleaseActor(s, t, act, s', u);
    case _ =>
  }

  lemma EnsureBegins(s: State, l: Label, s': State, t: TaskId, k: Pubkey)
    requires Next(s, l, s') && t !in s.tasks && t in s'.tasks && s'.tasks[t].Acquiring?
    requires s'.tasks[t].mode == LeaveUnreserved && k in s'.tasks[t].want && k !in s'.tasks[t].remaining
    ensures Stored(s, k)
  {
    if Actor(l) != Some(t) {
      OnlyActorChanges(s, l, s', t);
    }
  }

  lemma EnsureWrites(s: State, t: TaskId, act: WriteAct, s': State, k: Pubkey)
    requires WriteNext(s, t, act, s') && t in s.tasks && s.tasks[t].Acquiring? && t in s'.tasks
    requires s'.tasks[t].Acquiring?
    requires k in s.tasks[t].remaining && k !in s'.tasks[t].remaining
    ensures Stored(s', k)
  {
    assert s'.active != [] && Contains(LastTable(s'), k);
  }

  predicate SameCall(s: State, s': State, t: TaskId) {
    && t in s.tasks && s.tasks[t].Acquiring? && t in s'.tasks && s'.tasks[t].Acquiring?
    && s.tasks[t].mode == s'.tasks[t].mode && s.tasks[t].want == s'.tasks[t].want
  }

  lemma ReserveGoesOn(s: State, t: TaskId, act: ReserveAct, s': State)
    requires ReserveNext(s, t, act, s') && t in s.tasks && t in s'.tasks && s'.tasks[t].Acquiring?
    ensures SameCall(s, s', t) && s.tasks[t].remaining <= s'.tasks[t].remaining
  {
  }

  lemma WriteGoesOn(s: State, t: TaskId, act: WriteAct, s': State)
    requires WriteNext(s, t, act, s') && t in s'.tasks && s'.tasks[t].Acquiring?
    ensures SameCall(s, s', t)
  {
  }

  lemma EnsureGoesOn(s: State, l: Label, s': State, t: TaskId, k: Pubkey)
    requires Next(s, l, s') && t in s.tasks && t in s'.tasks && s'.tasks[t].Acquiring?
    ensures SameCall(s, s', t)
    ensures k in s.tasks[t].remaining && k !in s'.tasks[t].remaining ==> Stored(s', k)
  {
    if Actor(l) != Some(t) {
      OnlyActorChanges(s, l, s', t);
    } else if l.Reserving? {
      ReserveGoesOn(s, t, l.reserve, s');
    } else if l.Writing? {
      WriteGoesOn(s, t, l.write, s');
      if k in s.tasks[t].remaining && k !in s'.tasks[t].remaining {
        EnsureWrites(s, t, l.write, s', k);
      }
    }
  }

  /** Every key that a call making sure of its keys has ticked off was in an active table at some
      moment of that call. */
  lemma {:induction false} EnsuredKeyWasStored(states: seq<State>, labels: seq<Label>, n: nat, t: TaskId, k: Pubkey)
    returns (j: nat)
    requires IsRun(states, labels) && n < |states| && t in states[n].tasks && states[n].tasks[t].Acquiring?
    requires states[n].tasks[t].mode == LeaveUnreserved && k in states[n].tasks[t].want
    requires k !in states[n].tasks[t].remaining
    ensures Since(states, n, t) <= j + 1 && j <= n && Stored(states[j], k)
  {
    hide Next;
    var s, l, s' := states[n - 1], labels[n - 1], states[n];
    if t !in s.tasks {
      EnsureBegins(s, l, s', t, k);
      j := n - 1;
    } else {
      EnsureGoesOn(s, l, s', t, k);
      if k in s.tasks[t].remaining {
        j := n;
      } else {
        j := EnsuredKeyWasStored(states, labels, n - 1, t, k);
      }
    }
  }

  // ----- what one task did to the counts

  function HeldOf(s: State, t: TaskId): set<Pubkey> {
    if t in s.tasks then HeldBy(s.tasks[t]) else {}
  }

  /** The sum of all changes to the count of `k` made by steps of task `t`. */
  function Raised(states: seq<State>, labels: seq<Label>, t: TaskId, k: Pubkey, n: nat): int
    requires |states| == |labels| + 1 && n <= |labels|
  {
    if n == 0 then 0
    else
      Raised(states, labels, t, k, n - 1) +
      if Actor(labels[n - 1]) == Some(t)
      then Total(states[n].active, k) - Total(states[n - 1].active, k)
      else 0
  }

  predicate InReserveMode(s: State, t: TaskId) {
    t in s.tasks && s.tasks[t].Acquiring? ==> s.tasks[t].mode == Reserve
  }

  predicate StartsEnsure(l: Label, t: TaskId) {
    l.Reserving? && l.t == t && l.reserve.LStartEnsure?
  }

  lemma ReservePins(s: State, t: TaskId, act: ReserveAct, s': State)
    requires ReserveNext(s, t, act, s') && InReserveMode(s, t)
    ensures s'.pins == s.pins && (act.LStartEnsure? || InReserveMode(s', t))
  {
  }

  lemma WritePins(s: State, t: TaskId, act: WriteAct, s': State)
    requires WriteNext(s, t, act, s') && InReserveMode(s, t)
    ensures s'.pins == s.pins && InReserveMode(s', t)
  {
  }

  lemma ReleasePins(s: State, t: TaskId, act: ReleaseAct, s': State)
    requires ReleaseNext(s, t, act, s') && InReserveMode(s, t)
    ensures s'.pins == s.pins && InReserveMode(s', t)
  {
  }

  lemma PinsOnlyByEnsure(s: State, l: Label, s': State, t: TaskId)
    requires Next(s, l, s') && Actor(l) == Some(t) && InReserveMode(s, t)
    ensures s'.pins == s.pins
    ensures StartsEnsure(l, t) || InReserveMode(s', t)
  {
    match l
    case Reserving(_, act) => ReservePins(s, t, act, s');
    case Writing(_, act) => WritePins(s, t, act, s');
    case Freeing(_, act) => ReleasePins(s, t, act, s');
  }

  /** A step of a reserving task moves the count of `k` exactly as it moves its own record. */
  lemma RaisedByStep(s: State, l: Label, s': State, t: TaskId, k: Pubkey)
    requires R.Inv(s) && R.Inv(s') && Next(s, l, s') && !StartsEnsure(l, t) && InReserveMode(s, t)
    ensures InReserveMode(s', t)
    ensures Actor(l) == Some(t) ==>
              Total(s'.active, k) - Total(s.active, k) ==
              (if k in HeldOf(s', t) then 1 else 0) - (if k in HeldOf(s, t) then 1 else 0)
    ensures Actor(l) != Some(t) ==> HeldOf(s', t) == HeldOf(s, t)
  {
    if Actor(l) == Some(t) {
      forall u | u != t ensures R.SameTask(s, s', u) { OnlyActorChanges(s, l, s', u); }
      PinsOnlyByEnsure(s, l, s', t);
      assert R.Conserved(s, k) && R.Conserved(s', k);
      R.HoldersChange(s, s', t, k);
    } else {
      OnlyActorChanges(s, l, s', t);
    }
  }

  /** Step `i` moved the sum for `t` and `k` exactly as it moved the record of `t`. */
  predicate RaisedAsRecorded(states: seq<State>, labels: seq<Label>, t: TaskId, k: Pubkey, i: nat)
    requires |states| == |labels| + 1 && i < |labels|
  {
    Raised(states, labels, t, k, i + 1) - Raised(states, labels, t, k, i) ==
    (if k in HeldOf(states[i + 1], t) then 1 else 0) - (if k in HeldOf(states[i], t) then 1 else 0)
  }

  lemma {:induction false} StaysInReserveMode(states: seq<State>, labels: seq<Label>, t: TaskId, k: Pubkey, n: nat)
    requires IsRun(states, labels) && n <= |labels|
    requires forall i :: 0 <= i < n ==> !StartsEnsure(labels[i], t)
    ensures InReserveMode(states[n], t)
    ensures 0 < n ==> RaisedAsRecorded(states, labels, t, k, n - 1)
  {
    if n > 0 {
      StaysInReserveMode(states, labels, t, k, n - 1);
      EveryState(states, labels, n - 1);
      EveryState(states, labels, n);
      RaisedByStep(states[n - 1], labels[n - 1], states[n], t, k);
    }
  }

  lemma {:induction false} Telescope(states: seq<State>, labels: seq<Label>, t: TaskId, k: Pubkey, n: nat)
    requires |states| == |labels| + 1 && n <= |labels| && k !in HeldOf(states[0], t)
    requires forall i: nat :: i < n ==> RaisedAsRecorded(states, labels, t, k, i)
    ensures Raised(states, labels, t, k, n) == if k in HeldOf(states[n], t) then 1 else 0
  {
    if n > 0 {
      Telescope(states, labels, t, k, n - 1);
      assert RaisedAsRecorded(states, labels, t, k, n - 1);
    }
  }

  /** At every point of every run, and so also when a call fails or is cancelled anywhere, the
      keys recorded for a reserving task are exactly those whose count its own steps raised,
      each by exactly one, less those it has released again. */
  lemma RecordedIsExactlyRaised(states: seq<State>, labels: seq<Label>, t: TaskId, k: Pubkey, n: nat)
    requires IsRun(states, labels) && n <= |labels|
    requires forall i :: 0 <= i < n ==> !StartsEnsure(labels[i], t)
    ensures Raised(states, labels, t, k, n) == if k in HeldOf(states[n], t) then 1 else 0
  {
    hide Next;
    hide Raised;
    forall i: nat | i < n ensures RaisedAsRecorded(states, labels, t, k, i) {
      StaysInReserveMode(states, labels, t, k, i + 1);
    }
    assert Init(states[0]);
    Telescope(states, labels, t, k, n);
  }

  // ----- the garbage collector

  lemma WriteKeepsAddress(s: State, t: TaskId, act: WriteAct, s': State, j: nat)
    requires WriteNext(s, t, act, s') && j < |s.active|
    ensures j < |s'.active| && s'.active[j].address == s.active[j].address
  {
  }

  /** Apart from a drain, steps replace tables in place or append one. */
  lemma KeepsActiveAddress(s: State, l: Label, s': State, j: nat)
    requires Next(s, l, s') && !(l.Freeing? && l.free.LDrain?) && j < |s.active|
    ensures j < |s'.active| && s'.active[j].address == s.active[j].address
  {
    if l.Writing? {
      WriteKeepsAddress(s, l.t, l.write, s', j);
    }
  }

  /** A table leaves the active list only without a reservation left. */
  lemma OnlyUnreservedTablesAreReleased(states: seq<State>, labels: seq<Label>, i: nat, j: nat)
    requires IsRun(states, labels) && i < |labels| && j < |states[i].active|
    requires !C.Tracked(states[i + 1].active, states[i].active[j].address)
    ensures !HasReservations(states[i].active[j])
    ensures states[i].active[j] in states[i + 1].released
  {
    var s, l, s' := states[i], labels[i], states[i + 1];
    assert Next(s, l, s');
    C.BagMember(s.active, j);
    if l.Freeing? && l.free.LDrain? {
      PartitionMembers(s.active);
      if HasReservations(s.active[j]) {
        var n :| 0 <= n < |s'.active| && s'.active[n] == s.active[j];
        C.BagMember(s'.active, n);
      }
    } else {
      KeepsActiveAddress(s, l, s', j);
      C.BagMember(s'.active, j);
    }
  }

  lemma TasksKeepReleased(s: State, l: Label, s': State)
    requires Next(s, l, s') && (l.Reserving? || l.Writing?)
    ensures s'.released == s.released
  {
    if l.Reserving? {
      assert ReserveNext(s, l.t, l.reserve, s');
    }
  }

  lemma KeepsReleasedAddress(s: State, l: Label, s': State, j: nat)
    requires Next(s, l, s') && !(l.Collecting? && l.collect.LForgetClosed?) && j < |s.released|
    ensures j < |s'.released| && s'.released[j].address == s.released[j].address
  {
    if l.Reserving? || l.Writing? {
      TasksKeepReleased(s, l, s');
    }
  }

  /** A transaction that deactivates or closes an account never names a table that is active,
      now or at any time before it lands, nor a released table with a reservation. */
  lemma OnlyRetiredTablesAreDeactivated(states: seq<State>, labels: seq<Label>, i: nat, x: TxId)
    requires IsRun(states, labels) && i < |states| && x < |states[i].sent|
    requires states[i].sent[x].DeactivateTx? || states[i].sent[x].CloseTx?
    ensures forall t :: t in states[i].active ==> t.Active? && t.address != states[i].sent[x].address
    ensures forall t :: t in states[i].released ==> !HasReservations(t)
    ensures forall t :: t in states[i].active ==>
              t.address in states[i].chain && states[i].chain[t.address].status == Live
  {
    var s := states[i];
    EveryState(states, labels, i);
    assert C.TxOk(s, x);
    forall t | t in s.active
      ensures t.Active? && t.address != s.sent[x].address && t.address in s.chain && s.chain[t.address].status == Live
    {
      var j :| 0 <= j < |s.active| && s.active[j] == t;
      C.BagMember(s.active, j);
      assert C.ActiveOk(s, t);
    }
    forall t | t in s.released ensures !HasReservations(t) { assert C.ReleasedOk(s, t); }
  }

  /** A table is forgotten only after the slots since its recorded deactivation have passed and
      its account is gone. */
  lemma ForgottenOnlyWhenClosed(states: seq<State>, labels: seq<Label>, i: nat, j: nat)
    requires IsRun(states, labels) && i < |labels| && j < |states[i].released|
    requires !C.Tracked(states[i + 1].released, states[i].released[j].address)
    ensures states[i].released[j].Deactivated?
    ensures states[i].released[j].deactivationSlot + MAX_ENTRIES <= states[i].clock
    ensures states[i].released[j].address in states[i].chain
    ensures states[i].chain[states[i].released[j].address].status == Closed
  {
    var s, l, s' := states[i], labels[i], states[i + 1];
    assert Next(s, l, s');
    C.BagMember(s.released, j);
    if l.Collecting? && l.collect.LForgetClosed? {
      var i := l.collect.i;
      if i != j {
        var m := if j < i then j else j - 1;
        C.BagMember(s'.released, m);
      }
    } else {
      KeepsReleasedAddress(s, l, s', j);
      C.BagMember(s'.released, j);
    }
  }

  // ----- capacity

  lemma {:induction false} ElementsBound<T>(s: seq<T>)
    ensures |Elements(s)| <= |s|
  {
    if s != [] {
      var n := |s| - 1;
      ElementsBound(s[..n]);
      assert Elements(s) == Elements(s[..n]) + {s[n]} by { assert s == s[..n] + [s[n]]; }
    }
  }

  /** What a tracked table lists locally is on chain, so it never outgrows a lookup table; an
      active one is live there. */
  lemma LocalKeysAreOnChain(states: seq<State>, labels: seq<Label>, i: nat, t: Table)
    requires IsRun(states, labels) && i < |states| && (t in states[i].active || t in states[i].released)
    ensures t.address in states[i].chain
    ensures t in states[i].active ==> t.Active? && states[i].chain[t.address].status == Live
    ensures t.Active? ==> forall k :: k in t.counts ==> k in states[i].chain[t.address].keys
    ensures t.Active? ==> |t.counts| <= LOOKUP_TABLE_MAX_ADDRESSES
  {
    var s := states[i];
    EveryState(states, labels, i);
    if t in s.active {
      assert C.ActiveOk(s, t);
    } else {
      assert C.ReleasedOk(s, t);
    }
    if t.Active? {
      assert C.AccountOk(s, t.address);
      var keys := s.chain[t.address].keys;
      ElementsBound(keys);
      R.CardinalityMonotone(t.counts.Keys, Elements(keys));
    }
  }

  // ----- what is sent

  predicate FitsOneTransaction(tx: Tx) {
    (tx.ExtendTx? || tx.CreateTx?) ==> |tx.keys| <= MAX_ENTRIES_AS_PART_OF_EXTEND
  }

  lemma WritersSendWhatFits(s: State, t: TaskId, act: WriteAct, s': State)
    requires WriteNext(s, t, act, s') && forall tx :: tx in s.sent ==> FitsOneTransaction(tx)
    ensures forall tx :: tx in s'.sent ==> FitsOneTransaction(tx)
  {
  }

  lemma StepSendsWhatFits(s: State, l: Label, s': State)
    requires Next(s, l, s') && forall tx :: tx in s.sent ==> FitsOneTransaction(tx)
    ensures forall tx :: tx in s'.sent ==> FitsOneTransaction(tx)
  {
    if l.Writing? {
      WritersSendWhatFits(s, l.t, l.write, s');
    }
  }

  /** No extend and no create was ever sent with more keys than one transaction takes. */
  lemma {:induction false} SentFitsOneTransaction(states: seq<State>, labels: seq<Label>, i: nat)
    requires IsRun(states, labels) && i < |states|
    ensures forall tx :: tx in states[i].sent ==> FitsOneTransaction(tx)
  {
    hide Next;
    if i > 0 {
      SentFitsOneTransaction(states, labels, i - 1);
      StepSendsWhatFits(states[i - 1], labels[i - 1], states[i]);
    }
  }
}
