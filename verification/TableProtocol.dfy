/** The reservation manager as a protocol: every task, the garbage collector and the chain
    move in steps, one step per stretch that runs without giving up a lock or awaiting.

    Scans for one key hold the read lock of the active tables, so any number of them
    interleave table by table. Extending and creating hold the write lock across their
    transactions; between two steps of such a task only the chain and the collector move. */
module TableProtocol {
  import opened Options
  import opened LookupTables

  type TaskId = nat
  type TxId = nat

  // ----- the chain

  datatype Status = Live | Deactivating | Closed

  datatype Account = Account(keys: seq<Pubkey>, status: Status)

  datatype Tx =
    | CreateTx(address: Address, keys: seq<Pubkey>)
    | ExtendTx(address: Address, keys: seq<Pubkey>)
    | DeactivateTx(address: Address)
    | CloseTx(address: Address)

  type Chain = map<Address, Account>

  predicate Accepted(chain: Chain, tx: Tx) {
    match tx
    case CreateTx(a, keys) => a !in chain && |keys| <= LOOKUP_TABLE_MAX_ADDRESSES
    case ExtendTx(a, keys) =>
      a in chain && chain[a].status == Live && |chain[a].keys| + |keys| <= LOOKUP_TABLE_MAX_ADDRESSES
    case DeactivateTx(a) => a in chain && chain[a].status == Live
    case CloseTx(a) => a in chain && chain[a].status == Deactivating
  }

  function Executed(chain: Chain, tx: Tx): Chain
    requires Accepted(chain, tx)
  {
    match tx
    case CreateTx(a, keys) => chain[a := Account(keys, Live)]
    case ExtendTx(a, keys) => chain[a := chain[a].(keys := chain[a].keys + keys)]
    case DeactivateTx(a) => chain[a := chain[a].(status := Deactivating)]
    case CloseTx(a) => chain[a := chain[a].(status := Closed)]
  }

  // ----- tasks

  /** What happens to a wanted key that turns out to be in a table already. */
  datatype Mode = Reserve | LeaveUnreserved

  datatype Task =
    | Acquiring(mode: Mode, want: set<Pubkey>, todo: set<Pubkey>, reserved: set<Pubkey>, remaining: set<Pubkey>)
    | Holding(reserved: set<Pubkey>)
    | Releasing(left: set<Pubkey>)

  /** The keys for which a task has a recorded reservation. */
  function HeldBy(t: Task): set<Pubkey> {
    match t
    case Acquiring(_, _, _, reserved, _) => reserved
    case Holding(reserved) => reserved
    case Releasing(left) => left
  }

  datatype Scan =
    | ReserveScan(key: Pubkey, pos: nat)
    | ReleaseScan(key: Pubkey, pos: nat)

  datatype Stage =
    | Deciding
    | ExtendSent(tx: TxId, batch: seq<Pubkey>)
    | ExtendFailed
    | Reconciled
    | CreateSent(tx: TxId, address: Address, batch: seq<Pubkey>)

  datatype Writer = Writer(task: TaskId, stage: Stage)

  /** `pins` counts the reservations left behind by keys that were stored but never reserved. */
  datatype State = State(
    active: seq<Table>,
    released: seq<Table>,
    tasks: map<TaskId, Task>,
    scans: map<TaskId, Scan>,
    writer: Option<Writer>,
    pins: multiset<Pubkey>,
    chain: Chain,
    sent: seq<Tx>,
    flight: set<TxId>,
    landed: set<TxId>,
    clock: nat,
    lastSlot: nat,
    subSlot: nat)

  predicate Init(s: State) {
    && s.active == [] && s.released == [] && s.tasks == map[] && s.scans == map[] && s.writer == None
    && s.pins == multiset{} && s.chain == map[] && s.sent == [] && s.flight == {} && s.landed == {}
    && s.lastSlot == 0 && s.subSlot == 0
  }

  function Min(a: nat, b: nat): nat { if a < b then a else b }

  /** More keys than fit into one transaction. */
  predicate ExceedsMax(keys: seq<Pubkey>) {
    |keys| > MAX_ENTRIES_AS_PART_OF_EXTEND
  }

  predicate IsBatch(batch: seq<Pubkey>, remaining: set<Pubkey>) {
    Distinct(batch) && Elements(batch) <= remaining
  }

  predicate HoldsWriteLock(s: State, t: TaskId, stage: Stage) {
    s.writer == Some(Writer(t, stage)) && t in s.tasks && s.tasks[t].Acquiring?
  }

  function LastTable(s: State): Table
    requires s.active != []
  {
    s.active[|s.active| - 1]
  }

  function Sent(s: State, tx: Tx): State {
    s.(sent := s.sent + [tx], flight := s.flight + {|s.sent|})
  }

  /** `stored` just got one reservation each in some table: record them for the caller, or
      leave them pinned when the caller asked for no reservation. */
  function Recorded(s: State, t: TaskId, stored: seq<Pubkey>): State
    requires t in s.tasks && s.tasks[t].Acquiring?
  {
    var task := s.tasks[t];
    var remaining := task.remaining - Elements(stored);
    if task.mode == Reserve then
      s.(tasks := s.tasks[t := task.(reserved := task.reserved + Elements(stored), remaining := remaining)])
    else
      s.(tasks := s.tasks[t := task.(remaining := remaining)], pins := s.pins + multiset(stored))
  }

  /** A finished, failed or cancelled call: a reservation stays with its caller. */
  function Ended(s: State, t: TaskId): State
    requires t in s.tasks && s.tasks[t].Acquiring?
  {
    if s.tasks[t].mode == Reserve then s.(tasks := s.tasks[t := Holding(s.tasks[t].reserved)])
    else s.(tasks := s.tasks - {t})
  }

  // ----- reserve_pubkeys and ensure_pubkeys_table: first look at the tables there are

  predicate StartReserve(s: State, t: TaskId, want: set<Pubkey>, s': State) {
    && t !in s.tasks
    && s' == s.(tasks := s.tasks[t := Acquiring(Reserve, want, want, {}, {})])
  }

  predicate StartEnsure(s: State, t: TaskId, want: set<Pubkey>, s': State) {
    && t !in s.tasks && s.writer == None
    && var missing := set k | k in want && forall i :: 0 <= i < |s.active| ==> !Contains(s.active[i], k);
       s' == if missing == {} then s
             else s.(tasks := s.tasks[t := Acquiring(LeaveUnreserved, want, {}, {}, missing)])
  }

  predicate BeginReserveScan(s: State, t: TaskId, k: Pubkey, s': State) {
    && t in s.tasks && s.tasks[t].Acquiring? && k in s.tasks[t].todo
    && t !in s.scans && s.writer == None
    && s' == s.(scans := s.scans[t := ReserveScan(k, 0)])
  }

  predicate ReserveHit(s: State, t: TaskId, s': State) {
    && t in s.scans && s.scans[t].ReserveScan? && t in s.tasks && s.tasks[t].Acquiring?
    && var p, k, task := s.scans[t].pos, s.scans[t].key, s.tasks[t];
       && p < |s.active| && Contains(s.active[p], k)
       && s' == s.(active := s.active[p := s.active[p].(counts := Reserved(s.active[p].counts, k))],
                   tasks := s.tasks[t := task.(todo := task.todo - {k}, reserved := task.reserved + {k})],
                   scans := s.scans - {t})
  }

  predicate ReservePass(s: State, t: TaskId, s': State) {
    && t in s.scans && s.scans[t].ReserveScan?
    && var p, k := s.scans[t].pos, s.scans[t].key;
       && p < |s.active| && !Contains(s.active[p], k)
       && s' == s.(scans := s.scans[t := ReserveScan(k, p + 1)])
  }

  predicate ReserveMiss(s: State, t: TaskId, s': State) {
    && t in s.scans && s.scans[t].ReserveScan? && t in s.tasks && s.tasks[t].Acquiring?
    && var k, task := s.scans[t].key, s.tasks[t];
       && s.scans[t].pos == |s.active|
       && s' == s.(tasks := s.tasks[t := task.(todo := task.todo - {k}, remaining := task.remaining + {k})],
                   scans := s.scans - {t})
  }

  // ----- reserve_new_pubkeys: extend the last table or create one, under the write lock

  predicate TakeWriteLock(s: State, t: TaskId, s': State) {
    && t in s.tasks && s.tasks[t].Acquiring? && s.tasks[t].todo == {} && s.tasks[t].remaining != {}
    && s.writer == None && s.scans == map[]
    && s' == s.(writer := Some(Writer(t, Deciding)))
  }

  predicate DropWriteLock(s: State, t: TaskId, s': State) {
    && HoldsWriteLock(s, t, Deciding)
    && s' == s.(writer := None)
  }

  predicate SendExtend(s: State, t: TaskId, batch: seq<Pubkey>, s': State) {
    && HoldsWriteLock(s, t, Deciding)
    && s.active != [] && !IsFull(LastTable(s))
    && IsBatch(batch, s.tasks[t].remaining) && batch != [] && !ExceedsMax(batch)
    && |batch| <= LOOKUP_TABLE_MAX_ADDRESSES - |LastTable(s).counts|
    && s' == Sent(s, ExtendTx(LastTable(s).address, batch)).(writer := Some(Writer(t, ExtendSent(|s.sent|, batch))))
  }

  predicate ExtendOk(s: State, t: TaskId, s': State) {
    && s.writer.Some? && s.writer.value.stage.ExtendSent?
    && HoldsWriteLock(s, t, s.writer.value.stage)
    && var ExtendSent(x, batch) := s.writer.value.stage;
       && x in s.landed && s.active != [] && LastTable(s).Active?
       && var last := LastTable(s).(counts := Inserted(LastTable(s).counts, batch));
          s' == Recorded(s, t, batch).(active := s.active[|s.active| - 1 := last], writer := None)
  }

  /** The extend failed, or was refused before it was sent. */
  predicate ExtendError(s: State, t: TaskId, s': State) {
    && s.writer.Some? && HoldsWriteLock(s, t, s.writer.value.stage)
    && (s.writer.value.stage.ExtendSent? || (s.writer.value.stage.Deciding? && s.active != []))
    && s' == s.(writer := Some(Writer(t, ExtendFailed)))
  }

  /** After a failed extend the table adopts what the chain reports, possibly an old answer or
      none at all, and the keys of this call that the table now has are reserved. */
  predicate Reconcile(s: State, t: TaskId, seen: seq<Pubkey>, s': State) {
    && HoldsWriteLock(s, t, ExtendFailed)
    && s.active != [] && LastTable(s).Active?
    && var last, task := LastTable(s), s.tasks[t];
       && (seen == [] || (last.address in s.chain && seen <= s.chain[last.address].keys))
       && var counts := Adopted(last.counts, seen);
          var here := task.remaining * counts.Keys;
          var counts' := if task.mode == Reserve then ReservedAll(counts, task.remaining) else counts;
          var task' := if task.mode == Reserve then task.(reserved := task.reserved + here,
                                                          remaining := task.remaining - here)
                       else task.(remaining := task.remaining - here);
          s' == s.(active := s.active[|s.active| - 1 := last.(counts := counts')],
                   tasks := s.tasks[t := task'],
                   writer := Some(Writer(t, Reconciled)))
  }

  predicate SkipReconcile(s: State, t: TaskId, s': State) {
    && HoldsWriteLock(s, t, ExtendFailed)
    && s' == s.(writer := Some(Writer(t, Reconciled)))
  }

  /** The failed attempt ends; a table that rejected the instruction is not extended again. */
  predicate GiveUpExtend(s: State, t: TaskId, nonExtendable: bool, s': State) {
    && HoldsWriteLock(s, t, Reconciled)
    && s.active != [] && LastTable(s).Active?
    && var last := LastTable(s);
       s' == s.(active := s.active[|s.active| - 1 := last.(extendable := last.extendable && !nonExtendable)],
                writer := None)
  }

  /** The sub slot distinguishes tables created at one observed slot. */
  function NextSubSlot(lastSlot: nat, subSlot: nat, slot: nat): nat {
    if lastSlot != slot then 0 else subSlot + 1
  }

  predicate Created(sent: seq<Tx>, a: Address) {
    exists x :: 0 <= x < |sent| && sent[x].CreateTx? && sent[x].address == a
  }

  /** The address that a table created at `slot` would get. */
  function DerivedAddress(lastSlot: nat, subSlot: nat, slot: nat): Address {
    Address(slot, NextSubSlot(lastSlot, subSlot, slot))
  }

  /** A slot whose address was used before is not reported; SubSlots says which slots these are. */
  predicate SendCreate(s: State, t: TaskId, slot: nat, batch: seq<Pubkey>, s': State) {
    && HoldsWriteLock(s, t, Deciding)
    && !Created(s.sent, DerivedAddress(s.lastSlot, s.subSlot, slot))
    && IsBatch(batch, s.tasks[t].remaining) && batch != [] && !ExceedsMax(batch)
    && var a := DerivedAddress(s.lastSlot, s.subSlot, slot);
       s' == Sent(s, CreateTx(a, batch)).(writer := Some(Writer(t, CreateSent(|s.sent|, a, batch))),
                                          lastSlot := a.slot, subSlot := a.subSlot)
  }

  predicate CreateOk(s: State, t: TaskId, s': State) {
    && s.writer.Some? && s.writer.value.stage.CreateSent?
    && HoldsWriteLock(s, t, s.writer.value.stage)
    && var CreateSent(x, a, batch) := s.writer.value.stage;
       && x in s.landed
       && s' == Recorded(s, t, batch).(active := s.active + [Active(a, Inserted(map[], batch), true)], writer := None)
  }

  predicate Return(s: State, t: TaskId, s': State) {
    && t in s.tasks && s.tasks[t].Acquiring? && s.tasks[t].todo == {} && s.tasks[t].remaining == {}
    && (s.writer.Some? ==> s.writer.value.task != t)
    && s' == Ended(s, t)
  }

  /** An error or a cancellation, at any point where the call awaits. */
  predicate Abort(s: State, t: TaskId, s': State) {
    && t in s.tasks && s.tasks[t].Acquiring? && t !in s.scans
    && s' == Ended(s, t).(writer := if s.writer.Some? && s.writer.value.task == t then None else s.writer)
  }

  // ----- release_pubkeys

  predicate StartRelease(s: State, t: TaskId, s': State) {
    && t in s.tasks && s.tasks[t].Holding?
    && s' == s.(tasks := s.tasks[t := Releasing(s.tasks[t].reserved)])
  }

  predicate BeginReleaseScan(s: State, t: TaskId, k: Pubkey, s': State) {
    && t in s.tasks && s.tasks[t].Releasing? && k in s.tasks[t].left
    && t !in s.scans && s.writer == None
    && s' == s.(scans := s.scans[t := ReleaseScan(k, 0)])
  }

  predicate ReleaseHit(s: State, t: TaskId, s': State) {
    && t in s.scans && s.scans[t].ReleaseScan? && t in s.tasks && s.tasks[t].Releasing?
    && var p, k := s.scans[t].pos, s.scans[t].key;
       && p < |s.active| && CountOf(s.active[p], k) > 0
       && s' == s.(active := s.active[p := s.active[p].(counts := Released(s.active[p].counts, k))],
                   tasks := s.tasks[t := Releasing(s.tasks[t].left - {k})],
                   scans := s.scans - {t})
  }

  predicate ReleasePass(s: State, t: TaskId, s': State) {
    && t in s.scans && s.scans[t].ReleaseScan?
    && var p, k := s.scans[t].pos, s.scans[t].key;
       && p < |s.active| && CountOf(s.active[p], k) == 0
       && s' == s.(scans := s.scans[t := ReleaseScan(k, p + 1)])
  }

  /** The scan found no table: the release is dropped without a trace. */
  predicate ReleaseMiss(s: State, t: TaskId, s': State) {
    && t in s.scans && s.scans[t].ReleaseScan? && t in s.tasks && s.tasks[t].Releasing?
    && s.scans[t].pos == |s.active|
    && s' == s.(tasks := s.tasks[t := Releasing(s.tasks[t].left - {s.scans[t].key})], scans := s.scans - {t})
  }

  predicate Drain(s: State, t: TaskId, s': State) {
    && t in s.tasks && s.tasks[t] == Releasing({})
    && s.writer == None && s.scans == map[]
    && s' == s.(active := WithReservations(s.active),
                released := s.released + WithoutReservations(s.active),
                tasks := s.tasks - {t})
  }

  // ----- garbage collector

  predicate SendDeactivate(s: State, i: nat, s': State) {
    && i < |s.released| && s.released[i].Active?
    && s' == Sent(s, DeactivateTx(s.released[i].address))
  }

  predicate Deactivate(s: State, i: nat, x: TxId, slot: nat, s': State) {
    && i < |s.released| && s.released[i].Active?
    && x < |s.sent| && x in s.landed && s.sent[x] == DeactivateTx(s.released[i].address)
    && slot <= s.clock
    && s' == s.(released := s.released[i := Deactivated(s.released[i].address, slot)])
  }

  predicate CooledDown(t: Table, slot: nat) {
    t.Deactivated? && t.deactivationSlot + MAX_ENTRIES <= slot
  }

  predicate SendClose(s: State, i: nat, slot: nat, s': State) {
    && i < |s.released| && slot <= s.clock && CooledDown(s.released[i], slot)
    && s' == Sent(s, CloseTx(s.released[i].address))
  }

  predicate ForgetClosed(s: State, i: nat, slot: nat, s': State) {
    && i < |s.released| && slot <= s.clock && CooledDown(s.released[i], slot)
    && s.released[i].address in s.chain && s.chain[s.released[i].address].status == Closed
    && s' == s.(released := s.released[..i] + s.released[i + 1..])
  }

  // ----- the chain moves on its own: a sent transaction lands late, or never

  predicate Land(s: State, x: TxId, s': State) {
    && x in s.flight && x < |s.sent|
    && s' == if Accepted(s.chain, s.sent[x])
             then s.(chain := Executed(s.chain, s.sent[x]), flight := s.flight - {x}, landed := s.landed + {x})
             else s.(flight := s.flight - {x})
  }

  predicate Tick(s: State, s': State) {
    s' == s.(clock := s.clock + 1)
  }

  // ----- runs

  datatype ReserveAct =
    | LStartReserve(want: set<Pubkey>)
    | LStartEnsure(want: set<Pubkey>)
    | LBeginReserveScan(k: Pubkey)
    | LReserveHit
    | LReservePass
    | LReserveMiss
    | LReturn
    | LAbort

  datatype WriteAct =
    | LTakeWriteLock
    | LDropWriteLock
    | LSendExtend(batch: seq<Pubkey>)
    | LExtendOk
    | LExtendError
    | LReconcile(seen: seq<Pubkey>)
    | LSkipReconcile
    | LGiveUpExtend(nonExtendable: bool)
    | LSendCreate(slot: nat, batch: seq<Pubkey>)
    | LCreateOk

  datatype ReleaseAct =
    | LStartRelease
    | LBeginReleaseScan(k: Pubkey)
    | LReleaseHit
    | LReleasePass
    | LReleaseMiss
    | LDrain

  datatype CollectAct =
    | LSendDeactivate(i: nat)
    | LDeactivate(i: nat, x: TxId, slot: nat)
    | LSendClose(i: nat, slot: nat)
    | LForgetClosed(i: nat, slot: nat)

  datatype Label =
    | Reserving(t: TaskId, reserve: ReserveAct)
    | Writing(t: TaskId, write: WriteAct)
    | Freeing(t: TaskId, free: ReleaseAct)
    | Collecting(collect: CollectAct)
    | Landing(x: TxId)
    | Ticking

  predicate ReserveNext(s: State, t: TaskId, act: ReserveAct, s': State) {
    match act
    case LStartReserve(want) => StartReserve(s, t, want, s')
    case LStartEnsure(want) => StartEnsure(s, t, want, s')
    case LBeginReserveScan(k) => BeginReserveScan(s, t, k, s')
    case LReserveHit => ReserveHit(s, t, s')
    case LReservePass => ReservePass(s, t, s')
    case LReserveMiss => ReserveMiss(s, t, s')
    case LReturn => Return(s, t, s')
    case LAbort => Abort(s, t, s')
  }

  predicate WriteNext(s: State, t: TaskId, act: WriteAct, s': State) {
    match act
    case LTakeWriteLock => TakeWriteLock(s, t, s')
    case LDropWriteLock => DropWriteLock(s, t, s')
    case LSendExtend(batch) => SendExtend(s, t, batch, s')
    case LExtendOk => ExtendOk(s, t, s')
    case LExtendError => ExtendError(s, t, s')
    case LReconcile(seen) => Reconcile(s, t, seen, s')
    case LSkipReconcile => SkipReconcile(s, t, s')
    case LGiveUpExtend(nonExtendable) => GiveUpExtend(s, t, nonExtendable, s')
    case LSendCreate(slot, batch) => SendCreate(s, t, slot, batch, s')
    case LCreateOk => CreateOk(s, t, s')
  }

  predicate ReleaseNext(s: State, t: TaskId, act: ReleaseAct, s': State) {
    match act
    case LStartRelease => StartRelease(s, t, s')
    case LBeginReleaseScan(k) => BeginReleaseScan(s, t, k, s')
    case LReleaseHit => ReleaseHit(s, t, s')
    case LReleasePass => ReleasePass(s, t, s')
    case LReleaseMiss => ReleaseMiss(s, t, s')
    case LDrain => Drain(s, t, s')
  }

  predicate CollectNext(s: State, act: CollectAct, s': State) {
    match act
    case LSendDeactivate(i) => SendDeactivate(s, i, s')
    case LDeactivate(i, x, slot) => Deactivate(s, i, x, slot, s')
    case LSendClose(i, slot) => SendClose(s, i, slot, s')
    case LForgetClosed(i, slot) => ForgetClosed(s, i, slot, s')
  }

  predicate Next(s: State, l: Label, s': State) {
    match l
    case Reserving(t, act) => ReserveNext(s, t, act, s')
    case Writing(t, act) => WriteNext(s, t, act, s')
    case Freeing(t, act) => ReleaseNext(s, t, act, s')
    case Collecting(act) => CollectNext(s, act, s')
    case Landing(x) => Land(s, x, s')
    case Ticking => Tick(s, s')
  }

  /** A run: its first state is initial and each label leads from one state to the next. */
  predicate IsRun(states: seq<State>, labels: seq<Label>) {
    && |states| == |labels| + 1
    && Init(states[0])
    && forall i :: 0 <= i < |labels| ==> Next(states[i], labels[i], states[i + 1])
  }
}
