/** The protocol's steps as the manager takes them in one go, and what they rest on. */
module TableSteps {
  import opened Options
  import opened LookupTables
  import opened TableProtocol
  import opened LookupAnswers
  import opened TableRely
  import R = ReservationInvariant
  import C = ChainInvariant
  import Runs = TableRuns

  /** The keys that one extend stores: what one transaction takes and the table has room for. */
  function ExtendShare(table: Table, remaining: seq<Pubkey>): seq<Pubkey>
    requires !IsFull(table)
  {
    First(First(remaining, MAX_ENTRIES_AS_PART_OF_EXTEND), LOOKUP_TABLE_MAX_ADDRESSES - |table.counts|)
  }

  function WithInserted(table: Table, batch: seq<Pubkey>): Table
    requires table.Active?
  {
    table.(counts := Inserted(table.counts, batch))
  }

  /** The table knows what the chain lists, without a reservation; the wanted keys it now has gain
      one each. */
  function WithAdopted(table: Table, seen: seq<Pubkey>, mode: Mode, wanted: set<Pubkey>): Table
    requires table.Active?
  {
    var counts := Adopted(table.counts, seen);
    table.(counts := if mode == Reserve then ReservedAll(counts, wanted) else counts)
  }

  /** The keys that a new table starts with. */
  function InitShare(remaining: seq<Pubkey>, limit: nat): seq<Pubkey> {
    First(First(remaining, limit), MAX_ENTRIES_AS_PART_OF_EXTEND)
  }

  lemma PrefixIsBatch(remaining: seq<Pubkey>, batch: seq<Pubkey>)
    requires Distinct(remaining) && batch <= remaining
    ensures IsBatch(batch, Elements(remaining))
  {
    assert forall i :: 0 <= i < |batch| ==> batch[i] == remaining[i];
  }

  /** The latest slot that any table was created at. */
  function LastCreatedAt(sent: seq<Tx>): (slot: nat)
    ensures forall x :: 0 <= x < |sent| && sent[x].CreateTx? ==> sent[x].address.slot <= slot
  {
    if sent == [] then 0
    else
      var before, tx := LastCreatedAt(sent[..|sent| - 1]), sent[|sent| - 1];
      if tx.CreateTx? && tx.address.slot > before then tx.address.slot else before
  }

  /** `slot`, or a later one if the address it gives was used before. */
  function UsableSlot(sent: seq<Tx>, lastSlot: nat, subSlot: nat, slot: nat): (r: nat)
    ensures !Created(sent, DerivedAddress(lastSlot, subSlot, r)) && slot <= r
    ensures r == slot <==> !Created(sent, DerivedAddress(lastSlot, subSlot, slot))
  {
    if Created(sent, DerivedAddress(lastSlot, subSlot, slot)) then LastCreatedAt(sent) + 1 else slot
  }

  lemma SendExtendStep(s: State, me: TaskId, batch: seq<Pubkey>, s': State)
    requires SendExtend(s, me, batch, s')
    ensures Next(s, Writing(me, LSendExtend(batch)), s')
  {
  }

  lemma SendCreateStep(s: State, me: TaskId, slot: nat, batch: seq<Pubkey>, s': State)
    requires SendCreate(s, me, slot, batch, s')
    ensures Next(s, Writing(me, LSendCreate(slot, batch)), s')
  {
  }

  lemma ExtendOkStep(s: State, me: TaskId, x: TxId, batch: seq<Pubkey>, s': State)
    requires HoldsWriteLock(s, me, ExtendSent(x, batch)) && x in s.landed && s.active != [] && LastTable(s).Active?
    requires s' == Recorded(s, me, batch).(
                     active := s.active[|s.active| - 1 := WithInserted(LastTable(s), batch)],
                     writer := None)
    ensures Next(s, Writing(me, LExtendOk), s')
  {
  }

  lemma CreateOkStep(s: State, me: TaskId, x: TxId, a: Address, batch: seq<Pubkey>, s': State)
    requires HoldsWriteLock(s, me, CreateSent(x, a, batch)) && x in s.landed
    requires s' == Recorded(s, me, batch).(active := s.active + [Active(a, Inserted(map[], batch), true)],
                                           writer := None)
    ensures Next(s, Writing(me, LCreateOk), s')
  {
  }

  lemma ReconcileStep(s: State, me: TaskId, seen: seq<Pubkey>, mode: Mode, remaining: set<Pubkey>,
                      reserved: set<Pubkey>,
                      counts: map<Pubkey, nat>, reserved': set<Pubkey>, remaining': set<Pubkey>, s': State)
    requires HoldsWriteLock(s, me, ExtendFailed) && s.active != [] && LastTable(s).Active?
    requires s.tasks[me].mode == mode && s.tasks[me].remaining == remaining && s.tasks[me].reserved == reserved
    requires seen == [] || (LastTable(s).address in s.chain && seen <= s.chain[LastTable(s).address].keys)
    requires var adopted := Adopted(LastTable(s).counts, seen);
             && counts == (if mode == Reserve then ReservedAll(adopted, remaining) else adopted)
             && remaining' == remaining - remaining * adopted.Keys
             && reserved' == (if mode == Reserve then reserved + remaining * adopted.Keys else reserved)
    requires s' == s.(active := s.active[|s.active| - 1 := LastTable(s).(counts := counts)],
                      tasks := s.tasks[me := s.tasks[me].(reserved := reserved', remaining := remaining')],
                      writer := Some(Writer(me, Reconciled)))
    ensures Next(s, Writing(me, LReconcile(seen)), s')
  {
  }

  lemma OnlyWanted(states: seq<State>, labels: seq<Label>, me: TaskId)
    requires IsRun(states, labels) && me in states[|states| - 1].tasks && states[|states| - 1].tasks[me].Acquiring?
    ensures var task := states[|states| - 1].tasks[me];
            task.mode == Reserve ==>
                  task.reserved <= task.want && task.want == task.todo + task.reserved + task.remaining
    ensures var task := states[|states| - 1].tasks[me]; task.todo !! task.reserved !! task.remaining
  {
    Runs.EveryState(states, labels, |states| - 1);
    assert R.TaskOk(states[|states| - 1], me);
  }

  lemma NobodysScan(states: seq<State>, labels: seq<Label>, me: TaskId)
    requires IsRun(states, labels) && me !in states[|states| - 1].tasks
    ensures me !in states[|states| - 1].scans && !Owns(states[|states| - 1], me)
  {
    Runs.EveryState(states, labels, |states| - 1);
    var s := states[|states| - 1];
    assert me in s.scans ==> R.ScanOk(s, me);
  }

  lemma OneMoreDistinct(keys: seq<Pubkey>, k: Pubkey)
    requires Distinct(keys) && k !in Elements(keys)
    ensures Distinct(keys + [k]) && Elements(keys + [k]) == Elements(keys) + {k}
  {
    assert k !in keys by { assert k in keys ==> k in Elements(keys); }
  }

  lemma NoScansUnderLock(states: seq<State>, labels: seq<Label>)
    requires IsRun(states, labels) && states[|states| - 1].writer.Some?
    ensures states[|states| - 1].scans == map[]
  {
    Runs.EveryState(states, labels, |states| - 1);
  }

  /** A creation that was sent and has not landed yet will not be refused. */
  lemma CreateIsAccepted(states: seq<State>, labels: seq<Label>, x: TxId, a: Address, batch: seq<Pubkey>)
    requires IsRun(states, labels) && x in states[|states| - 1].flight && x < |states[|states| - 1].sent|
    requires var writer := states[|states| - 1].writer; writer.Some? && writer.value.stage == CreateSent(x, a, batch)
    ensures Accepted(states[|states| - 1].chain, states[|states| - 1].sent[x])
  {
    Runs.EveryState(states, labels, |states| - 1);
    assert C.StageOk(states[|states| - 1]);
  }

  lemma TwiceInBag<T>(s: seq<T>, i: nat, j: nat)
    requires i < j < |s| && s[i] == s[j]
    ensures multiset(s)[s[i]] >= 2
  {
    assert s == s[..i] + [s[i]] + s[i + 1..j] + [s[i]] + s[j + 1..];
  }

  /** Active tables have pairwise different addresses. */
  lemma AddressesDiffer(states: seq<State>, labels: seq<Label>)
    requires IsRun(states, labels)
    ensures UniqueAddresses(states[|states| - 1].active)
  {
    Runs.EveryState(states, labels, |states| - 1);
    var s := states[|states| - 1];
    var all := C.Addresses(s.active);
    forall i, j | 0 <= i < j < |s.active| ensures s.active[i].address != s.active[j].address {
      C.BagMember(s.active, i);
      assert all[i] == s.active[i].address && all[j] == s.active[j].address;
      assert all[i] in C.Bag(s.active) + C.Bag(s.released);
      if all[i] == all[j] {
        TwiceInBag(all, i, j);
      }
    }
  }

  /** One table more, with each key of `batch` reserved once and an address of its own. */
  predicate Appended(before: seq<Table>, after: seq<Table>, batch: seq<Pubkey>) {
    && |after| == |before| + 1 && after[..|before|] == before
    && var last := after[|before|];
       && last.Active? && last.extendable && last.counts.Keys == Elements(batch)
       && (forall k :: k in batch ==> last.counts[k] == 1)
       && forall i :: 0 <= i < |before| ==> before[i].address != last.address
  }

  lemma LastIsNew(states: seq<State>, labels: seq<Label>, before: seq<Table>, address: Address, batch: seq<Pubkey>)
    requires IsRun(states, labels) && Distinct(batch)
    requires states[|states| - 1].active == before + [Active(address, Inserted(map[], batch), true)]
    ensures Appended(before, states[|states| - 1].active, batch)
  {
    AddressesDiffer(states, labels);
    var after := states[|states| - 1].active;
    forall i | 0 <= i < |before| ensures before[i].address != address {
      assert after[i] == before[i] && after[|before|].address == address;
    }
    forall k | k in batch ensures Inserted(map[], batch)[k] == 1 { DistinctMultiplicity(batch, k); }
  }
}
