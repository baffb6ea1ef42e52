/** Table addresses are derived from the observed slot and a sub slot that counts the tables
    created at that slot. When do the pairs repeat? */
module SubSlots {
  import opened LookupTables
  import opened TableProtocol

  /** The address derived for the n-th table created since the program started; the counters
      start out as if slot 0 had been observed. */
  function AddressAt(slots: seq<nat>, n: nat): Address
    requires n <= |slots|
  {
    if n == 0 then Address(0, 0)
    else
      var last := AddressAt(slots, n - 1);
      Address(slots[n - 1], NextSubSlot(last.slot, last.subSlot, slots[n - 1]))
  }

  /** The tables are those from the first on; the address at 0 is no table's. */
  predicate AllDistinct(slots: seq<nat>) {
    forall i: nat, j: nat :: 1 <= i < j <= |slots| ==> AddressAt(slots, i) != AddressAt(slots, j)
  }

  /** A slot comes back after a different one. */
  predicate Returns(slots: seq<nat>, i: nat, l: nat) {
    i < l < |slots| && slots[i] == slots[l] && exists j :: i < j < l && slots[j] != slots[i]
  }

  /** The one harmless return. The counters start out as if slot 0 had been observed, so tables
      created at slot 0 first are numbered from 1; number 0 is free for a single one later on. */
  predicate ZeroOnceMore(slots: seq<nat>, i: nat, l: nat)
    requires i < l < |slots|
  {
    && (forall k :: 0 <= k <= i ==> slots[k] == 0)
    && slots[l] == 0 && slots[l - 1] != 0 && (l + 1 < |slots| ==> slots[l + 1] != 0)
  }

  predicate NeverReturns(slots: seq<nat>) {
    forall i: nat, l: nat :: i < l < |slots| && Returns(slots, i, l) ==> ZeroOnceMore(slots, i, l)
  }

  /** While the slot stays the same the sub slot counts up. */
  lemma {:induction false} CountsUp(slots: seq<nat>, i: nat, l: nat)
    requires i <= l <= |slots|
    requires forall j :: i <= j <= l ==> AddressAt(slots, j).slot == AddressAt(slots, i).slot
    ensures AddressAt(slots, l).subSlot == AddressAt(slots, i).subSlot + (l - i)
    decreases l
  {
    if i < l {
      assert AddressAt(slots, l - 1).slot == AddressAt(slots, i).slot;
      assert AddressAt(slots, l).slot == AddressAt(slots, i).slot;
      CountsUp(slots, i, l - 1);
    }
  }

  /** Where the run of equal slots that reaches table `i` began: there the sub slot was 0, or 1 if it
      began with the first table at slot 0. */
  lemma {:induction false} BlockStart(slots: seq<nat>, i: nat) returns (b: nat)
    requires 1 <= i <= |slots|
    ensures 1 <= b <= i && forall j :: b <= j <= i ==> AddressAt(slots, j).slot == AddressAt(slots, i).slot
    ensures b > 1 ==> AddressAt(slots, b - 1).slot != AddressAt(slots, b).slot
    ensures AddressAt(slots, b).subSlot == if b == 1 && slots[0] == 0 then 1 else 0
  {
    if i == 1 || AddressAt(slots, i - 1).slot != AddressAt(slots, i).slot {
      b := i;
    } else {
      b := BlockStart(slots, i - 1);
    }
  }

  lemma SlotAt(slots: seq<nat>, n: nat)
    requires 1 <= n <= |slots|
    ensures AddressAt(slots, n).slot == slots[n - 1]
  {
  }

  /** Two tables of one slot, without another slot between them, are told apart by the counter. */
  lemma SameBlockDiffers(slots: seq<nat>, i: nat, l: nat)
    requires 1 <= i < l <= |slots| && !Returns(slots, i - 1, l - 1)
    ensures AddressAt(slots, i) != AddressAt(slots, l)
  {
    SlotAt(slots, i);
    SlotAt(slots, l);
    if slots[i - 1] == slots[l - 1] {
      forall j | i <= j <= l ensures AddressAt(slots, j).slot == AddressAt(slots, i).slot {
        SlotAt(slots, j);
        assert i < j < l ==> slots[j - 1] == slots[i - 1];
      }
      CountsUp(slots, i, l);
    }
  }

  lemma ZeroOnceMoreDiffers(slots: seq<nat>, i: nat, l: nat)
    requires 1 <= i < l <= |slots| && ZeroOnceMore(slots, i - 1, l - 1)
    ensures AddressAt(slots, i) != AddressAt(slots, l)
  {
    forall j | 1 <= j <= i ensures AddressAt(slots, j).slot == AddressAt(slots, 1).slot {
      SlotAt(slots, j);
    }
    CountsUp(slots, 1, i);
    SlotAt(slots, l - 1);
  }

  /** Where the slot of table `i` comes back at table `l`, both runs count from the same number
      unless the first one is the initial run at slot 0 and the second one ends at once. */
  lemma ReturnRepeats(slots: seq<nat>, i: nat, l: nat)
    requires 1 <= i < l <= |slots| && Returns(slots, i - 1, l - 1) && AllDistinct(slots)
    ensures ZeroOnceMore(slots, i - 1, l - 1)
  {
    var b := BlockStart(slots, i);
    var e := BlockStart(slots, l);
    var j :| i - 1 < j < l - 1 && slots[j] != slots[i - 1];
    SlotAt(slots, i);
    SlotAt(slots, l);
    SlotAt(slots, j + 1);
    SlotAt(slots, b);
    SlotAt(slots, e);
    assert e > j + 1;
    assert AddressAt(slots, b) != AddressAt(slots, e);
    assert b == 1 && slots[0] == 0;
    forall k | 0 <= k <= i - 1 ensures slots[k] == 0 { SlotAt(slots, k + 1); }
    SlotAt(slots, e - 1);
    if e < l {
      SlotAt(slots, e + 1);
      assert AddressAt(slots, e + 1) == AddressAt(slots, 1);
      assert false;
    }
    if l < |slots| {
      SlotAt(slots, l + 1);
    }
  }

  /** The addresses of all tables differ exactly when no observed slot comes back after another one,
      but for one more table at slot 0. */
  lemma DistinctIffNeverReturns(slots: seq<nat>)
    ensures AllDistinct(slots) <==> NeverReturns(slots)
  {
    if NeverReturns(slots) {
      forall i: nat, l: nat | 1 <= i < l <= |slots| ensures AddressAt(slots, i) != AddressAt(slots, l) {
        if Returns(slots, i - 1, l - 1) {
          ZeroOnceMoreDiffers(slots, i, l);
        } else {
          SameBlockDiffers(slots, i, l);
        }
      }
    }
    if AllDistinct(slots) {
      forall i: nat, l: nat | i < l < |slots| && Returns(slots, i, l) ensures ZeroOnceMore(slots, i, l) {
        ReturnRepeats(slots, i + 1, l + 1);
      }
    }
  }

  /** Away from slot 0, which no running chain reports, any return repeats an address. */
  lemma PositiveSlots(slots: seq<nat>)
    requires forall i :: 0 <= i < |slots| ==> slots[i] > 0
    ensures AllDistinct(slots) <==> forall i: nat, l: nat :: i < l < |slots| ==> !Returns(slots, i, l)
  {
    DistinctIffNeverReturns(slots);
    assert forall i: nat, l: nat :: i < l < |slots| && Returns(slots, i, l) ==> !ZeroOnceMore(slots, i, l);
  }

  /** Observed slots that never go back are enough. */
  lemma MonotoneNeverReturns(slots: seq<nat>)
    requires forall i, j :: 0 <= i < j < |slots| ==> slots[i] <= slots[j]
    ensures AllDistinct(slots)
  {
    DistinctIffNeverReturns(slots);
  }

  /** A slot reported late, after a newer one, derives the address of an earlier table again. */
  lemma LateSlotRepeatsAddress()
    ensures AddressAt([7, 8, 7], 1) == AddressAt([7, 8, 7], 3)
    ensures !NeverReturns([7, 8, 7])
  {
    var slots := [7, 8, 7];
    assert AddressAt(slots, 1) == Address(7, 0);
    assert AddressAt(slots, 2) == Address(8, 0);
    assert AddressAt(slots, 3) == Address(7, 0);
    assert slots[1] != slots[0] && Returns(slots, 0, 2);
  }

  /** Slot 0 may come back for one table, and not for two. */
  lemma ZeroComesBackOnce()
    ensures AllDistinct([0, 5, 0]) && !AllDistinct([0, 5, 0, 0])
  {
    var once, twice := [0, 5, 0], [0, 5, 0, 0];
    assert AddressAt(once, 1) == Address(0, 1) && AddressAt(once, 2) == Address(5, 0);
    assert AddressAt(once, 3) == Address(0, 0);
    assert AddressAt(twice, 1) == Address(0, 1) && AddressAt(twice, 2) == Address(5, 0);
    assert AddressAt(twice, 3) == Address(0, 0) && AddressAt(twice, 4) == Address(0, 1);
  }

  // ----- the slots of a run

  predicate CreatesTable(l: Label) {
    l.Writing? && l.write.LSendCreate?
  }

  /** The slots that were observed for creating tables, in order. */
  function ObservedSlots(labels: seq<Label>): seq<nat> {
    if labels == [] then []
    else
      var l := labels[|labels| - 1];
      ObservedSlots(labels[..|labels| - 1]) + if CreatesTable(l) then [l.write.slot] else []
  }

  predicate Derived(slots: seq<nat>, a: Address) {
    exists i :: 1 <= i <= |slots| && AddressAt(slots, i) == a
  }

  lemma {:induction false} AddressAtPrefix(slots: seq<nat>, slot: nat, n: nat)
    requires n <= |slots|
    ensures AddressAt(slots + [slot], n) == AddressAt(slots, n)
  {
    if n > 0 {
      AddressAtPrefix(slots, slot, n - 1);
    }
  }

  lemma DerivedOneMore(slots: seq<nat>, slot: nat, a: Address)
    ensures var last := AddressAt(slots, |slots|);
            && AddressAt(slots + [slot], |slots| + 1) == DerivedAddress(last.slot, last.subSlot, slot)
            && (Derived(slots + [slot], a) <==> Derived(slots, a) || a == AddressAt(slots + [slot], |slots| + 1))
  {
    forall i: nat | i <= |slots| ensures AddressAt(slots + [slot], i) == AddressAt(slots, i) {
      AddressAtPrefix(slots, slot, i);
    }
    if Derived(slots, a) {
      var i :| 1 <= i <= |slots| && AddressAt(slots, i) == a;
      assert AddressAt(slots + [slot], i) == a;
    }
  }

  lemma CreatedOneMore(sent: seq<Tx>, tx: Tx, a: Address)
    ensures Created(sent + [tx], a) <==> Created(sent, a) || (tx.CreateTx? && tx.address == a)
  {
    assert forall x :: 0 <= x < |sent| ==> (sent + [tx])[x] == sent[x];
    assert (sent + [tx])[|sent|] == tx;
  }

  /** The counters are those of the last table, and the addresses in use those of all tables. */
  ghost predicate Follows(s: State, slots: seq<nat>) {
    && Address(s.lastSlot, s.subSlot) == AddressAt(slots, |slots|)
    && forall a :: Created(s.sent, a) <==> Derived(slots, a)
  }

  lemma CreateStep(s: State, l: Label, s': State)
    requires Next(s, l, s') && CreatesTable(l)
    ensures SendCreate(s, l.t, l.write.slot, l.write.batch, s')
  {
  }

  lemma SendCreateFollows(s: State, l: Label, s': State, slots: seq<nat>)
    requires CreatesTable(l) && SendCreate(s, l.t, l.write.slot, l.write.batch, s') && Follows(s, slots)
    ensures Follows(s', slots + [l.write.slot])
  {
    var slot, batch := l.write.slot, l.write.batch;
    DerivedOneMore(slots, slot, Address(s'.lastSlot, s'.subSlot));
    forall a ensures Created(s'.sent, a) <==> Derived(slots + [slot], a) {
      DerivedOneMore(slots, slot, a);
      CreatedOneMore(s.sent, CreateTx(DerivedAddress(s.lastSlot, s.subSlot, slot), batch), a);
    }
  }

  /** No table is created. */
  predicate CreatesNone(s: State, s': State) {
    && s'.lastSlot == s.lastSlot && s'.subSlot == s.subSlot
    && s.sent <= s'.sent && forall x :: |s.sent| <= x < |s'.sent| ==> !s'.sent[x].CreateTx?
  }

  lemma ReserveCreatesNone(s: State, t: TaskId, act: ReserveAct, s': State)
    requires ReserveNext(s, t, act, s')
    ensures CreatesNone(s, s')
  {
  }

  lemma WriteCreatesNone(s: State, t: TaskId, act: WriteAct, s': State)
    requires WriteNext(s, t, act, s') && !act.LSendCreate?
    ensures CreatesNone(s, s')
  {
  }

  lemma ReleaseCreatesNone(s: State, t: TaskId, act: ReleaseAct, s': State)
    requires ReleaseNext(s, t, act, s')
    ensures CreatesNone(s, s')
  {
  }

  lemma CollectCreatesNone(s: State, act: CollectAct, s': State)
    requires CollectNext(s, act, s')
    ensures CreatesNone(s, s')
  {
  }

  lemma OtherStepCreatesNone(s: State, l: Label, s': State)
    requires Next(s, l, s') && !CreatesTable(l)
    ensures CreatesNone(s, s')
  {
    hide ReserveNext;
    hide WriteNext;
    hide ReleaseNext;
    hide CollectNext;
    match l
    case Reserving(t, act) => ReserveCreatesNone(s, t, act, s');
    case Writing(t, act) => WriteCreatesNone(s, t, act, s');
    case Freeing(t, act) => ReleaseCreatesNone(s, t, act, s');
    case Collecting(act) => CollectCreatesNone(s, act, s');
    case Landing(x) =>
    case Ticking =>
  }

  lemma OtherStepFollows(s: State, l: Label, s': State, slots: seq<nat>)
    requires Next(s, l, s') && !CreatesTable(l) && Follows(s, slots)
    ensures Follows(s', slots)
  {
    OtherStepCreatesNone(s, l, s');
    hide Next;
    forall a ensures Created(s'.sent, a) <==> Created(s.sent, a) {
      assert forall x :: 0 <= x < |s.sent| ==> s'.sent[x] == s.sent[x];
    }
  }

  lemma {:induction false} RunFollows(states: seq<State>, labels: seq<Label>, n: nat)
    requires IsRun(states, labels) && n <= |labels|
    ensures Follows(states[n], ObservedSlots(labels[..n]))
  {
    if n > 0 {
      hide Next;
      RunFollows(states, labels, n - 1);
      assert labels[..n][..n - 1] == labels[..n - 1];
      var s, l, s', slots := states[n - 1], labels[n - 1], states[n], ObservedSlots(labels[..n - 1]);
      assert Next(s, l, s');
      if CreatesTable(l) {
        CreateStep(s, l, s');
        SendCreateFollows(s, l, s', slots);
      } else {
        OtherStepFollows(s, l, s', slots);
        assert slots + [] == slots;
      }
    }
  }

  lemma DistinctAfter(slots: seq<nat>, slot: nat)
    requires AllDistinct(slots) && !Derived(slots, AddressAt(slots + [slot], |slots| + 1))
    ensures AllDistinct(slots + [slot])
  {
    var more := slots + [slot];
    forall i: nat, j: nat | 1 <= i < j <= |more| ensures AddressAt(more, i) != AddressAt(more, j) {
      AddressAtPrefix(slots, slot, i);
      if j <= |slots| {
        AddressAtPrefix(slots, slot, j);
      }
    }
  }

  lemma DistinctIsNew(slots: seq<nat>, slot: nat)
    requires AllDistinct(slots + [slot])
    ensures !Derived(slots, AddressAt(slots + [slot], |slots| + 1))
  {
    forall i: nat | 1 <= i <= |slots| ensures AddressAt(slots, i) != AddressAt(slots + [slot], |slots| + 1) {
      AddressAtPrefix(slots, slot, i);
    }
  }

  /** Whether the next address is new. */
  lemma NewIffDistinct(s: State, slots: seq<nat>, slot: nat)
    requires Follows(s, slots) && AllDistinct(slots)
    ensures !Created(s.sent, DerivedAddress(s.lastSlot, s.subSlot, slot)) <==> AllDistinct(slots + [slot])
  {
    DerivedOneMore(slots, slot, DerivedAddress(s.lastSlot, s.subSlot, slot));
    if AllDistinct(slots + [slot]) {
      DistinctIsNew(slots, slot);
    } else if !Derived(slots, AddressAt(slots + [slot], |slots| + 1)) {
      DistinctAfter(slots, slot);
    }
  }

  lemma {:induction false} RunDistinct(states: seq<State>, labels: seq<Label>, n: nat)
    requires IsRun(states, labels) && n <= |labels|
    ensures AllDistinct(ObservedSlots(labels[..n]))
  {
    if n > 0 {
      hide Next;
      RunDistinct(states, labels, n - 1);
      RunFollows(states, labels, n - 1);
      assert labels[..n][..n - 1] == labels[..n - 1];
      var s, l, slots := states[n - 1], labels[n - 1], ObservedSlots(labels[..n - 1]);
      assert Next(s, l, states[n]);
      if CreatesTable(l) {
        CreateStep(s, l, states[n]);
        NewIffDistinct(s, slots, l.write.slot);
      } else {
        assert slots + [] == slots;
      }
    }
  }

  /** What the protocol asks of the slots it observes is no more than it needs: at the end of any
      run a slot is taken exactly when it does not come back after those observed so far. */
  lemma AdmitsExactlyNeverReturning(states: seq<State>, labels: seq<Label>, slot: nat)
    requires IsRun(states, labels)
    ensures NeverReturns(ObservedSlots(labels))
    ensures var s := states[|labels|];
            !Created(s.sent, DerivedAddress(s.lastSlot, s.subSlot, slot)) <==>
              NeverReturns(ObservedSlots(labels) + [slot])
  {
    RunFollows(states, labels, |labels|);
    RunDistinct(states, labels, |labels|);
    assert labels[..|labels|] == labels;
    var slots := ObservedSlots(labels);
    NewIffDistinct(states[|labels|], slots, slot);
    DistinctIffNeverReturns(slots);
    DistinctIffNeverReturns(slots + [slot]);
  }
}
