/** What the garbage collector has done to the released tables so far. */
module CollectorRecords {
  import opened LookupTables
  import opened TableProtocol
  import opened TableRely
  import opened TableSteps
  import C = ChainInvariant
  import Runs = TableRuns

  lemma ReleasedFacts(states: seq<State>, labels: seq<Label>)
    requires IsRun(states, labels)
    ensures var s := states[|states| - 1];
            && (forall t :: t in s.released && t.Active? ==> !HasReservations(t))
            && (forall t :: t in s.released && t.Deactivated? ==>
                  t.address in s.chain && s.chain[t.address].status != Live)
  {
    Runs.EveryState(states, labels, |states| - 1);
    var s := states[|states| - 1];
    forall t | t in s.released
      ensures (t.Active? ==> !HasReservations(t)) && (t.Deactivated? ==>
                t.address in s.chain && s.chain[t.address].status != Live)
    {
      assert C.ReleasedOk(s, t);
    }
  }

  /** The table cooled down and its account is closed on chain. */
  predicate Gone(chain: Chain, clock: nat, t: Table, latest: nat) {
    latest <= clock && CooledDown(t, latest) && t.address in chain && chain[t.address].status == Closed
  }

  function Without(tables: seq<Table>, closed: seq<Address>): seq<Table> {
    if tables == [] then []
    else (if tables[0].address in closed then [] else [tables[0]]) + Without(tables[1..], closed)
  }

  predicate Later(s: State, s': State) {
    s.sent <= s'.sent && s.landed <= s'.landed && s.clock <= s'.clock
  }

  /** `after` stands for `before` once a deactivation of it has landed, with a slot observed since. */
  predicate DeactivationOf(s: State, before: Table, after: Table) {
    && after.Deactivated? && after.address == before.address && after.deactivationSlot <= s.clock
    && exists x :: 0 <= x < |s.sent| && x in s.landed && s.sent[x] == DeactivateTx(before.address)
  }

  /** A table that is not deactivated yet was asked to be, and is as it was or deactivated now. */
  predicate Attended(s: State, before: Table, after: Table) {
    if before.Deactivated? then after == before
    else DeactivateTx(before.address) in s.sent && (after == before || DeactivationOf(s, before, after))
  }

  /** The first `n` tables were attended to, the others are as before. */
  ghost predicate AttendedTo(s: State, before: seq<Table>, n: nat) {
    && |s.released| == |before| && n <= |before| && s.released[n..] == before[n..]
    && forall i :: 0 <= i < n ==> Attended(s, before[i], s.released[i])
  }

  lemma AttendedLater(s: State, s': State, before: Table, after: Table)
    requires Attended(s, before, after) && Later(s, s')
    ensures Attended(s', before, after)
  {
    if !before.Deactivated? && after != before {
      var x :| 0 <= x < |s.sent| && x in s.landed && s.sent[x] == DeactivateTx(before.address);
      assert s'.sent[x] == s.sent[x];
    }
    if !before.Deactivated? {
      var y :| 0 <= y < |s.sent| && s.sent[y] == DeactivateTx(before.address);
      assert s'.sent[y] == s.sent[y];
    }
  }

  lemma AttendedOneMore(s: State, s': State, before: seq<Table>, n: nat)
    requires AttendedTo(s, before, n) && n < |before| && Later(s, s')
    requires |s'.released| == |s.released| && s'.released == s.released[n := s'.released[n]]
    requires Attended(s', before[n], s'.released[n])
    ensures AttendedTo(s', before, n + 1)
  {
    forall i | 0 <= i < n ensures Attended(s', before[i], s'.released[i]) {
      AttendedLater(s, s', before[i], s.released[i]);
    }
  }

  /** Every one of the first `n` tables that had cooled down was asked to be closed. */
  predicate CloseTried(s: State, tables: seq<Table>, n: nat, latest: nat)
    requires n <= |tables|
  {
    forall i :: 0 <= i < n && CooledDown(tables[i], latest) ==> CloseTx(tables[i].address) in s.sent
  }

  lemma CloseTriedLater(s: State, s': State, tables: seq<Table>, n: nat, latest: nat)
    requires n <= |tables| && CloseTried(s, tables, n, latest) && s.sent <= s'.sent
    ensures CloseTried(s', tables, n, latest)
  {
    forall i | 0 <= i < n && CooledDown(tables[i], latest) ensures CloseTx(tables[i].address) in s'.sent {
      var y :| 0 <= y < |s.sent| && s.sent[y] == CloseTx(tables[i].address);
      assert s'.sent[y] == s.sent[y];
    }
  }

  lemma {:induction false} WithoutNothing(tables: seq<Table>)
    ensures Without(tables, []) == tables
  {
    if tables != [] {
      WithoutNothing(tables[1..]);
    }
  }

  lemma NothingWithout(closed: seq<Address>)
    ensures Without([], closed) == []
  {
  }

  lemma WithoutStep(tables: seq<Table>, i: nat, closed: seq<Address>)
    requires i < |tables|
    ensures Without(tables[i..], closed) ==
            (if tables[i].address in closed then [] else [tables[i]]) + Without(tables[i + 1..], closed)
  {
    assert tables[i..][0] == tables[i] && tables[i..][1..] == tables[i + 1..];
  }

  /** The `closed` addresses are those of tables before `i` that are gone. */
  ghost predicate SeenGone(s: State, i: nat, closed: seq<Address>, latest: nat) {
    && i <= |s.released| && latest <= s.clock
    && forall a :: a in closed ==>
          exists j :: 0 <= j < i && s.released[j].address == a && Gone(s.chain, s.clock, s.released[j], latest)
  }

  lemma SeenOneMore(s: State, s': State, i: nat, closed: seq<Address>, latest: nat, gone: bool)
    requires SeenGone(s, i, closed, latest) && KeptForCollector(s, s') && i < |s.released|
    requires gone ==> Gone(s'.chain, s'.clock, s'.released[i], latest)
    ensures SeenGone(s', i + 1, if gone then closed + [s'.released[i].address] else closed, latest)
  {
    forall a | a in closed
      ensures exists j :: 0 <= j < i + 1 && s'.released[j].address == a
                             && Gone(s'.chain, s'.clock, s'.released[j], latest)
    {
      var j :| 0 <= j < i && s.released[j].address == a && Gone(s.chain, s.clock, s.released[j], latest);
      assert s'.released[j] == s.released[j];
    }
  }

  lemma {:induction false} WithoutMembers(tables: seq<Table>, closed: seq<Address>)
    ensures forall t :: t in Without(tables, closed) <==> t in tables && t.address !in closed
  {
    if tables != [] {
      WithoutMembers(tables[1..], closed);
      assert tables == [tables[0]] + tables[1..];
    }
  }

  lemma SameAddressSameTable(s: State, i: nat, j: nat)
    requires C.AddressesUnique(s) && i < |s.released| && j < |s.released|
    requires s.released[i].address == s.released[j].address
    ensures i == j
  {
    var all := C.Addresses(s.released);
    C.BagMember(s.released, i);
    assert all[i] == all[j] && all[i] in C.Bag(s.active) + C.Bag(s.released);
    if i < j { TwiceInBag(all, i, j); }
    if j < i { TwiceInBag(all, j, i); }
  }

  /** Addresses are unique, so a table named by a closed address is the one that was closed. */
  lemma StillGone(s: State, states: seq<State>, labels: seq<Label>, closed: seq<Address>, latest: nat)
    requires IsRun(states, labels) && KeptForCollector(s, states[|states| - 1])
    requires SeenGone(s, |s.released|, closed, latest)
    ensures var s' := states[|states| - 1];
            && (forall t :: t in s'.released && t.address in closed ==> Gone(s'.chain, s'.clock, t, latest))
            && (forall a :: a in closed ==> a in s'.chain && s'.chain[a].status == Closed)
  {
    var s' := states[|states| - 1];
    Runs.EveryState(states, labels, |states| - 1);
    forall t | t in s'.released && t.address in closed ensures Gone(s'.chain, s'.clock, t, latest) {
      var j :| 0 <= j < |s.released| && s.released[j].address == t.address
               && Gone(s.chain, s.clock, s.released[j], latest);
      var i :| 0 <= i < |s'.released| && s'.released[i] == t;
      assert s'.released[j] == s.released[j];
      SameAddressSameTable(s', i, j);
    }
  }

  lemma NotCooledDown(t: Table, latest: nat)
    requires !t.Deactivated?
    ensures !CooledDown(t, latest)
  {
  }

  lemma SeenCooledDown(s: State, closed: seq<Address>, latest: nat)
    requires SeenGone(s, |s.released|, closed, latest)
    ensures forall a :: a in closed ==>
              exists j :: 0 <= j < |s.released| && s.released[j].address == a && CooledDown(s.released[j], latest)
  {
    forall a | a in closed
      ensures exists j :: 0 <= j < |s.released| && s.released[j].address == a && CooledDown(s.released[j], latest)
    {
      var j :| 0 <= j < |s.released| && s.released[j].address == a && Gone(s.chain, s.clock, s.released[j], latest);
    }
  }
}
