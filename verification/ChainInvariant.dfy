/** What the manager believes about a table stays true on chain, and only retired tables are
    ever deactivated or closed, through lost outcomes, late landings and stale reads. */
module ChainInvariant {
  import opened Options
  import opened LookupTables
  import opened TableProtocol

  // ----- the invariant

  function Addresses(tables: seq<Table>): seq<Address> {
    seq(|tables|, i requires 0 <= i < |tables| => tables[i].address)
  }

  function Bag(tables: seq<Table>): multiset<Address> {
    multiset(Addresses(tables))
  }

  predicate Tracked(tables: seq<Table>, a: Address) {
    a in Bag(tables)
  }

  predicate NoRepeats(b: multiset<Address>) {
    forall a :: a in b ==> b[a] == 1
  }

  /** The local keys are on chain. */
  predicate Backed(s: State, t: Table) {
    && t.address in s.chain
    && (t.Active? ==> t.counts.Keys <= Elements(s.chain[t.address].keys))
  }

  predicate ActiveOk(s: State, t: Table) {
    t.Active? && Backed(s, t) && s.chain[t.address].status == Live
  }

  predicate ReleasedOk(s: State, t: Table) {
    && Backed(s, t)
    && (t.Active? ==> !HasReservations(t))
    && (t.Deactivated? ==> s.chain[t.address].status != Live)
  }

  predicate Pending(s: State, a: Address) {
    s.writer.Some? && s.writer.value.stage.CreateSent? && s.writer.value.stage.address == a
  }

  /** Nothing that is in use or about to be can be meant by `a`. */
  predicate Retired(s: State, a: Address) {
    !Tracked(s.active, a) && !Pending(s, a)
  }

  /** What is known of a transaction once it was sent, and once it landed. */
  predicate TxOk(s: State, x: TxId)
    requires x < |s.sent|
  {
    && Created(s.sent, s.sent[x].address)
    && (s.sent[x].DeactivateTx? || s.sent[x].CloseTx? ==> Retired(s, s.sent[x].address))
    && (x in s.landed ==>
          && s.sent[x].address in s.chain
          && match s.sent[x]
             case CreateTx(a, keys) => Elements(keys) <= Elements(s.chain[a].keys)
             case ExtendTx(a, keys) => Elements(keys) <= Elements(s.chain[a].keys)
             case DeactivateTx(a) => s.chain[a].status != Live
             case CloseTx(a) => s.chain[a].status == Closed)
  }

  /** Only `x` creates `a`, and the chain takes it when it gets there. */
  predicate CreateOnItsWay(s: State, x: TxId, a: Address, batch: seq<Pubkey>) {
    && (forall y :: 0 <= y < |s.sent| && s.sent[y].CreateTx? && s.sent[y].address == a ==> y == x)
    && (x in s.flight ==> a !in s.chain && |batch| <= LOOKUP_TABLE_MAX_ADDRESSES)
    && (x in s.flight || x in s.landed)
  }

  predicate StageOk(s: State) {
    s.writer.Some? ==>
      match s.writer.value.stage
      case Deciding => true
      case ExtendFailed => s.active != []
      case Reconciled => s.active != []
      case ExtendSent(x, batch) =>
        s.active != [] && x < |s.sent| && s.sent[x] == ExtendTx(LastTable(s).address, batch)
      case CreateSent(x, a, batch) =>
        && x < |s.sent| && s.sent[x] == CreateTx(a, batch)
        && !Tracked(s.active, a) && !Tracked(s.released, a)
        && (a in s.chain ==> s.chain[a].status == Live)
        && CreateOnItsWay(s, x, a, batch)
  }

  predicate AccountOk(s: State, a: Address)
    requires a in s.chain
  {
    Created(s.sent, a) && |s.chain[a].keys| <= LOOKUP_TABLE_MAX_ADDRESSES
  }

  predicate AddressesUnique(s: State) {
    NoRepeats(Bag(s.active) + Bag(s.released))
  }

  ghost predicate Inv(s: State) {
    && (forall t :: t in s.active ==> ActiveOk(s, t))
    && (forall t :: t in s.released ==> ReleasedOk(s, t))
    && (forall a :: a in s.chain ==> AccountOk(s, a))
    && (forall x: TxId :: x < |s.sent| ==> TxOk(s, x))
    && (forall x :: x in s.flight || x in s.landed ==> x < |s.sent|)
    && AddressesUnique(s)
    && StageOk(s)
  }

  // ----- addresses

  lemma BagConcat(a: seq<Table>, b: seq<Table>)
    ensures Bag(a + b) == Bag(a) + Bag(b)
  {
    assert Addresses(a + b) == Addresses(a) + Addresses(b);
  }

  lemma BagMember(a: seq<Table>, i: nat)
    requires i < |a|
    ensures Tracked(a, a[i].address)
  {
    assert Addresses(a)[i] == a[i].address;
  }

  lemma BagWitness(a: seq<Table>, x: Address) returns (i: nat)
    requires Tracked(a, x)
    ensures i < |a| && a[i].address == x
  {
    i :| 0 <= i < |Addresses(a)| && Addresses(a)[i] == x;
  }

  lemma NoRepeatsSub(a: multiset<Address>, b: multiset<Address>)
    requires a <= b && NoRepeats(b)
    ensures NoRepeats(a)
  {
    forall x | x in a ensures a[x] == 1 {
      assert a[x] <= b[x] && x in b;
    }
  }

  lemma {:induction false} PartitionAddresses(a: seq<Table>)
    ensures Bag(WithReservations(a)) + Bag(WithoutReservations(a)) == Bag(a)
  {
    if a != [] {
      PartitionAddresses(a[1..]);
      assert a == [a[0]] + a[1..];
      BagConcat([a[0]], a[1..]);
      BagConcat([a[0]], WithReservations(a[1..]));
      BagConcat([a[0]], WithoutReservations(a[1..]));
      assert [] + WithReservations(a[1..]) == WithReservations(a[1..]);
      assert [] + WithoutReservations(a[1..]) == WithoutReservations(a[1..]);
      hide Bag;
    }
  }

  /** A table in the released list is none of the active ones. */
  lemma ReleasedNotActive(s: State, i: nat)
    requires AddressesUnique(s) && i < |s.released|
    ensures !Tracked(s.active, s.released[i].address)
    ensures Tracked(s.released, s.released[i].address)
  {
    var a := s.released[i].address;
    BagMember(s.released, i);
    assert a in Bag(s.active) + Bag(s.released);
    assert (Bag(s.active) + Bag(s.released))[a] == Bag(s.active)[a] + Bag(s.released)[a];
  }

  // ----- what other steps may change without harm

  /** Nobody writes, or whoever does waits for no transaction. */
  predicate BetweenTransactions(s: State) {
    s.writer.Some? ==>
      var stage := s.writer.value.stage;
      stage.Deciding? || ((stage.ExtendFailed? || stage.Reconciled?) && s.active != [])
  }

  /** The chain, the history of transactions and every table's identity stay as they are. */
  lemma LocalStepKeeps(s: State, s': State)
    requires Inv(s)
    requires s'.chain == s.chain && s'.sent == s.sent && s'.flight == s.flight && s'.landed == s.landed
    requires Addresses(s'.active) == Addresses(s.active) && s'.released == s.released
    requires forall t :: t in s'.active ==> ActiveOk(s, t)
    requires s'.writer == s.writer || BetweenTransactions(s')
    ensures Inv(s')
  {
    forall x: TxId | x < |s'.sent| ensures TxOk(s', x) { assert TxOk(s, x); }
    forall a | a in s'.chain ensures AccountOk(s', a) { assert AccountOk(s, a); }
    forall t | t in s'.active ensures ActiveOk(s', t) { assert ActiveOk(s, t); }
    forall t | t in s'.released ensures ReleasedOk(s', t) { assert ReleasedOk(s, t); }
    if s'.active != [] {
      assert Addresses(s'.active)[|s'.active| - 1] == LastTable(s').address;
      assert |Addresses(s.active)| == |s.active|;
      assert Addresses(s.active)[|s.active| - 1] == LastTable(s).address;
    }
  }

  lemma CountsOnly(s: State, s': State, p: nat, t: Table)
    requires Inv(s) && p < |s.active|
    requires s'.active == s.active[p := t]
    requires t.Active? && t.address == s.active[p].address && t.address in s.chain
    requires t.counts.Keys <= Elements(s.chain[t.address].keys)
    ensures Addresses(s'.active) == Addresses(s.active)
    ensures forall t :: t in s'.active ==> ActiveOk(s, t)
  {
    assert ActiveOk(s, s.active[p]);
  }

  lemma ReserveHitKeeps(s: State, t: TaskId, s': State)
    requires Inv(s) && ReserveHit(s, t, s')
    ensures Inv(s')
  {
    var p := s.scans[t].pos;
    assert ActiveOk(s, s.active[p]);
    CountsOnly(s, s', p, s'.active[p]);
    LocalStepKeeps(s, s');
  }

  lemma ReleaseHitKeeps(s: State, t: TaskId, s': State)
    requires Inv(s) && ReleaseHit(s, t, s')
    ensures Inv(s')
  {
    var p := s.scans[t].pos;
    assert ActiveOk(s, s.active[p]);
    CountsOnly(s, s', p, s'.active[p]);
    LocalStepKeeps(s, s');
  }

  /** A confirmed extend landed, so the new keys are on chain. */
  lemma ExtendOkKeeps(s: State, t: TaskId, s': State)
    requires Inv(s) && ExtendOk(s, t, s')
    ensures Inv(s')
  {
    var n := |s.active| - 1;
    assert ActiveOk(s, s.active[n]) && TxOk(s, s.writer.value.stage.tx);
    CountsOnly(s, s', n, s'.active[n]);
    LocalStepKeeps(s, s');
  }

  /** An answer of the chain, however old, lists keys that are still there. */
  lemma ReconcileKeeps(s: State, t: TaskId, seen: seq<Pubkey>, s': State)
    requires Inv(s) && Reconcile(s, t, seen, s')
    ensures Inv(s')
  {
    var n := |s.active| - 1;
    assert ActiveOk(s, s.active[n]);
    assert Elements(seen) <= Elements(s.chain[s.active[n].address].keys);
    CountsOnly(s, s', n, s'.active[n]);
    LocalStepKeeps(s, s');
  }

  lemma GiveUpExtendKeeps(s: State, t: TaskId, nonExtendable: bool, s': State)
    requires Inv(s) && GiveUpExtend(s, t, nonExtendable, s')
    ensures Inv(s')
  {
    var n := |s.active| - 1;
    assert ActiveOk(s, s.active[n]);
    CountsOnly(s, s', n, s'.active[n]);
    LocalStepKeeps(s, s');
  }

  // ----- sending

  lemma CreatedOnward(sent: seq<Tx>, sent': seq<Tx>, a: Address)
    requires sent <= sent' && Created(sent, a)
    ensures Created(sent', a)
  {
    var x :| 0 <= x < |sent| && sent[x].CreateTx? && sent[x].address == a;
    assert sent'[x] == sent[x];
  }

  lemma SentKeeps(s: State, tx: Tx, s': State)
    requires Inv(s)
    requires s'.chain == s.chain && s'.sent == s.sent + [tx] && s'.flight == s.flight + {|s.sent|}
    requires s'.landed == s.landed
    requires s'.active == s.active && s'.released == s.released
    requires Created(s.sent, tx.address) && !tx.CreateTx?
    requires tx.DeactivateTx? || tx.CloseTx? ==> Retired(s, tx.address)
    requires s'.writer == s.writer || (s'.writer.Some? && s'.writer.value.stage.ExtendSent?)
    requires StageOk(s')
    ensures Inv(s')
  {
    forall x: TxId | x < |s'.sent| ensures TxOk(s', x) {
      if x < |s.sent| {
        assert TxOk(s, x) && s'.sent[x] == s.sent[x];
        CreatedOnward(s.sent, s'.sent, s.sent[x].address);
      } else {
        CreatedOnward(s.sent, s'.sent, tx.address);
        assert x == |s.sent| && x !in s.landed;
      }
    }
    forall a | a in s'.chain ensures AccountOk(s', a) {
      assert AccountOk(s, a);
      CreatedOnward(s.sent, s'.sent, a);
    }
    forall t | t in s'.active ensures ActiveOk(s', t) { assert ActiveOk(s, t); }
    forall t | t in s'.released ensures ReleasedOk(s', t) { assert ReleasedOk(s, t); }
  }

  lemma SendExtendKeeps(s: State, t: TaskId, batch: seq<Pubkey>, s': State)
    requires Inv(s) && SendExtend(s, t, batch, s')
    ensures Inv(s')
  {
    assert ActiveOk(s, LastTable(s)) && AccountOk(s, LastTable(s).address);
    SentKeeps(s, ExtendTx(LastTable(s).address, batch), s');
  }

  lemma RetiredTable(s: State, i: nat)
    requires Inv(s) && i < |s.released|
    ensures Retired(s, s.released[i].address) && Created(s.sent, s.released[i].address)
  {
    ReleasedNotActive(s, i);
    assert ReleasedOk(s, s.released[i]) && AccountOk(s, s.released[i].address);
  }

  lemma SendRetiringKeeps(s: State, i: nat, tx: Tx, s': State)
    requires Inv(s) && i < |s.released| && s' == Sent(s, tx)
    requires tx == DeactivateTx(s.released[i].address) || tx == CloseTx(s.released[i].address)
    ensures Inv(s')
  {
    RetiredTable(s, i);
    SentKeeps(s, tx, s');
  }

  lemma TrackedCreated(s: State, a: Address)
    requires Inv(s) && (Tracked(s.active, a) || Tracked(s.released, a))
    ensures Created(s.sent, a)
  {
    if Tracked(s.active, a) {
      var i := BagWitness(s.active, a);
      assert ActiveOk(s, s.active[i]) && AccountOk(s, a);
    } else {
      var i := BagWitness(s.released, a);
      assert ReleasedOk(s, s.released[i]) && AccountOk(s, a);
    }
  }

  /** The next address is not one of those used before. */
  lemma SendCreateKeeps(s: State, t: TaskId, slot: nat, batch: seq<Pubkey>, s': State)
    requires Inv(s) && SendCreate(s, t, slot, batch, s')
    ensures Inv(s')
  {
    var next := DerivedAddress(s.lastSlot, s.subSlot, slot);
    if Tracked(s.active, next) || Tracked(s.released, next) {
      TrackedCreated(s, next);
    }
    assert next in s.chain ==> AccountOk(s, next);
    forall x: TxId | x < |s'.sent| ensures TxOk(s', x) {
      if x < |s.sent| {
        assert TxOk(s, x) && s'.sent[x] == s.sent[x];
        CreatedOnward(s.sent, s'.sent, s.sent[x].address);
      } else {
        assert x == |s.sent| && x !in s.landed;
      }
    }
    forall a | a in s'.chain ensures AccountOk(s', a) {
      assert AccountOk(s, a);
      CreatedOnward(s.sent, s'.sent, a);
    }
    forall t | t in s'.active ensures ActiveOk(s', t) { assert ActiveOk(s, t); }
    forall t | t in s'.released ensures ReleasedOk(s', t) { assert ReleasedOk(s, t); }
  }

  // ----- tables come and go

  lemma CreateOkKeeps(s: State, t: TaskId, s': State)
    requires Inv(s) && CreateOk(s, t, s')
    ensures Inv(s')
  {
    var CreateSent(x0, a, batch) := s.writer.value.stage;
    var table := Active(a, Inserted(map[], batch), true);
    assert TxOk(s, x0);
    BagConcat(s.active, [table]);
    assert Addresses([table]) == [a];
    assert Bag(s'.active) == Bag(s.active) + multiset{a};
    forall x: TxId | x < |s'.sent| ensures TxOk(s', x) {
      assert TxOk(s, x);
      assert Tracked(s'.active, s.sent[x].address) ==> Tracked(s.active, s.sent[x].address) || s.sent[x].address == a;
    }
    forall b | b in s'.chain ensures AccountOk(s', b) { assert AccountOk(s, b); }
    forall t | t in s'.active ensures ActiveOk(s', t) {
      if t in s.active { assert ActiveOk(s, t); } else { assert t == table; }
    }
    forall t | t in s'.released ensures ReleasedOk(s', t) { assert ReleasedOk(s, t); }
    forall b | b in Bag(s'.active) + Bag(s'.released) ensures (Bag(s'.active) + Bag(s'.released))[b] == 1 {
      assert b != a ==> b in Bag(s.active) + Bag(s.released);
      assert b != a ==> (Bag(s.active) + Bag(s.released))[b] == 1;
    }
  }

  lemma DrainKeeps(s: State, t: TaskId, s': State)
    requires Inv(s) && Drain(s, t, s')
    ensures Inv(s')
  {
    PartitionMembers(s.active);
    PartitionAddresses(s.active);
    BagConcat(s.released, WithoutReservations(s.active));
    assert Bag(s'.active) + Bag(s'.released) == Bag(s.active) + Bag(s.released);
    forall x: TxId | x < |s'.sent| ensures TxOk(s', x) {
      assert TxOk(s, x);
      var a := s.sent[x].address;
      assert Tracked(s'.active, a) ==> a in Bag(s.active);
    }
    forall a | a in s'.chain ensures AccountOk(s', a) { assert AccountOk(s, a); }
    forall t | t in s'.active ensures ActiveOk(s', t) { assert ActiveOk(s, t); }
    forall t | t in s'.released ensures ReleasedOk(s', t) {
      assert t in s.released ==> ReleasedOk(s, t);
      assert t in s.active ==> ActiveOk(s, t);
    }
  }

  lemma DeactivateKeeps(s: State, i: nat, x0: TxId, slot: nat, s': State)
    requires Inv(s) && Deactivate(s, i, x0, slot, s')
    ensures Inv(s')
  {
    assert TxOk(s, x0) && ReleasedOk(s, s.released[i]);
    assert Addresses(s'.released) == Addresses(s.released);
    forall x: TxId | x < |s'.sent| ensures TxOk(s', x) { assert TxOk(s, x); }
    forall a | a in s'.chain ensures AccountOk(s', a) { assert AccountOk(s, a); }
    forall t | t in s'.active ensures ActiveOk(s', t) { assert ActiveOk(s, t); }
    forall t | t in s'.released ensures ReleasedOk(s', t) {
      if t in s.released { assert ReleasedOk(s, t); } else { assert t == s'.released[i]; }
    }
  }

  lemma BagWithout(a: seq<Table>, i: nat)
    requires i < |a|
    ensures Bag(a[..i] + a[i + 1..]) <= Bag(a)
  {
    assert a == a[..i] + ([a[i]] + a[i + 1..]);
    BagConcat(a[..i], [a[i]] + a[i + 1..]);
    BagConcat([a[i]], a[i + 1..]);
    BagConcat(a[..i], a[i + 1..]);
  }

  lemma ForgetClosedKeeps(s: State, i: nat, slot: nat, s': State)
    requires Inv(s) && ForgetClosed(s, i, slot, s')
    ensures Inv(s')
  {
    BagWithout(s.released, i);
    NoRepeatsSub(Bag(s'.active) + Bag(s'.released), Bag(s.active) + Bag(s.released));
    forall x: TxId | x < |s'.sent| ensures TxOk(s', x) { assert TxOk(s, x); }
    forall a | a in s'.chain ensures AccountOk(s', a) { assert AccountOk(s, a); }
    forall t | t in s'.active ensures ActiveOk(s', t) { assert ActiveOk(s, t); }
    forall t | t in s'.released ensures ReleasedOk(s', t) { assert t in s.released && ReleasedOk(s, t); }
  }

  // ----- the chain executes a transaction

  lemma ExecutedGrows(chain: Chain, tx: Tx, a: Address)
    requires Accepted(chain, tx) && a in chain
    ensures a in Executed(chain, tx)
    ensures Elements(chain[a].keys) <= Elements(Executed(chain, tx)[a].keys)
    ensures Executed(chain, tx)[a].status == chain[a].status ||
            (tx == DeactivateTx(a) && chain[a].status == Live && Executed(chain, tx)[a].status == Deactivating) ||
            (tx == CloseTx(a) && chain[a].status == Deactivating && Executed(chain, tx)[a].status == Closed)
  {
  }

  lemma LandTxs(s: State, x0: TxId, s': State, x: TxId)
    requires Inv(s) && Land(s, x0, s') && Accepted(s.chain, s.sent[x0]) && x < |s.sent|
    ensures TxOk(s', x)
  {
    assert TxOk(s, x) && TxOk(s, x0);
    if x in s.landed { ExecutedGrows(s.chain, s.sent[x0], s.sent[x].address); }
  }

  /** Only the transactions that retire a table touch its status, and none of those names an active one. */
  lemma LandActive(s: State, x0: TxId, s': State, i: nat)
    requires Inv(s) && Land(s, x0, s') && Accepted(s.chain, s.sent[x0]) && i < |s.active|
    ensures ActiveOk(s', s.active[i])
  {
    assert TxOk(s, x0) && ActiveOk(s, s.active[i]);
    BagMember(s.active, i);
    ExecutedGrows(s.chain, s.sent[x0], s.active[i].address);
  }

  lemma LandStage(s: State, x0: TxId, s': State)
    requires Inv(s) && Land(s, x0, s') && Accepted(s.chain, s.sent[x0])
    ensures StageOk(s')
  {
    assert TxOk(s, x0);
  }

  /** The creation that somebody waits for is never refused. */
  lemma RejectKeeps(s: State, x0: TxId, s': State)
    requires Inv(s) && x0 < |s.sent| && x0 in s.flight && !Accepted(s.chain, s.sent[x0])
    requires s' == s.(flight := s.flight - {x0})
    ensures Inv(s')
  {
    forall x: TxId | x < |s'.sent| ensures TxOk(s', x) { assert TxOk(s, x); }
    forall a | a in s'.chain ensures AccountOk(s', a) { assert AccountOk(s, a); }
    forall t | t in s'.active ensures ActiveOk(s', t) { assert ActiveOk(s, t); }
    forall t | t in s'.released ensures ReleasedOk(s', t) { assert ReleasedOk(s, t); }
  }

  lemma LandKeeps(s: State, x0: TxId, s': State)
    requires Inv(s) && Land(s, x0, s')
    ensures Inv(s')
  {
    var tx := s.sent[x0];
    if Accepted(s.chain, tx) {
      forall x: TxId | x < |s'.sent| ensures TxOk(s', x) { LandTxs(s, x0, s', x); }
      forall a | a in s'.chain ensures AccountOk(s', a) {
        assert TxOk(s, x0);
        assert a in s.chain ==> AccountOk(s, a);
      }
      forall t | t in s'.active ensures ActiveOk(s', t) {
        var i :| 0 <= i < |s.active| && s.active[i] == t;
        LandActive(s, x0, s', i);
      }
      forall t | t in s'.released ensures ReleasedOk(s', t) {
        assert ReleasedOk(s, t);
        ExecutedGrows(s.chain, tx, t.address);
      }
      LandStage(s, x0, s');
    } else {
      RejectKeeps(s, x0, s');
    }
  }

  lemma InitHolds(s: State)
    requires Init(s)
    ensures Inv(s)
  {
  }

  /** Steps on tasks, scans and locks alone. */
  lemma TaskStepKeeps(s: State, s': State)
    requires Inv(s)
    requires s'.active == s.active && s'.released == s.released
    requires s'.chain == s.chain && s'.sent == s.sent && s'.flight == s.flight && s'.landed == s.landed
    requires s'.writer == s.writer || BetweenTransactions(s')
    ensures Inv(s')
  {
    LocalStepKeeps(s, s');
  }

  lemma ReserveNextKeeps(s: State, t: TaskId, act: ReserveAct, s': State)
    requires Inv(s) && ReserveNext(s, t, act, s')
    ensures Inv(s')
  {
    if act.LReserveHit? {
      ReserveHitKeeps(s, t, s');
    } else {
      TaskStepKeeps(s, s');
    }
  }

  lemma WriteNextKeeps(s: State, t: TaskId, act: WriteAct, s': State)
    requires Inv(s) && WriteNext(s, t, act, s')
    ensures Inv(s')
  {
    match act
    case LTakeWriteLock => TaskStepKeeps(s, s');
    case LDropWriteLock => TaskStepKeeps(s, s');
    case LSendExtend(batch) => SendExtendKeeps(s, t, batch, s');
    case LExtendOk => ExtendOkKeeps(s, t, s');
    case LExtendError => TaskStepKeeps(s, s');
    case LReconcile(seen) => ReconcileKeeps(s, t, seen, s');
    case LSkipReconcile => TaskStepKeeps(s, s');
    case LGiveUpExtend(nonExtendable) => GiveUpExtendKeeps(s, t, nonExtendable, s');
    case LSendCreate(slot, batch) => SendCreateKeeps(s, t, slot, batch, s');
    case LCreateOk => CreateOkKeeps(s, t, s');
  }

  lemma ReleaseNextKeeps(s: State, t: TaskId, act: ReleaseAct, s': State)
    requires Inv(s) && ReleaseNext(s, t, act, s')
    ensures Inv(s')
  {
    match act
    case LReleaseHit => ReleaseHitKeeps(s, t, s');
    case LDrain => DrainKeeps(s, t, s');
    case _ => TaskStepKeeps(s, s');
  }

  lemma CollectNextKeeps(s: State, act: CollectAct, s': State)
    requires Inv(s) && CollectNext(s, act, s')
    ensures Inv(s')
  {
    match act
    case LSendDeactivate(i) => SendRetiringKeeps(s, i, DeactivateTx(s.released[i].address), s');
    case LDeactivate(i, x, slot) => DeactivateKeeps(s, i, x, slot, s');
    case LSendClose(i, _) => SendRetiringKeeps(s, i, CloseTx(s.released[i].address), s');
    case LForgetClosed(i, slot) => ForgetClosedKeeps(s, i, slot, s');
  }

  lemma NextKeeps(s: State, l: Label, s': State)
    requires Inv(s) && Next(s, l, s')
    ensures Inv(s')
  {
    match l
    case Reserving(t, act) => ReserveNextKeeps(s, t, act, s');
    case Writing(t, act) => WriteNextKeeps(s, t, act, s');
    case Freeing(t, act) => ReleaseNextKeeps(s, t, act, s');
    case Collecting(act) => CollectNextKeeps(s, act, s');
    case Landing(x) => LandKeeps(s, x, s');
    case Ticking => TaskStepKeeps(s, s');
  }
}
