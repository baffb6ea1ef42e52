/** The reservation manager with the control flow of its calls: loops, locks and awaits.

    At every await any other task, the collector and the chain may take any number of steps
    of the protocol, and the call itself may be dropped for good. Each stretch between two
    awaits is one step of the protocol, so every call, however it ends, extends a run. */
module TableManiaModule {
  import opened Options
  import opened LookupTables
  import opened TableProtocol
  import opened RefcountedPubkeysModule
  import opened TableRely
  import opened LookupAnswers
  import opened TableValues
  import opened TableSteps
  import opened CollectorRecords
  import R = ReservationInvariant
  import Runs = TableRuns

  /** `SendFailed` and `InvalidInstructionData` come from outside, the others from the manager. */
  datatype Error =
    | SendFailed(failure: Failure)
    | InvalidAuthority
    | MaxExtendPubkeysExceeded

  datatype Failure = RpcFailed | InvalidInstructionData(instruction: nat)

  /** How a call ended: with a result, with an error, or dropped by its caller while waiting. */
  datatype Outcome = Ok | Err(error: Error) | Dropped

  /** What the outside world answers to the n-th request. */
  datatype Reply = Reply(lands: bool, failure: Option<Failure>, keys: Option<nat>, slot: Option<nat>)

  /** The request fails: with an error, with its transaction lost, or without a slot. */
  predicate Fails(r: Reply) {
    r.failure.Some? || !r.lands || r.slot == None
  }

  /** How one attempt to place the remaining keys went. */
  datatype Attempt =
    | Stored
    | NoRoom
    | Retried
    | Rejected(table: Address)
    | Occupied
    | Failed(error: Error)
    | Vanished

  datatype ExtendTableErrorAction = CreateNewTable | Retry | ReturnError

  const MAX_ALLOWED_EXTEND_ERRORS: nat := 5
  const FALLBACK_NEW_TABLE_INIT_PUBKEYS: nat := 1
  const EXTEND_LOOKUP_TABLE_INSTRUCTION_INDEX: nat := 2

  /** What the chain says to an extend that its table has no room for. */
  const EXTEND_REJECTED: Error := SendFailed(InvalidInstructionData(EXTEND_LOOKUP_TABLE_INSTRUCTION_INDEX))

  /** Awaits of one attempt to place keys: for the lock, and for two answers. */
  const ATTEMPT_AWAITS: nat := 3

  /** Awaits that placing `n` keys takes at most, two attempts a round. */
  function MaxAwaits(n: nat): nat {
    2 * ATTEMPT_AWAITS * (n + MAX_ALLOWED_EXTEND_ERRORS)
  }

  /** An instruction the table rejects asks for a new table; other errors use up retries. */
  method HandleExtendTableError(err: Error, extendErrors: nat) returns (action: ExtendTableErrorAction, errors: nat)
    requires extendErrors <= MAX_ALLOWED_EXTEND_ERRORS
    ensures action.CreateNewTable? <==> err == EXTEND_REJECTED
    ensures action.Retry? ==> errors == extendErrors + 1 <= MAX_ALLOWED_EXTEND_ERRORS
    ensures !action.Retry? ==> errors == extendErrors
    ensures action.ReturnError? ==> extendErrors == MAX_ALLOWED_EXTEND_ERRORS
  {
    errors := extendErrors;
    if err == EXTEND_REJECTED {
      return CreateNewTable, errors;
    }
    if extendErrors < MAX_ALLOWED_EXTEND_ERRORS {
      return Retry, extendErrors + 1;
    }
    action := ReturnError;
  }

  method CheckMaxPubkeys(pubkeys: seq<Pubkey>) returns (error: Option<Error>)
    ensures error == if ExceedsMax(pubkeys) then Some(MaxExtendPubkeysExceeded) else None
  {
    if |pubkeys| > MAX_ENTRIES_AS_PART_OF_EXTEND {
      return Some(MaxExtendPubkeysExceeded);
    }
    return None;
  }

  class TableMania {
    var active: seq<Table>
    var released: seq<Table>
    var tasks: map<TaskId, Task>
    var scans: map<TaskId, Scan>
    var writer: Option<Writer>
    var pins: multiset<Pubkey>
    var chain: Chain
    var sent: seq<Tx>
    var flight: set<TxId>
    var landed: set<TxId>
    var clock: nat
    var lastSlot: nat
    var subSlot: nat

    // The world: its answers, and how many more awaits the caller sits through.
    const script: nat -> Reply
    var requests: nat
    var patience: nat

    // Every step taken so far, by anyone.
    ghost var states: seq<State>
    ghost var labels: seq<Label>

    ghost function Now(): State
      reads this
    {
      State(active, released, tasks, scans, writer, pins, chain, sent, flight, landed, clock, lastSlot, subSlot)
    }

    ghost predicate Valid()
      reads this
    {
      IsRun(states, labels) && states[|states| - 1] == Now()
    }

    constructor (script: nat -> Reply, patience: nat)
      ensures Valid() && Init(Now())
    {
      active, released, tasks, scans, writer, pins := [], [], map[], map[], None, multiset{};
      chain, sent, flight, landed, clock, lastSlot, subSlot := map[], [], {}, {}, 0, 0, 0;
      this.script, this.patience, requests := script, patience, 0;
      new;
      states, labels := [Now()], [];
    }

    /** Records a step that the fields have just taken. */
    ghost method Did(l: Label)
      requires IsRun(states, labels) && Next(states[|states| - 1], l, Now())
      modifies this`states, this`labels
      ensures Valid()
      ensures states == old(states) + [Now()] && labels == old(labels) + [l]
    {
      states, labels := states + [Now()], labels + [l];
    }

    lemma LastState()
      requires Valid()
      ensures |states| == |labels| + 1 && states[|labels|] == Now()
    {
    }

    /** Some request from the `from`-th on brought no accounts. */
    ghost predicate SomeFetchFailed(from: nat, upto: nat) {
      exists n :: from <= n < upto && script(n).keys == None
    }

    /** Some request from the `from`-th on failed. */
    ghost predicate SomeFailed(from: nat, upto: nat) {
      exists n :: from <= n < upto && Fails(script(n))
    }

    /** A call ends without a result only if it may not be made, if a request since the `from`-th
        failed, or if its caller went away. */
    ghost predicate Ends(r: Outcome, authorized: bool, from: nat)
      reads this
    {
      match r
      case Ok => true
      case Err(error) => if authorized then SomeFailed(from, requests) else error == InvalidAuthority
      case Dropped => patience == 0
    }

    ghost predicate Grew(st: seq<State>, lb: seq<Label>)
      reads this
    {
      st <= states && lb <= labels
    }

    // ----- waiting

    /** Everyone else gets to move; nothing else is promised. */
    method Interfere(me: TaskId)
      requires Valid()
      modifies this
      ensures Valid() && patience == old(patience) && requests == old(requests)
      ensures OthersMoved(old(states), old(labels), states, labels, me)
    {
    }

    /** The part of the world `me` relies on stays as it is meanwhile. */
    method Interleave(me: TaskId)
      requires Valid()
      modifies this
      ensures Valid() && patience == old(patience) && requests == old(requests)
      ensures OthersMoved(old(states), old(labels), states, labels, me)
      ensures Kept(old(Now()), Now(), me)
      ensures Alone(labels, |old(labels)|, me) ==> LocalSame(old(Now()), Now())
    {
      ghost var n := |states| - 1;
      Interfere(me);
      Rely(states, labels, n, me);
    }

    method Await(me: TaskId) returns (resumed: bool)
      requires Valid()
      modifies this
      ensures Valid() && OthersMoved(old(states), old(labels), states, labels, me)
      ensures Kept(old(Now()), Now(), me)
      ensures Alone(labels, |old(labels)|, me) ==> LocalSame(old(Now()), Now())
      ensures patience == (if resumed then old(patience) - 1 else 0) && requests == old(requests)
      ensures old(patience) <= patience + 1
    {
      Interleave(me);
      resumed := patience > 0;
      if resumed {
        patience := patience - 1;
      }
    }

    /** Nobody holds the lock of the active tables, for reading or for writing. */
    ghost predicate Free()
      reads this
    {
      writer == None && scans == map[]
    }

    /** Waits for the read lock; scans of other tasks may go on beside. */
    method ReadLock(me: TaskId) returns (resumed: bool)
      requires Valid()
      modifies this
      ensures Valid() && OthersMoved(old(states), old(labels), states, labels, me)
      ensures Kept(old(Now()), Now(), me)
      ensures resumed ==> writer == None
      ensures patience <= old(patience) && (!resumed ==> patience == 0) && requests == old(requests)
      ensures Alone(labels, |old(labels)|, me) ==> LocalSame(old(Now()), Now())
      ensures Alone(labels, |old(labels)|, me) && old(writer) == None ==> old(patience) <= patience + 1
    {
      hide Next;
      hide Kept;
      ghost var n := |labels|;
      LastState();
      resumed := Await(me);
      while resumed && writer != None
        invariant Valid() && OthersMoved(old(states), old(labels), states, labels, me)
        invariant patience <= old(patience) && (!resumed ==> patience == 0) && requests == old(requests)
        invariant Alone(labels, n, me) ==> LocalSame(old(Now()), Now())
        invariant Alone(labels, n, me) && old(writer) == None ==> old(patience) <= patience + 1
        decreases patience, resumed
      {
        ghost var sofar := labels;
        resumed := Await(me);
        AlonePrefix(sofar, labels, n, me);
        AloneSince(labels, n, |sofar|, me);
      }
      Rely(states, labels, n, me);
    }

    /** Waits until the lock can be had for writing. */
    method AwaitFree(me: TaskId) returns (resumed: bool)
      requires Valid()
      modifies this
      ensures Valid() && OthersMoved(old(states), old(labels), states, labels, me)
      ensures Kept(old(Now()), Now(), me)
      ensures resumed ==> Free()
      ensures patience <= old(patience) && (if resumed then patience < old(patience) else patience == 0)
      ensures requests == old(requests)
      ensures Alone(labels, |old(labels)|, me) ==> LocalSame(old(Now()), Now())
      ensures Alone(labels, |old(labels)|, me) && old(Free()) ==> old(patience) <= patience + 1
    {
      hide Next;
      hide Kept;
      ghost var n := |labels|;
      LastState();
      resumed := Await(me);
      while resumed && !(writer == None && scans == map[])
        invariant Valid() && OthersMoved(old(states), old(labels), states, labels, me)
        invariant patience <= old(patience) && (if resumed then patience < old(patience) else patience == 0)
        invariant requests == old(requests)
        invariant Alone(labels, n, me) ==> LocalSame(old(Now()), Now())
        invariant Alone(labels, n, me) && old(Free()) ==> old(patience) <= patience + 1
        decreases patience, resumed
      {
        ghost var sofar := labels;
        resumed := Await(me);
        AlonePrefix(sofar, labels, n, me);
        AloneSince(labels, n, |sofar|, me);
      }
      Rely(states, labels, n, me);
    }

    method WriteLock(me: TaskId) returns (resumed: bool)
      requires Valid() && me in tasks && tasks[me].Acquiring? && tasks[me].todo == {} && tasks[me].remaining != {}
      requires me !in scans && !Owns(Now(), me)
      modifies this
      ensures Valid() && old(states) <= states && old(labels) <= labels
      ensures R.SameTask(old(Now()), Now(), me) && me !in scans
      ensures resumed ==> writer == Some(Writer(me, Deciding))
      ensures !resumed ==> !Owns(Now(), me)
      ensures Alone(labels, |old(labels)|, me) ==> active == old(active)
      ensures patience <= old(patience) && (if resumed then patience < old(patience) else patience == 0)
      ensures requests == old(requests)
      ensures Alone(labels, |old(labels)|, me) && old(Free()) ==> old(patience) <= patience + 1
    {
      resumed := AwaitFree(me);
      if resumed {
        ghost var sofar := labels;
        writer := Some(Writer(me, Deciding));
        Did(Writing(me, LTakeWriteLock));
        AlonePrefix(sofar, labels, |old(labels)|, me);
      }
    }

    method LandTransaction(x: TxId)
      requires Valid() && x < |sent| && x in flight
      modifies this
      ensures Valid() && labels == old(labels) + [Landing(x)] && old(states) <= states
      ensures KeptForCollector(old(Now()), Now()) && released == old(released)
      ensures patience == old(patience) && requests == old(requests)
      ensures Accepted(old(chain), old(sent)[x]) ==> x in landed
    {
      if Accepted(chain, sent[x]) {
        chain, flight, landed := Executed(chain, sent[x]), flight - {x}, landed + {x};
      } else {
        flight := flight - {x};
      }
      Did(Landing(x));
    }

    /** The transaction reaches the chain, or is lost. */
    method Deliver(x: TxId, lands: bool)
      requires Valid() && x < |sent| && x in flight
      modifies this
      ensures Valid() && Grew(old(states), old(labels))
      ensures forall i :: |old(labels)| <= i < |labels| ==> Runs.Actor(labels[i]) == None
      ensures lands && Accepted(old(chain), old(sent)[x]) ==> x in landed
      ensures patience == old(patience) && requests == old(requests)
    {
      if lands {
        LandTransaction(x);
      }
    }

    /** Submits a transaction and waits for the verdict: a confirmation means that it landed, an
        error means nothing. An extend that the chain refuses is reported as such. */
    method SendTransaction(me: TaskId, x: TxId) returns (resumed: bool, error: Option<Error>)
      requires Valid() && x < |sent| && x in flight
      modifies this
      ensures Valid() && OthersMoved(old(states), old(labels), states, labels, me)
      ensures Kept(old(Now()), Now(), me)
      ensures error == None ==> x in landed
      ensures error.Some? ==> error.value.SendFailed?
      ensures error.Some? && !Fails(script(old(requests))) ==>
                !Accepted(old(chain), old(sent)[x]) && (old(sent)[x].ExtendTx? ==> error.value == EXTEND_REJECTED)
      ensures patience <= old(patience) <= patience + 1 && (!resumed ==> patience == 0)
      ensures requests == old(requests) + 1
    {
      hide Next;
      hide Kept;
      hide Accepted;
      ghost var n := |states| - 1;
      var reply := script(requests);
      var refused := if sent[x].ExtendTx? && reply.lands then EXTEND_REJECTED else SendFailed(RpcFailed);
      requests := requests + 1;
      Deliver(x, reply.lands);
      ghost var sofar := Now();
      resumed := Await(me);
      KeepsLanded(sofar, Now(), me);
      Rely(states, labels, n, me);
      error := if reply.failure.Some? then Some(SendFailed(reply.failure.value))
               else if x in landed then None else Some(refused);
    }

    /** What the chain lists for a table, possibly as of some time ago; nothing if it knows no
        such table. */
    method FetchChainKeys(me: TaskId, a: Address) returns (resumed: bool, seen: Option<seq<Pubkey>>)
      requires Valid()
      modifies this
      ensures Valid() && OthersMoved(old(states), old(labels), states, labels, me)
      ensures Kept(old(Now()), Now(), me)
      ensures seen.Some? ==> seen.value == [] || (a in chain && seen.value <= chain[a].keys)
      ensures patience <= old(patience) <= patience + 1 && (!resumed ==> patience == 0)
      ensures requests == old(requests) + 1
    {
      var reply := script(requests);
      requests := requests + 1;
      resumed := Await(me);
      if reply.keys.Some? {
        seen := Some(if a in chain then chain[a].keys[..Min(reply.keys.value, |chain[a].keys|)] else []);
      } else {
        seen := None;
      }
    }

    /** The slot that the chain reports. One that would give an address for the second time stands
        for a later one. */
    method GetSlot(me: TaskId) returns (resumed: bool, slot: Option<nat>)
      requires Valid() && Owns(Now(), me)
      modifies this
      ensures Valid() && OthersMoved(old(states), old(labels), states, labels, me)
      ensures Kept(old(Now()), Now(), me)
      ensures slot.Some? ==> !Created(sent, DerivedAddress(lastSlot, subSlot, slot.value))
      ensures slot == None ==> Fails(script(old(requests)))
      ensures patience <= old(patience) <= patience + 1 && (!resumed ==> patience == 0)
      ensures requests == old(requests) + 1
    {
      var reply := script(requests);
      requests := requests + 1;
      resumed := Await(me);
      slot := match reply.slot case None => None case Some(n) => Some(UsableSlot(sent, lastSlot, subSlot, n));
    }

    // ----- one key at a time

    /** Takes the read lock and starts to look for the key. */
    method BeginReserve(me: TaskId, k: Pubkey) returns (resumed: bool)
      requires Valid() && me in tasks && tasks[me].Acquiring? && k in tasks[me].todo
      requires me !in scans && !Owns(Now(), me)
      modifies this
      ensures Valid() && Grew(old(states), old(labels)) && !Owns(Now(), me)
      ensures me in tasks && tasks[me] == old(tasks[me])
      ensures if resumed then me in scans && scans[me] == ReserveScan(k, 0) else me !in scans
      ensures patience <= old(patience) && (!resumed ==> patience == 0) && requests == old(requests)
      ensures Alone(labels, |old(labels)|, me) && old(writer) == None ==>
                && writer == None && old(patience) <= patience + 1
                && scans == if resumed then old(scans)[me := ReserveScan(k, 0)] else old(scans)
    {
      resumed := ReadLock(me);
      if resumed {
        ghost var locked := labels;
        scans := scans[me := ReserveScan(k, 0)];
        Did(Reserving(me, LBeginReserveScan(k)));
        AloneSplit(locked, labels, |old(labels)|, me);
      }
    }

    method MissReserve(me: TaskId, k: Pubkey)
      requires Valid() && me in tasks && tasks[me].Acquiring? && me in scans && scans[me] == ReserveScan(k, |active|)
      modifies this
      ensures Valid() && Grew(old(states), old(labels)) && writer == old(writer)
      ensures me in tasks && scans == old(scans) - {me} && patience == old(patience) && requests == old(requests)
      ensures tasks[me] == old(tasks[me]).(todo := old(tasks[me].todo) - {k},
                                           remaining := old(tasks[me].remaining) + {k})
    {
      tasks := tasks[me := tasks[me].(todo := tasks[me].todo - {k}, remaining := tasks[me].remaining + {k})];
      scans := scans - {me};
      Did(Reserving(me, LReserveMiss));
    }

    /** One table of a reserve scan. */
    method ReserveAt(me: TaskId, k: Pubkey, p: nat) returns (hit: bool)
      requires Valid() && me in tasks && tasks[me].Acquiring? && me in scans && scans[me] == ReserveScan(k, p)
      requires p < |active| && !Owns(Now(), me)
      modifies this
      ensures Valid() && Grew(old(states), old(labels))
      ensures |active| == |old(active)| && writer == old(writer) && me in tasks
      ensures patience == old(patience) && requests == old(requests)
      ensures hit ==> scans == old(scans) - {me}
      ensures hit ==>
                tasks[me] == old(tasks[me]).(todo := old(tasks[me].todo) - {k},
                                             reserved := old(tasks[me].reserved) + {k})
      ensures !hit ==> tasks[me] == old(tasks[me]) && scans == old(scans)[me := ReserveScan(k, p + 1)]
    {
      hit := false;
      if active[p].Active? {
        var counts;
        hit, counts := TryReserve(active[p].counts, k);
        if hit {
          active := active[p := active[p].(counts := counts)];
          tasks := tasks[me := tasks[me].(todo := tasks[me].todo - {k}, reserved := tasks[me].reserved + {k})];
          scans := scans - {me};
          Did(Reserving(me, LReserveHit));
          return;
        }
      }
      scans := scans[me := ReserveScan(k, p + 1)];
      Did(Reserving(me, LReservePass));
    }

    /** The next table of a reserve scan; others may move before. */
    method ReserveNext(me: TaskId, k: Pubkey, p: nat) returns (hit: bool)
      requires Valid() && me in tasks && tasks[me].Acquiring? && me in scans && scans[me] == ReserveScan(k, p)
      requires p < |active| && !Owns(Now(), me)
      modifies this
      ensures Valid() && Grew(old(states), old(labels))
      ensures |active| == |old(active)| && !Owns(Now(), me) && me in tasks
      ensures patience == old(patience) && requests == old(requests)
      ensures hit ==> me !in scans
      ensures hit ==>
                tasks[me] == old(tasks[me]).(todo := old(tasks[me].todo) - {k},
                                             reserved := old(tasks[me].reserved) + {k})
      ensures !hit ==> tasks[me] == old(tasks[me]) && me in scans && scans[me] == ReserveScan(k, p + 1)
      ensures Alone(labels, |old(labels)|, me) ==>
                && writer == old(writer)
                && scans == if hit then old(scans) - {me} else old(scans)[me := ReserveScan(k, p + 1)]
    {
      Interleave(me);
      ghost var sofar := labels;
      hit := ReserveAt(me, k, p);
      AloneSplit(sofar, labels, |old(labels)|, me);
    }

    method ReservePubkey(me: TaskId, k: Pubkey) returns (resumed: bool, found: bool)
      requires Valid() && me in tasks && tasks[me].Acquiring? && k in tasks[me].todo
      requires me !in scans && !Owns(Now(), me)
      modifies this
      ensures Valid() && Grew(old(states), old(labels))
      ensures me in tasks && me !in scans && !Owns(Now(), me)
      ensures !resumed ==> tasks[me] == old(tasks[me])
      ensures resumed && found ==>
                tasks[me] == old(tasks[me]).(todo := old(tasks[me].todo) - {k},
                                             reserved := old(tasks[me].reserved) + {k})
      ensures resumed && !found ==>
                tasks[me] == old(tasks[me]).(todo := old(tasks[me].todo) - {k},
                                             remaining := old(tasks[me].remaining) + {k})
      ensures patience <= old(patience) && (!resumed ==> patience == 0) && requests == old(requests)
      ensures Alone(labels, |old(labels)|, me) && old(writer) == None ==>
                writer == None && scans == old(scans) && old(patience) <= patience + 1
    {
      hide Next;
      hide IsRun;
      hide Alone;
      found := false;
      ghost var mine, n := tasks[me], |labels|;
      resumed := BeginReserve(me, k);
      if !resumed {
        return;
      }
      ghost var left := patience;
      var p := 0;
      while p < |active|
        invariant Valid() && Grew(old(states), old(labels))
        invariant me in tasks && tasks[me] == mine && me in scans && scans[me] == ReserveScan(k, p)
        invariant p <= |active| && !Owns(Now(), me) && patience == left && requests == old(requests)
        invariant Alone(labels, n, me) && old(writer) == None ==>
                    writer == None && old(patience) <= left + 1 && scans == old(scans)[me := ReserveScan(k, p)]
        decreases |active| - p
      {
        ghost var sofar := labels;
        var hit := ReserveNext(me, k, p);
        AloneSplit(sofar, labels, n, me);
        if hit {
          found := true;
          return;
        }
        p := p + 1;
      }
      ghost var sofar := labels;
      MissReserve(me, k);
      AloneSplit(sofar, labels, n, me);
    }

    /** Takes the read lock and starts to look for the key. */
    method BeginRelease(me: TaskId, k: Pubkey) returns (resumed: bool)
      requires Valid() && me in tasks && tasks[me].Releasing? && k in tasks[me].left
      requires me !in scans && !Owns(Now(), me)
      modifies this
      ensures Valid() && Grew(old(states), old(labels)) && !Owns(Now(), me)
      ensures me in tasks && tasks[me] == old(tasks[me])
      ensures if resumed then me in scans && scans[me] == ReleaseScan(k, 0) else me !in scans
      ensures patience <= old(patience) && (!resumed ==> patience == 0) && requests == old(requests)
      ensures Alone(labels, |old(labels)|, me) && old(writer) == None ==>
                && writer == None && old(patience) <= patience + 1
                && scans == if resumed then old(scans)[me := ReleaseScan(k, 0)] else old(scans)
    {
      resumed := ReadLock(me);
      if resumed {
        ghost var locked := labels;
        scans := scans[me := ReleaseScan(k, 0)];
        Did(Freeing(me, LBeginReleaseScan(k)));
        AloneSplit(locked, labels, |old(labels)|, me);
      }
    }

    /** One table of a release scan. */
    method ReleaseAt(me: TaskId, k: Pubkey, p: nat) returns (hit: bool)
      requires Valid() && me in tasks && tasks[me].Releasing? && me in scans && scans[me] == ReleaseScan(k, p)
      requires p < |active| && !Owns(Now(), me)
      modifies this
      ensures Valid() && Grew(old(states), old(labels))
      ensures |active| == |old(active)| && writer == old(writer) && me in tasks
      ensures patience == old(patience) && requests == old(requests)
      ensures hit ==> scans == old(scans) - {me} && tasks[me] == Releasing(old(tasks[me].left) - {k})
      ensures !hit ==> tasks[me] == old(tasks[me]) && scans == old(scans)[me := ReleaseScan(k, p + 1)]
    {
      hit := false;
      if active[p].Active? {
        var counts;
        hit, counts := TryRelease(active[p].counts, k);
        if hit {
          active := active[p := active[p].(counts := counts)];
          tasks := tasks[me := Releasing(tasks[me].left - {k})];
          scans := scans - {me};
          Did(Freeing(me, LReleaseHit));
          return;
        }
      }
      scans := scans[me := ReleaseScan(k, p + 1)];
      Did(Freeing(me, LReleasePass));
    }

    /** The next table of a release scan; others may move before. */
    method ReleaseNext(me: TaskId, k: Pubkey, p: nat) returns (hit: bool)
      requires Valid() && me in tasks && tasks[me].Releasing? && me in scans && scans[me] == ReleaseScan(k, p)
      requires p < |active| && !Owns(Now(), me)
      modifies this
      ensures Valid() && Grew(old(states), old(labels))
      ensures |active| == |old(active)| && !Owns(Now(), me) && me in tasks
      ensures patience == old(patience) && requests == old(requests)
      ensures hit ==> me !in scans
      ensures hit ==> tasks[me] == Releasing(old(tasks[me].left) - {k})
      ensures !hit ==> tasks[me] == old(tasks[me]) && me in scans && scans[me] == ReleaseScan(k, p + 1)
      ensures Alone(labels, |old(labels)|, me) ==>
                && writer == old(writer)
                && scans == if hit then old(scans) - {me} else old(scans)[me := ReleaseScan(k, p + 1)]
    {
      Interleave(me);
      ghost var sofar := labels;
      hit := ReleaseAt(me, k, p);
      AloneSplit(sofar, labels, |old(labels)|, me);
    }

    /** A caller that holds a reservation always finds it: the scan never runs off the list. */
    method ReleasePubkey(me: TaskId, k: Pubkey) returns (resumed: bool, found: bool)
      requires Valid() && me in tasks && tasks[me].Releasing? && k in tasks[me].left
      requires me !in scans && !Owns(Now(), me)
      modifies this
      ensures Valid() && Grew(old(states), old(labels))
      ensures me in tasks && me !in scans && !Owns(Now(), me)
      ensures !resumed ==> tasks[me] == old(tasks[me])
      ensures resumed ==> found && tasks[me] == Releasing(old(tasks[me].left) - {k})
      ensures patience <= old(patience) && (!resumed ==> patience == 0) && requests == old(requests)
      ensures Alone(labels, |old(labels)|, me) && old(writer) == None ==>
                writer == None && scans == old(scans) && old(patience) <= patience + 1
    {
      hide Next;
      hide IsRun;
      hide Alone;
      found := false;
      ghost var mine, n := tasks[me], |labels|;
      resumed := BeginRelease(me, k);
      if !resumed {
        return;
      }
      ghost var left := patience;
      var p := 0;
      while p < |active|
        invariant Valid() && Grew(old(states), old(labels))
        invariant me in tasks && tasks[me] == mine && me in scans && scans[me] == ReleaseScan(k, p)
        invariant p <= |active| && !Owns(Now(), me) && patience == left && requests == old(requests)
        invariant Alone(labels, n, me) && old(writer) == None ==>
                    writer == None && old(patience) <= left + 1 && scans == old(scans)[me := ReleaseScan(k, p)]
        decreases |active| - p
      {
        ghost var sofar := labels;
        var hit := ReleaseNext(me, k, p);
        AloneSplit(sofar, labels, n, me);
        if hit {
          found := true;
          return;
        }
        p := p + 1;
      }
      Runs.EveryState(states, labels, |states| - 1);
      R.NoReleaseScanAtEnd(Now(), me);
      assert false;
    }

    // ----- under the write lock

    /** A call whose first look at the tables is over. */
    ghost predicate At(me: TaskId, mode: Mode, want: set<Pubkey>, reserved: set<Pubkey>, remaining: seq<Pubkey>)
      reads this
    {
      && me in tasks && me !in scans
      && tasks[me] == Acquiring(mode, want, {}, reserved, Elements(remaining))
      && Distinct(remaining)
    }

    /** Sends as much of `storing` as the last table has room for, unless that is more than one
        transaction takes. */
    method SubmitExtend(me: TaskId, ghost mode: Mode, ghost want: set<Pubkey>, ghost reserved: set<Pubkey>,
                        ghost remaining: seq<Pubkey>, storing: seq<Pubkey>)
      returns (error: Option<Error>, x: TxId, batch: seq<Pubkey>)
      requires Valid() && At(me, mode, want, reserved, remaining) && storing <= remaining && storing != []
      requires writer == Some(Writer(me, Deciding)) && active != [] && !IsFull(active[|active| - 1])
      modifies this
      ensures Valid() && Grew(old(states), old(labels)) && patience == old(patience) && requests == old(requests)
      ensures At(me, mode, want, reserved, remaining) && active == old(active)
      ensures batch == First(storing, LOOKUP_TABLE_MAX_ADDRESSES - |old(active)[|old(active)| - 1].counts|)
      ensures batch != []
      ensures error == if ExceedsMax(batch) then Some(MaxExtendPubkeysExceeded) else None
      ensures error == None ==> x < |sent| && sent[x].ExtendTx? && x in flight
      ensures error == None ==> writer == Some(Writer(me, ExtendSent(x, batch)))
      ensures error.Some? ==> writer == old(writer) && sent == old(sent)
    {
      hide Next;
      hide IsRun;
      hide Elements;
      ghost var before := Now();
      var last := active[|active| - 1];
      batch := First(storing, LOOKUP_TABLE_MAX_ADDRESSES - |last.counts|);
      x := |sent|;
      error := CheckMaxPubkeys(batch);
      if error == None {
        sent, flight := sent + [ExtendTx(last.address, batch)], flight + {x};
        writer := Some(Writer(me, ExtendSent(x, batch)));
        PrefixIsBatch(remaining, batch);
        SendExtendStep(before, me, batch, Now());
        Did(Writing(me, LSendExtend(batch)));
      }
    }

    /** `stored` leaves the remaining keys and is recorded for the caller, or stays pinned. */
    method Record(me: TaskId, mode: Mode, ghost want: set<Pubkey>, reserved: set<Pubkey>, remaining: seq<Pubkey>,
                  stored: seq<Pubkey>)
      returns (remaining': seq<Pubkey>, reserved': set<Pubkey>)
      requires At(me, mode, want, reserved, remaining) && stored <= remaining && stored != []
      modifies this`tasks, this`pins
      ensures At(me, mode, want, reserved', remaining') && |remaining'| < |remaining|
      ensures Elements(remaining') == Elements(remaining) - Elements(stored)
      ensures Now() == Recorded(old(Now()), me, stored)
    {
      remaining' := Retain(remaining, stored);
      reserved' := reserved;
      if mode == Reserve {
        reserved' := reserved + Elements(stored);
      } else {
        pins := pins + multiset(stored);
      }
      tasks := tasks[me := tasks[me].(reserved := reserved', remaining := Elements(remaining'))];
    }

    /** The extend was confirmed: its keys get their first reservation, or another one. */
    method StoreExtended(me: TaskId, mode: Mode, ghost want: set<Pubkey>, reserved: set<Pubkey>, remaining: seq<Pubkey>,
                         x: TxId, batch: seq<Pubkey>)
      returns (remaining': seq<Pubkey>, reserved': set<Pubkey>)
      requires Valid() && At(me, mode, want, reserved, remaining)
      requires writer == Some(Writer(me, ExtendSent(x, batch))) && x in landed && batch <= remaining && batch != []
      requires active != [] && active[|active| - 1].Active?
      modifies this
      ensures Valid() && Grew(old(states), old(labels)) && patience == old(patience) && requests == old(requests)
      ensures At(me, mode, want, reserved', remaining') && |remaining'| < |remaining|
      ensures Elements(remaining') == Elements(remaining) - Elements(batch)
      ensures active == old(active)[|old(active)| - 1 := WithInserted(old(active)[|old(active)| - 1], batch)]
      ensures Free()
    {
      hide Next;
      hide IsRun;
      hide Recorded;
      hide Inserted;
      hide Elements;
      ghost var before := Now();
      NoScansUnderLock(states, labels);
      var n := |active| - 1;
      var counts := InsertInto(active[n].counts, batch);
      remaining', reserved' := Record(me, mode, want, reserved, remaining, batch);
      active := active[n := active[n].(counts := counts)];
      writer := None;
      ExtendOkStep(before, me, x, batch, Now());
      Did(Writing(me, LExtendOk));
    }

    /** After an error the table adopts what the chain lists, and the call's keys among it are
        taken care of. */
    method ReconcileTable(me: TaskId, mode: Mode, ghost want: set<Pubkey>, reserved: set<Pubkey>,
                          remaining: seq<Pubkey>,
                          seen: seq<Pubkey>)
      returns (remaining': seq<Pubkey>, reserved': set<Pubkey>)
      requires Valid() && At(me, mode, want, reserved, remaining) && writer == Some(Writer(me, ExtendFailed))
      requires active != [] && active[|active| - 1].Active?
      requires var a := active[|active| - 1].address; seen == [] || (a in chain && seen <= chain[a].keys)
      modifies this
      ensures Valid() && Grew(old(states), old(labels)) && patience == old(patience) && requests == old(requests)
      ensures At(me, mode, want, reserved', remaining') && |remaining'| <= |remaining|
      ensures writer == Some(Writer(me, Reconciled))
      ensures active != [] && active[|active| - 1].Active?
      ensures var n := |old(active)| - 1;
              active == old(active)[n := WithAdopted(old(active)[n], seen, mode, Elements(remaining))]
      ensures var here := Elements(remaining) * (old(active)[|old(active)| - 1].counts.Keys + Elements(seen));
              && Elements(remaining') == Elements(remaining) - here
              && reserved' == (if mode == Reserve then reserved + here else reserved)
    {
      hide Next;
      hide IsRun;
      hide Elements;
      hide Adopted;
      hide ReservedAll;
      ghost var before := Now();
      var n := |active| - 1;
      AdoptedKeys(active[n].counts, seen);
      var counts;
      counts, remaining', reserved' := AdoptAndFilter(active[n].counts, seen, remaining, mode, reserved);
      active := active[n := active[n].(counts := counts)];
      tasks := tasks[me := tasks[me].(reserved := reserved', remaining := Elements(remaining'))];
      writer := Some(Writer(me, Reconciled));
      ReconcileStep(before, me, seen, mode, Elements(remaining), reserved, counts, reserved', Elements(remaining'),
                    Now());
      Did(Writing(me, LReconcile(seen)));
    }

    method FailExtend(me: TaskId, ghost mode: Mode, ghost want: set<Pubkey>, ghost reserved: set<Pubkey>,
                      ghost remaining: seq<Pubkey>)
      requires Valid() && At(me, mode, want, reserved, remaining)
      requires Owns(Now(), me) && (writer.value.stage.ExtendSent? || writer.value.stage.Deciding?) && active != []
      modifies this
      ensures Valid() && Grew(old(states), old(labels)) && patience == old(patience) && requests == old(requests)
      ensures At(me, mode, want, reserved, remaining) && active == old(active) && chain == old(chain)
      ensures writer == Some(Writer(me, ExtendFailed))
    {
      writer := Some(Writer(me, ExtendFailed));
      Did(Writing(me, LExtendError));
    }

    method SkipReconciliation(me: TaskId, ghost mode: Mode, ghost want: set<Pubkey>, ghost reserved: set<Pubkey>,
                              ghost remaining: seq<Pubkey>)
      requires Valid() && At(me, mode, want, reserved, remaining) && writer == Some(Writer(me, ExtendFailed))
      modifies this
      ensures Valid() && Grew(old(states), old(labels)) && patience == old(patience) && requests == old(requests)
      ensures At(me, mode, want, reserved, remaining) && active == old(active)
      ensures writer == Some(Writer(me, Reconciled))
    {
      writer := Some(Writer(me, Reconciled));
      Did(Writing(me, LSkipReconcile));
    }

    /** After a failed extend: the table is brought up to date with the chain, if that answers. */
    method RecoverExtend(me: TaskId, mode: Mode, ghost want: set<Pubkey>, reserved: set<Pubkey>, remaining: seq<Pubkey>)
      returns (resumed: bool, remaining': seq<Pubkey>, reserved': set<Pubkey>)
      requires Valid() && At(me, mode, want, reserved, remaining)
      requires Owns(Now(), me) && (writer.value.stage.ExtendSent? || writer.value.stage.Deciding?)
      requires active != [] && active[|active| - 1].Active?
      modifies this
      ensures Valid() && Grew(old(states), old(labels))
      ensures patience <= old(patience) <= patience + 1 && (!resumed ==> patience == 0) && requests == old(requests) + 1
      ensures At(me, mode, want, reserved', remaining') && |remaining'| <= |remaining|
      ensures !resumed ==> Owns(Now(), me)
      ensures resumed ==> writer == Some(Writer(me, Reconciled)) && active != [] && active[|active| - 1].Active?
    {
      hide Next;
      hide IsRun;
      hide Elements;
      hide WithAdopted;
      remaining', reserved' := remaining, reserved;
      FailExtend(me, mode, want, reserved, remaining);
      var seen;
      resumed, seen := FetchChainKeys(me, active[|active| - 1].address);
      if !resumed {
        return;
      }
      if seen.Some? {
        remaining', reserved' := ReconcileTable(me, mode, want, reserved, remaining, seen.value);
      } else {
        SkipReconciliation(me, mode, want, reserved, remaining);
      }
    }

    /** Sends the extend and waits for what becomes of it. */
    method TryExtend(me: TaskId, ghost mode: Mode, ghost want: set<Pubkey>, ghost reserved: set<Pubkey>,
                     remaining: seq<Pubkey>)
      returns (resumed: bool, error: Option<Error>, x: TxId, batch: seq<Pubkey>)
      requires Valid() && At(me, mode, want, reserved, remaining) && remaining != []
      requires writer == Some(Writer(me, Deciding)) && active != [] && !IsFull(active[|active| - 1])
      modifies this
      ensures Valid() && Grew(old(states), old(labels))
      ensures At(me, mode, want, reserved, remaining) && active == old(active) && batch <= remaining && batch != []
      ensures batch == ExtendShare(old(active)[|old(active)| - 1], remaining)
      ensures writer == Some(Writer(me, ExtendSent(x, batch))) && (error == None ==> x in landed)
      ensures error.Some? ==> error.value == EXTEND_REJECTED || Fails(script(old(requests)))
      ensures error != Some(MaxExtendPubkeysExceeded)
      ensures patience <= old(patience) <= patience + 1 && (!resumed ==> patience == 0)
      ensures requests == old(requests) + 1
    {
      hide Next;
      hide IsRun;
      hide Elements;
      var storing := First(remaining, MAX_ENTRIES_AS_PART_OF_EXTEND);
      resumed := true;
      error, x, batch := SubmitExtend(me, mode, want, reserved, remaining, storing);
      if error == None {
        resumed, error := SendTransaction(me, x);
      }
    }

    /** Stores as many of the remaining keys as possible in the last table. On an error the chain
        may be ahead of what is known here, so the table is reconciled before reporting it. */
    method ExtendTable(me: TaskId, mode: Mode, ghost want: set<Pubkey>, reserved: set<Pubkey>, remaining: seq<Pubkey>)
      returns (resumed: bool, error: Option<Error>, remaining': seq<Pubkey>, reserved': set<Pubkey>)
      requires Valid() && At(me, mode, want, reserved, remaining) && remaining != []
      requires writer == Some(Writer(me, Deciding)) && active != [] && !IsFull(active[|active| - 1])
      modifies this
      ensures Valid() && Grew(old(states), old(labels))
      ensures At(me, mode, want, reserved', remaining') && |remaining'| <= |remaining|
      ensures !resumed ==> Owns(Now(), me)
      ensures resumed && error == None ==> Free() && |remaining'| < |remaining|
      ensures resumed && error == None ==>
          var n, batch := |old(active)| - 1, ExtendShare(old(active)[|old(active)| - 1], remaining);
          && active == old(active)[n := WithInserted(old(active)[n], batch)]
          && Elements(remaining') == Elements(remaining) - Elements(batch)
      ensures resumed && error.Some? ==>
                writer == Some(Writer(me, Reconciled)) && active != [] && active[|active| - 1].Active?
      ensures error != Some(MaxExtendPubkeysExceeded)
      ensures error.Some? ==> error.value == EXTEND_REJECTED || SomeFailed(old(requests), requests)
      ensures patience <= old(patience) <= patience + 2 && (!resumed ==> patience == 0) && old(requests) <= requests
    {
      hide Next;
      hide IsRun;
      hide Elements;
      hide WithInserted;
      remaining', reserved' := remaining, reserved;
      var x, batch;
      resumed, error, x, batch := TryExtend(me, mode, want, reserved, remaining);
      if resumed {
        if error == None {
          remaining', reserved' := StoreExtended(me, mode, want, reserved, remaining, x, batch);
        } else {
          resumed, remaining', reserved' := RecoverExtend(me, mode, want, reserved, remaining);
        }
      }
    }

    method GiveUp(me: TaskId, ghost mode: Mode, ghost want: set<Pubkey>, ghost reserved: set<Pubkey>,
                  ghost remaining: seq<Pubkey>, nonExtendable: bool)
      requires Valid() && At(me, mode, want, reserved, remaining) && writer == Some(Writer(me, Reconciled))
      requires active != [] && active[|active| - 1].Active?
      modifies this
      ensures Valid() && Grew(old(states), old(labels)) && patience == old(patience) && requests == old(requests)
      ensures At(me, mode, want, reserved, remaining) && Free() && active != []
      ensures active[|active| - 1].address == old(active[|active| - 1].address)
      ensures nonExtendable ==> IsFull(active[|active| - 1])
    {
      NoScansUnderLock(states, labels);
      var n := |active| - 1;
      active := active[n := active[n].(extendable := active[n].extendable && !nonExtendable)];
      writer := None;
      Did(Writing(me, LGiveUpExtend(nonExtendable)));
    }

    method Unlock(me: TaskId, ghost mode: Mode, ghost want: set<Pubkey>, ghost reserved: set<Pubkey>,
                  ghost remaining: seq<Pubkey>)
      requires Valid() && At(me, mode, want, reserved, remaining) && writer == Some(Writer(me, Deciding))
      modifies this
      ensures Valid() && Grew(old(states), old(labels)) && patience == old(patience) && requests == old(requests)
      ensures At(me, mode, want, reserved, remaining) && Free() && active == old(active)
      ensures labels == old(labels) + [Writing(me, LDropWriteLock)]
    {
      NoScansUnderLock(states, labels);
      writer := None;
      Did(Writing(me, LDropWriteLock));
    }

    /** The last table is extended, or what the error asks for is noted. */
    method ExtendLastTable(me: TaskId, mode: Mode, ghost want: set<Pubkey>, reserved: set<Pubkey>,
                           remaining: seq<Pubkey>, extendErrors: nat)
      returns (a: Attempt, errors: nat, remaining': seq<Pubkey>, reserved': set<Pubkey>)
      requires Valid() && At(me, mode, want, reserved, remaining) && remaining != []
      requires writer == Some(Writer(me, Deciding)) && active != [] && !IsFull(active[|active| - 1])
      requires extendErrors <= MAX_ALLOWED_EXTEND_ERRORS
      modifies this
      ensures Valid() && Grew(old(states), old(labels))
      ensures At(me, mode, want, reserved', remaining') && |remaining'| <= |remaining|
      ensures a.Stored? || a.Retried? || a.Rejected? || a.Failed? || a.Vanished?
      ensures !a.Failed? && !a.Vanished? ==> Free()
      ensures a.Stored? ==> |remaining'| < |remaining|
      ensures a.Rejected? ==> active != [] && IsFull(active[|active| - 1]) && active[|active| - 1].address == a.table
      ensures errors == if a.Retried? then extendErrors + 1 else extendErrors
      ensures errors <= MAX_ALLOWED_EXTEND_ERRORS
      ensures a.Failed? ==> a.error != MaxExtendPubkeysExceeded
      ensures a.Failed? || a.Retried? ==> SomeFailed(old(requests), requests)
      ensures patience <= old(patience) <= patience + 2 && (a.Vanished? ==> patience == 0) && old(requests) <= requests
    {
      hide Next;
      hide IsRun;
      hide Elements;
      hide ExtendShare;
      hide WithInserted;
      errors := extendErrors;
      var resumed, error;
      resumed, error, remaining', reserved' := ExtendTable(me, mode, want, reserved, remaining);
      if !resumed {
        a := Vanished;
        return;
      }
      if error == None {
        a := Stored;
        return;
      }
      var action;
      action, errors := HandleExtendTableError(error.value, extendErrors);
      match action {
        case CreateNewTable =>
          GiveUp(me, mode, want, reserved', remaining', true);
          a := Rejected(active[|active| - 1].address);
        case Retry =>
          GiveUp(me, mode, want, reserved', remaining', false);
          a := Retried;
        case ReturnError =>
          a := Failed(error.value);
      }
    }

    /** First attempt of each round: the last table, unless it is full. */
    method UseLastTable(me: TaskId, mode: Mode, ghost want: set<Pubkey>, reserved: set<Pubkey>, remaining: seq<Pubkey>,
                        extendErrors: nat)
      returns (a: Attempt, errors: nat, remaining': seq<Pubkey>, reserved': set<Pubkey>)
      requires Valid() && At(me, mode, want, reserved, remaining) && remaining != [] && !Owns(Now(), me)
      requires extendErrors <= MAX_ALLOWED_EXTEND_ERRORS
      modifies this
      ensures Valid() && Grew(old(states), old(labels))
      ensures At(me, mode, want, reserved', remaining') && |remaining'| <= |remaining|
      ensures a.Stored? || a.NoRoom? || a.Retried? || a.Rejected? || a.Failed? || a.Vanished?
      ensures !a.Failed? && !a.Vanished? ==> Free()
      ensures a.Stored? ==> |remaining'| < |remaining|
      ensures a.NoRoom? ==> active == [] || IsFull(active[|active| - 1])
      ensures a.Rejected? ==> active != [] && IsFull(active[|active| - 1]) && active[|active| - 1].address == a.table
      ensures errors == if a.Retried? then extendErrors + 1 else extendErrors
      ensures errors <= MAX_ALLOWED_EXTEND_ERRORS
      ensures a.Failed? ==> a.error != MaxExtendPubkeysExceeded
      ensures a.Failed? || a.Retried? ==> SomeFailed(old(requests), requests)
      ensures patience <= old(patience) && (if a.Vanished? then patience == 0 else patience < old(patience))
      ensures old(requests) <= requests
      ensures Alone(labels, |old(labels)|, me) && old(Free()) ==> old(patience) <= patience + ATTEMPT_AWAITS
    {
      hide Next;
      hide IsRun;
      hide IsFull;
      remaining', reserved', errors := remaining, reserved, extendErrors;
      ghost var n := |labels|;
      assert remaining[0] in Elements(remaining);
      var resumed := WriteLock(me);
      if !resumed {
        a := Vanished;
        return;
      }
      ghost var locked := labels;
      if active == [] || IsFull(active[|active| - 1]) {
        Unlock(me, mode, want, reserved, remaining);
        a := NoRoom;
      } else {
        a, errors, remaining', reserved' := ExtendLastTable(me, mode, want, reserved, remaining, extendErrors);
      }
      AlonePrefix(locked, labels, n, me);
    }

    /** The counters behind the address of the next table. */
    method NextAddress(slot: nat) returns (address: Address)
      modifies this`lastSlot, this`subSlot
      ensures lastSlot == slot && subSlot == NextSubSlot(old(lastSlot), old(subSlot), slot)
      ensures address == Address(slot, subSlot)
    {
      var prevLastSlot := lastSlot;
      lastSlot := slot;
      if prevLastSlot != slot {
        subSlot := 0;
      } else {
        subSlot := subSlot + 1;
      }
      address := Address(slot, subSlot);
    }

    method SendCreateTx(me: TaskId, ghost remaining: seq<Pubkey>, slot: nat, batch: seq<Pubkey>)
      returns (address: Address)
      requires Valid() && me in tasks && tasks[me].Acquiring? && tasks[me].remaining == Elements(remaining)
      requires Distinct(remaining) && batch <= remaining && batch != [] && !ExceedsMax(batch)
      requires writer == Some(Writer(me, Deciding)) && !Created(sent, DerivedAddress(lastSlot, subSlot, slot))
      modifies this
      ensures Valid() && Grew(old(states), old(labels)) && patience == old(patience) && requests == old(requests)
      ensures tasks == old(tasks) && scans == old(scans) && active == old(active)
      ensures sent == old(sent) + [CreateTx(address, batch)] && flight == old(flight) + {|old(sent)|}
      ensures writer == Some(Writer(me, CreateSent(|old(sent)|, address, batch)))
    {
      hide Next;
      hide IsRun;
      hide Elements;
      ghost var before := Now();
      var x := |sent|;
      address := NextAddress(slot);
      sent, flight := sent + [CreateTx(address, batch)], flight + {x};
      writer := Some(Writer(me, CreateSent(x, address, batch)));
      PrefixIsBatch(remaining, batch);
      SendCreateStep(before, me, slot, batch, Now());
      Did(Writing(me, LSendCreate(slot, batch)));
    }

    /** Sends a table with `batch` in it, unless that is more than one transaction takes. */
    method SubmitCreate(me: TaskId, ghost mode: Mode, ghost want: set<Pubkey>, ghost reserved: set<Pubkey>,
                        ghost remaining: seq<Pubkey>, slot: nat, batch: seq<Pubkey>)
      returns (error: Option<Error>, x: TxId, address: Address)
      requires Valid() && At(me, mode, want, reserved, remaining) && batch <= remaining && batch != []
      requires writer == Some(Writer(me, Deciding)) && !Created(sent, DerivedAddress(lastSlot, subSlot, slot))
      modifies this
      ensures Valid() && Grew(old(states), old(labels)) && patience == old(patience) && requests == old(requests)
      ensures At(me, mode, want, reserved, remaining) && active == old(active)
      ensures error == if ExceedsMax(batch) then Some(MaxExtendPubkeysExceeded) else None
      ensures error == None ==> x < |sent| && x in flight && writer == Some(Writer(me, CreateSent(x, address, batch)))
      ensures error.Some? ==> writer == old(writer) && sent == old(sent)
    {
      hide Next;
      hide IsRun;
      hide Elements;
      x, address := |sent|, Address(slot, 0);
      error := CheckMaxPubkeys(batch);
      if error == None {
        address := SendCreateTx(me, remaining, slot, batch);
      }
    }

    lemma CreateAccepted(x: TxId, address: Address, batch: seq<Pubkey>)
      requires Valid() && x < |sent| && x in flight
      requires writer.Some? && writer.value.stage == CreateSent(x, address, batch)
      ensures Accepted(chain, sent[x])
    {
      CreateIsAccepted(states, labels, x, address, batch);
    }

    method StoreCreated(me: TaskId, mode: Mode, ghost want: set<Pubkey>, reserved: set<Pubkey>, remaining: seq<Pubkey>,
                        x: TxId, address: Address, batch: seq<Pubkey>)
      returns (remaining': seq<Pubkey>, reserved': set<Pubkey>)
      requires Valid() && At(me, mode, want, reserved, remaining)
      requires writer == Some(Writer(me, CreateSent(x, address, batch))) && x in landed && batch <= remaining
      requires batch != []
      modifies this
      ensures Valid() && Grew(old(states), old(labels)) && patience == old(patience) && requests == old(requests)
      ensures At(me, mode, want, reserved', remaining') && |remaining'| < |remaining|
      ensures Elements(remaining') == Elements(remaining) - Elements(batch)
      ensures active == old(active) + [Active(address, Inserted(map[], batch), true)]
      ensures Free()
    {
      hide Next;
      hide IsRun;
      hide Recorded;
      hide Inserted;
      hide Elements;
      ghost var before := Now();
      NoScansUnderLock(states, labels);
      assert Distinct(batch);
      var counts := FirstReservations(batch);
      remaining', reserved' := Record(me, mode, want, reserved, remaining, batch);
      active := active + [Active(address, counts, true)];
      writer := None;
      CreateOkStep(before, me, x, address, batch, Now());
      Did(Writing(me, LCreateOk));
    }

    /** Sends the new table and waits for what becomes of it; only the answer can fail. */
    method TryCreate(me: TaskId, ghost mode: Mode, ghost want: set<Pubkey>, ghost reserved: set<Pubkey>,
                     ghost remaining: seq<Pubkey>, slot: nat, batch: seq<Pubkey>)
      returns (resumed: bool, error: Option<Error>, x: TxId, address: Address)
      requires Valid() && At(me, mode, want, reserved, remaining)
      requires batch <= remaining && batch != [] && !ExceedsMax(batch)
      requires writer == Some(Writer(me, Deciding)) && !Created(sent, DerivedAddress(lastSlot, subSlot, slot))
      modifies this
      ensures Valid() && Grew(old(states), old(labels))
      ensures At(me, mode, want, reserved, remaining) && active == old(active)
      ensures writer == Some(Writer(me, CreateSent(x, address, batch))) && (error == None ==> x in landed)
      ensures error.Some? ==> error.value != MaxExtendPubkeysExceeded && Fails(script(old(requests)))
      ensures patience <= old(patience) <= patience + 1 && (!resumed ==> patience == 0)
      ensures requests == old(requests) + 1
    {
      hide Next;
      hide IsRun;
      hide Elements;
      hide Accepted;
      hide DerivedAddress;
      resumed := true;
      error, x, address := SubmitCreate(me, mode, want, reserved, remaining, slot, batch);
      if error == None {
        CreateAccepted(x, address, batch);
        resumed, error := SendTransaction(me, x);
      }
    }

    /** Success appends a table of its own address with the first keys in it, once each. */
    method CreateNewTableAndExtend(me: TaskId, mode: Mode, ghost want: set<Pubkey>, reserved: set<Pubkey>,
                                   remaining: seq<Pubkey>, limit: nat)
      returns (a: Attempt, remaining': seq<Pubkey>, reserved': set<Pubkey>)
      requires Valid() && At(me, mode, want, reserved, remaining) && remaining != []
      requires writer == Some(Writer(me, Deciding)) && limit > 0
      modifies this
      ensures Valid() && Grew(old(states), old(labels))
      ensures At(me, mode, want, reserved', remaining') && |remaining'| <= |remaining|
      ensures a.Stored? || a.Failed? || a.Vanished?
      ensures a.Stored? ==> |remaining'| < |remaining| && Free()
      ensures a.Stored? ==> Appended(old(active), active, InitShare(remaining, limit))
      ensures a.Stored? ==> Elements(remaining') == Elements(remaining) - Elements(InitShare(remaining, limit))
      ensures a.Failed? ==> a.error != MaxExtendPubkeysExceeded && SomeFailed(old(requests), requests)
      ensures patience <= old(patience) <= patience + 2 && (a.Vanished? ==> patience == 0) && old(requests) <= requests
    {
      hide Next;
      hide IsRun;
      hide Elements;
      hide Appended;
      hide DerivedAddress;
      remaining', reserved' := remaining, reserved;
      var resumed, slot := GetSlot(me);
      if !resumed {
        a := Vanished;
        return;
      }
      if slot == None {
        a := Failed(SendFailed(RpcFailed));
        return;
      }
      var batch := First(First(remaining, limit), MAX_ENTRIES_AS_PART_OF_EXTEND);
      ghost var before := active;
      var error, x, address;
      resumed, error, x, address := TryCreate(me, mode, want, reserved, remaining, slot.value, batch);
      if !resumed {
        a := Vanished;
      } else if error.Some? {
        a := Failed(error.value);
      } else {
        remaining', reserved' := StoreCreated(me, mode, want, reserved, remaining, x, address, batch);
        a := Stored;
        PrefixIsBatch(remaining, batch);
        LastIsNew(states, labels, before, address, batch);
      }
    }

    /** Second attempt of each round: a new table, unless somebody else made one meanwhile. */
    method CreateTable(me: TaskId, mode: Mode, ghost want: set<Pubkey>, reserved: set<Pubkey>, remaining: seq<Pubkey>,
                       forceNewTableAfter: Option<Address>)
      returns (a: Attempt, remaining': seq<Pubkey>, reserved': set<Pubkey>)
      requires Valid() && At(me, mode, want, reserved, remaining) && remaining != [] && !Owns(Now(), me)
      modifies this
      ensures Valid() && Grew(old(states), old(labels))
      ensures patience <= old(patience) && (a.Vanished? ==> patience == 0) && old(requests) <= requests
      ensures Alone(labels, |old(labels)|, me) && old(Free()) ==> old(patience) <= patience + ATTEMPT_AWAITS
      ensures At(me, mode, want, reserved', remaining') && |remaining'| <= |remaining|
      ensures a.Stored? || a.Occupied? || a.Failed? || a.Vanished?
      ensures a.Stored? ==> |remaining'| < |remaining|
      ensures a.Stored? || a.Occupied? ==> Free()
      ensures a.Occupied? && Alone(labels, |old(labels)|, me) ==>
                old(active) != [] && !IsFull(old(active)[|old(active)| - 1])
                && forceNewTableAfter != Some(old(active)[|old(active)| - 1].address)
      ensures a.Failed? ==> a.error != MaxExtendPubkeysExceeded && SomeFailed(old(requests), requests)
    {
      hide Next;
      hide IsRun;
      remaining', reserved' := remaining, reserved;
      ghost var n := |labels|;
      assert remaining[0] in Elements(remaining);
      var resumed := WriteLock(me);
      if !resumed {
        a := Vanished;
        return;
      }
      ghost var locked := labels;
      if active != [] && !IsFull(active[|active| - 1]) && forceNewTableAfter != Some(active[|active| - 1].address) {
        Unlock(me, mode, want, reserved, remaining);
        AlonePrefix(locked, labels, n, me);
        a := Occupied;
        return;
      }
      var limit := if forceNewTableAfter.Some? then FALLBACK_NEW_TABLE_INIT_PUBKEYS else MAX_ENTRIES_AS_PART_OF_EXTEND;
      a, remaining', reserved' := CreateNewTableAndExtend(me, mode, want, reserved, remaining, limit);
      AlonePrefix(locked, labels, n, me);
    }

    /** An error or a drop ends the call; what it reserved stays recorded for its caller. */
    method Quit(me: TaskId, ghost mode: Mode, ghost want: set<Pubkey>, reserved: set<Pubkey>,
                ghost remaining: seq<Pubkey>)
      requires Valid() && At(me, mode, want, reserved, remaining)
      modifies this
      ensures Valid() && Grew(old(states), old(labels)) && me !in scans && !Owns(Now(), me)
      ensures patience == old(patience) && requests == old(requests)
      ensures mode == Reserve ==> me in tasks && tasks[me] == Holding(reserved) && reserved <= want
      ensures mode == LeaveUnreserved ==> me !in tasks
    {
      OnlyWanted(states, labels, me);
      if tasks[me].mode == Reserve {
        tasks := tasks[me := Holding(reserved)];
      } else {
        tasks := tasks - {me};
      }
      if writer.Some? && writer.value.task == me {
        writer := None;
      }
      Did(Reserving(me, LAbort));
    }

    /** One round: the last table, and a new one if that did not do. Left alone, a round that goes
        on has placed a key or used up a retry. */
    method Round(me: TaskId, mode: Mode, ghost want: set<Pubkey>, reserved: set<Pubkey>, remaining: seq<Pubkey>,
                 extendErrors: nat)
      returns (end: Option<Outcome>, errors: nat, remaining': seq<Pubkey>, reserved': set<Pubkey>)
      requires Valid() && At(me, mode, want, reserved, remaining) && remaining != [] && !Owns(Now(), me)
      requires extendErrors <= MAX_ALLOWED_EXTEND_ERRORS
      modifies this
      ensures Valid() && Grew(old(states), old(labels))
      ensures At(me, mode, want, reserved', remaining') && |remaining'| <= |remaining|
      ensures extendErrors <= errors <= MAX_ALLOWED_EXTEND_ERRORS
      ensures end == None ==> patience < old(patience) && Free()
      ensures end == None && Alone(labels, |old(labels)|, me) ==> |remaining'| - errors < |remaining| - extendErrors
      ensures end.Some? ==> !end.value.Ok? && end.value != Err(MaxExtendPubkeysExceeded)
      ensures end.Some? ==> if end.value == Dropped then patience == 0 else SomeFailed(old(requests), requests)
      ensures patience <= old(patience) && old(requests) <= requests
      ensures Alone(labels, |old(labels)|, me) && old(Free()) ==> old(patience) <= patience + 2 * ATTEMPT_AWAITS
    {
      hide Next;
      hide IsRun;
      hide Elements;
      hide IsFull;
      ghost var n := |labels|;
      var a;
      a, errors, remaining', reserved' := UseLastTable(me, mode, want, reserved, remaining, extendErrors);
      end := None;
      if a.Failed? || a.Vanished? {
        end := Some(if a.Failed? then Err(a.error) else Dropped);
      } else if !a.Stored? && remaining' != [] {
        ghost var between := labels;
        var forced := if a.Rejected? then Some(a.table) else None;
        var b;
        b, remaining', reserved' := CreateTable(me, mode, want, reserved', remaining', forced);
        AloneSplit(between, labels, n, me);
        if b.Failed? || b.Vanished? {
          end := Some(if b.Failed? then Err(b.error) else Dropped);
        }
      }
    }

    /** Places keys that were in no table, one transaction after the other, until all are placed.
        It gives up only when its caller does, or when some answer failed. Whatever the chain
        answers, a call that nobody interferes with needs at most one round per key and one per
        allowed error, and as many awaits as that takes. */
    method ReserveNewPubkeys(me: TaskId, authorized: bool, mode: Mode, ghost want: set<Pubkey>, reserved: set<Pubkey>,
                             pubkeys: seq<Pubkey>)
      returns (r: Outcome, reserved': set<Pubkey>, rounds: nat)
      requires Valid() && At(me, mode, want, reserved, pubkeys) && !Owns(Now(), me)
      modifies this
      ensures Valid() && Grew(old(states), old(labels)) && me !in scans && !Owns(Now(), me)
      ensures r.Ok? ==> authorized && At(me, mode, want, reserved', [])
      ensures !r.Ok? && mode == Reserve ==> me in tasks && tasks[me] == Holding(reserved') && reserved' <= want
      ensures !r.Ok? && mode == LeaveUnreserved ==> me !in tasks
      ensures r != Err(MaxExtendPubkeysExceeded)
      ensures Ends(r, authorized, old(requests))
      ensures Alone(labels, |old(labels)|, me) ==> rounds <= |pubkeys| + MAX_ALLOWED_EXTEND_ERRORS
      ensures Alone(labels, |old(labels)|, me) && old(Free()) ==> old(patience) <= patience + MaxAwaits(|pubkeys|)
      ensures Alone(labels, |old(labels)|, me) && old(Free()) && authorized && !SomeFailed(old(requests), requests) ==>
                old(patience) > MaxAwaits(|pubkeys|) ==> r.Ok?
      ensures old(requests) <= requests
    {
      hide Next;
      hide IsRun;
      hide Elements;
      ghost var n := |labels|;
      reserved', rounds := reserved, 0;
      var remaining := pubkeys;
      if !authorized {
        Quit(me, mode, want, reserved', remaining);
        return Err(InvalidAuthority), reserved', rounds;
      }
      var extendErrors := 0;
      while remaining != []
        invariant Valid() && Grew(old(states), old(labels)) && old(requests) <= requests
        invariant At(me, mode, want, reserved', remaining) && !Owns(Now(), me)
        invariant extendErrors <= MAX_ALLOWED_EXTEND_ERRORS && |remaining| <= |pubkeys|
        invariant Alone(labels, n, me) ==> rounds + |remaining| <= |pubkeys| + extendErrors
        invariant old(Free()) ==> Free()
        invariant Alone(labels, n, me) && old(Free()) ==> old(patience) <= patience + 2 * ATTEMPT_AWAITS * rounds
        decreases patience
      {
        ghost var before := labels;
        rounds := rounds + 1;
        var end;
        end, extendErrors, remaining, reserved' := Round(me, mode, want, reserved', remaining, extendErrors);
        AloneSplit(before, labels, n, me);
        if end.Some? {
          before := labels;
          Quit(me, mode, want, reserved', remaining);
          AlonePrefix(before, labels, n, me);
          r := end.value;
          return;
        }
      }
      r := Ok;
    }

    // ----- the calls

    /** A call that still has `todo` to look for. */
    ghost predicate Scanning(me: TaskId, want: set<Pubkey>, todo: set<Pubkey>, reserved: set<Pubkey>,
                             remaining: seq<Pubkey>)
      reads this
    {
      && me in tasks && me !in scans && !Owns(Now(), me)
      && tasks[me] == Acquiring(Reserve, want, todo, reserved, Elements(remaining))
      && Distinct(remaining)
    }

    method StartReserving(me: TaskId, pubkeys: set<Pubkey>)
      requires Valid() && me !in tasks
      modifies this
      ensures Valid() && Grew(old(states), old(labels)) && Scanning(me, pubkeys, pubkeys, {}, [])
      ensures writer == old(writer) && scans == old(scans) && patience == old(patience) && requests == old(requests)
    {
      NobodysScan(states, labels, me);
      tasks := tasks[me := Acquiring(Reserve, pubkeys, pubkeys, {}, {})];
      Did(Reserving(me, LStartReserve(pubkeys)));
    }

    method Finish(me: TaskId, mode: Mode, ghost want: set<Pubkey>, reserved: set<Pubkey>)
      requires Valid() && At(me, mode, want, reserved, []) && !Owns(Now(), me)
      modifies this
      ensures Valid() && Grew(old(states), old(labels)) && me !in scans && !Owns(Now(), me)
      ensures patience == old(patience) && requests == old(requests)
      ensures mode == Reserve ==> me in tasks && tasks[me] == Holding(reserved) && reserved == want
      ensures mode == LeaveUnreserved ==> me !in tasks
    {
      OnlyWanted(states, labels, me);
      if mode == Reserve {
        tasks := tasks[me := Holding(reserved)];
      } else {
        tasks := tasks - {me};
      }
      Did(Reserving(me, LReturn));
    }

    method QuitScanning(me: TaskId)
      requires Valid() && me in tasks && tasks[me].Acquiring? && tasks[me].mode == Reserve
      requires me !in scans && !Owns(Now(), me)
      modifies this
      ensures Valid() && Grew(old(states), old(labels)) && me !in scans && !Owns(Now(), me)
      ensures patience == old(patience) && requests == old(requests)
      ensures me in tasks && tasks[me] == Holding(old(tasks[me].reserved)) && old(tasks[me].reserved <= tasks[me].want)
    {
      OnlyWanted(states, labels, me);
      tasks := tasks[me := Holding(tasks[me].reserved)];
      Did(Reserving(me, LAbort));
    }

    method ReserveExistingKey(me: TaskId, ghost want: set<Pubkey>, ghost todo: set<Pubkey>, reserved: set<Pubkey>,
                              remaining: seq<Pubkey>, k: Pubkey)
      returns (resumed: bool, reserved': set<Pubkey>, remaining': seq<Pubkey>)
      requires Valid() && Scanning(me, want, todo, reserved, remaining) && k in todo
      modifies this
      ensures Valid() && Grew(old(states), old(labels))
      ensures Scanning(me, want, if resumed then todo - {k} else todo, reserved', remaining')
      ensures |remaining'| <= |remaining| + 1
      ensures patience <= old(patience) && (!resumed ==> patience == 0) && requests == old(requests)
      ensures Alone(labels, |old(labels)|, me) && old(writer) == None ==>
                writer == None && scans == old(scans) && old(patience) <= patience + 1
    {
      OnlyWanted(states, labels, me);
      hide Next;
      hide IsRun;
      hide Elements;
      hide Alone;
      var found;
      resumed, found := ReservePubkey(me, k);
      reserved', remaining' := reserved, remaining;
      if resumed {
        if found {
          reserved' := reserved + {k};
        } else {
          OneMoreDistinct(remaining, k);
          remaining' := remaining + [k];
        }
      }
    }

    /** Looks for each key in the tables there are; `remaining` is in none of them. */
    method ReserveExisting(me: TaskId, pubkeys: set<Pubkey>)
      returns (resumed: bool, reserved: set<Pubkey>, remaining: seq<Pubkey>, ghost todo: set<Pubkey>)
      requires Valid() && Scanning(me, pubkeys, pubkeys, {}, [])
      modifies this
      ensures Valid() && Grew(old(states), old(labels)) && Scanning(me, pubkeys, todo, reserved, remaining)
      ensures resumed ==> todo == {} && |remaining| <= |pubkeys|
      ensures patience <= old(patience) && (!resumed ==> patience == 0) && requests == old(requests)
      ensures Alone(labels, |old(labels)|, me) && old(Free()) ==> Free() && old(patience) <= patience + |pubkeys|
    {
      hide Next;
      hide IsRun;
      hide Scanning;
      ghost var n := |labels|;
      resumed, reserved, remaining := true, {}, [];
      var left := pubkeys;
      todo := pubkeys;
      while left != {}
        invariant Valid() && Grew(old(states), old(labels))
        invariant Scanning(me, pubkeys, left, reserved, remaining) && |remaining| + |left| <= |pubkeys|
        invariant resumed && patience <= old(patience) && requests == old(requests)
        invariant Alone(labels, n, me) && old(Free()) ==> Free() && old(patience) + |left| <= patience + |pubkeys|
        decreases left
      {
        var k :| k in left;
        ghost var sofar := labels;
        resumed, reserved, remaining := ReserveExistingKey(me, pubkeys, left, reserved, remaining, k);
        AloneSplit(sofar, labels, n, me);
        if !resumed {
          todo := left;
          return;
        }
        left := left - {k};
      }
      todo := {};
    }

    /** Reserves every key, in the tables there are or in new ones. However the call ends, what is
        recorded for the caller is what it now holds and must give back. Left alone, with enough
        patience and a chain that answers, it succeeds. */
    method ReservePubkeys(me: TaskId, authorized: bool, pubkeys: set<Pubkey>)
      returns (r: Outcome, reserved: set<Pubkey>)
      requires Valid() && me !in tasks
      modifies this
      ensures Valid() && Grew(old(states), old(labels))
      ensures me in tasks && tasks[me] == Holding(reserved) && reserved <= pubkeys
      ensures r.Ok? ==> authorized && reserved == pubkeys
      ensures r != Err(MaxExtendPubkeysExceeded)
      ensures Ends(r, authorized, old(requests))
      ensures Alone(labels, |old(labels)|, me) && old(Free()) && authorized && !SomeFailed(old(requests), requests) ==>
                old(patience) > |pubkeys| + MaxAwaits(|pubkeys|) ==> r.Ok?
    {
      hide Next;
      hide IsRun;
      hide Alone;
      hide Elements;
      hide Distinct;
      ghost var n := |labels|;
      StartReserving(me, pubkeys);
      ghost var sofar := labels;
      var resumed, remaining;
      ghost var todo;
      resumed, reserved, remaining, todo := ReserveExisting(me, pubkeys);
      AloneSplit(sofar, labels, n, me);
      if !resumed {
        sofar := labels;
        QuitScanning(me);
        AloneSplit(sofar, labels, n, me);
        r := Dropped;
        return;
      }
      sofar := labels;
      var rounds;
      r, reserved, rounds := ReserveNewPubkeys(me, authorized, Reserve, pubkeys, reserved, remaining);
      AloneSplit(sofar, labels, n, me);
      if r.Ok? {
        Finish(me, Reserve, pubkeys, reserved);
      }
    }

    /** The keys that no active table has; the read lock is held meanwhile. */
    method MissingKeys(pubkeys: set<Pubkey>) returns (missing: seq<Pubkey>)
      ensures Distinct(missing) && |missing| <= |pubkeys|
      ensures Elements(missing) == set k | k in pubkeys && forall i :: 0 <= i < |active| ==> !Contains(active[i], k)
    {
      missing := [];
      var rest := pubkeys;
      ghost var absent := set k | k in pubkeys && forall i :: 0 <= i < |active| ==> !Contains(active[i], k);
      while rest != {}
        invariant rest <= pubkeys && Distinct(missing) && |missing| + |rest| <= |pubkeys|
        invariant Elements(missing) == absent - rest
        decreases rest
      {
        var k :| k in rest;
        assert k !in missing by { assert k in missing ==> k in Elements(missing); }
        assert Elements(missing + [k]) == Elements(missing) + {k};
        var found := false;
        for i := 0 to |active|
          invariant found <==> exists j :: 0 <= j < i && Contains(active[j], k)
        {
          if Contains(active[i], k) {
            found := true;
            break;
          }
        }
        assert found <==> k !in absent;
        rest := rest - {k};
        if !found {
          missing := missing + [k];
        }
      }
    }

    method StartEnsuring(me: TaskId, pubkeys: set<Pubkey>) returns (missing: seq<Pubkey>)
      requires Valid() && me !in tasks && writer == None
      modifies this
      ensures Valid() && Grew(old(states), old(labels)) && me !in scans && writer == None && active == old(active)
      ensures scans == old(scans) && patience == old(patience) && requests == old(requests) && |missing| <= |pubkeys|
      ensures missing == [] ==> me !in tasks
      ensures missing != [] ==> At(me, LeaveUnreserved, pubkeys, {}, missing)
      ensures Elements(missing) == set k | k in pubkeys && forall i :: 0 <= i < |active| ==> !Contains(active[i], k)
    {
      NobodysScan(states, labels, me);
      missing := MissingKeys(pubkeys);
      if missing != [] {
        assert missing[0] in Elements(missing);
        tasks := tasks[me := Acquiring(LeaveUnreserved, pubkeys, {}, {}, Elements(missing))];
        Did(Reserving(me, LStartEnsure(pubkeys)));
      }
    }

    /** At some moment since `from` the key was in an active table. */
    ghost predicate SeenStored(from: nat, k: Pubkey)
      reads this
    {
      exists j :: from <= j < |states| && Runs.Stored(states[j], k)
    }

    lemma NoneMissing(from: nat, pubkeys: set<Pubkey>, missing: seq<Pubkey>)
      requires Valid() && from < |states| && missing == []
      requires Elements(missing) == set k | k in pubkeys && forall i :: 0 <= i < |active| ==> !Contains(active[i], k)
      ensures forall k :: k in pubkeys ==> SeenStored(from, k)
    {
      forall k | k in pubkeys ensures SeenStored(from, k) {
        assert k !in Elements(missing);
        assert Runs.Stored(states[|states| - 1], k);
      }
    }

    lemma AllEnsured(before: seq<State>, from: nat, me: TaskId, pubkeys: set<Pubkey>, none: set<Pubkey>)
      requires Valid() && before <= states && |before| == from + 1 && me !in before[from].tasks
      requires At(me, LeaveUnreserved, pubkeys, none, [])
      ensures forall k :: k in pubkeys ==> SeenStored(from, k)
    {
      var n := |labels|;
      assert me !in states[from].tasks;
      Runs.SinceAfter(states, from, n, me);
      forall k | k in pubkeys ensures SeenStored(from, k) {
        assert k !in tasks[me].remaining;
        var j := Runs.EnsuredKeyWasStored(states, labels, n, me, k);
      }
    }

    /** Looks under the read lock for the keys that no table has. */
    method LookForMissing(me: TaskId, pubkeys: set<Pubkey>) returns (resumed: bool, missing: seq<Pubkey>)
      requires Valid() && me !in tasks
      modifies this
      ensures Valid() && Grew(old(states), old(labels))
      ensures !resumed ==> me !in tasks && patience == 0
      ensures resumed && missing == [] ==> me !in tasks && forall k :: k in pubkeys ==> SeenStored(|old(labels)|, k)
      ensures resumed && missing != [] ==> At(me, LeaveUnreserved, pubkeys, {}, missing) && !Owns(Now(), me)
      ensures patience <= old(patience) && requests == old(requests) && |missing| <= |pubkeys|
      ensures Alone(labels, |old(labels)|, me) && old(Free()) ==> Free() && old(patience) <= patience + 1
    {
      LastState();
      hide Next;
      hide IsRun;
      hide Elements;
      ghost var n := |labels|;
      missing := [];
      resumed := ReadLock(me);
      if resumed {
        ghost var sofar := labels;
        missing := StartEnsuring(me, pubkeys);
        AloneSplit(sofar, labels, n, me);
        if missing == [] {
          NoneMissing(n, pubkeys, missing);
        }
      }
    }

    /** Makes sure the keys are in some table: each was in one while the call ran. Nobody
        gets a reservation, but a key stored for the first time stays pinned in its table. Left
        alone, with enough patience and a chain that answers, it succeeds. */
    method EnsurePubkeysTable(me: TaskId, authorized: bool, pubkeys: set<Pubkey>) returns (r: Outcome)
      requires Valid() && me !in tasks
      modifies this
      ensures Valid() && Grew(old(states), old(labels)) && me !in tasks
      ensures r.Ok? ==> forall k :: k in pubkeys ==> SeenStored(|old(labels)|, k)
      ensures r != Err(MaxExtendPubkeysExceeded)
      ensures Ends(r, authorized, old(requests))
      ensures Alone(labels, |old(labels)|, me) && old(Free()) && authorized && !SomeFailed(old(requests), requests) ==>
                old(patience) > 1 + MaxAwaits(|pubkeys|) ==> r.Ok?
    {
      LastState();
      hide Next;
      hide IsRun;
      hide Distinct;
      hide Elements;
      hide Alone;
      ghost var n := |labels|;
      var resumed, missing := LookForMissing(me, pubkeys);
      if !resumed {
        r := Dropped;
        return;
      }
      if missing == [] {
        r := Ok;
        return;
      }
      ghost var sofar := labels;
      var rounds, none;
      r, none, rounds := ReserveNewPubkeys(me, authorized, LeaveUnreserved, pubkeys, {}, missing);
      AloneSplit(sofar, labels, n, me);
      if r.Ok? {
        AllEnsured(old(states), n, me, pubkeys, none);
        Finish(me, LeaveUnreserved, pubkeys, none);
      }
    }

    method StartReleasing(me: TaskId)
      requires Valid() && me in tasks && tasks[me].Holding?
      modifies this
      ensures Valid() && Grew(old(states), old(labels))
      ensures writer == old(writer) && scans == old(scans) && patience == old(patience) && requests == old(requests)
      ensures me in tasks && tasks[me] == Releasing(old(tasks[me].reserved)) && me !in scans && !Owns(Now(), me)
    {
      Runs.EveryState(states, labels, |states| - 1);
      assert me in scans ==> R.ScanOk(Now(), me);
      tasks := tasks[me := Releasing(tasks[me].reserved)];
      Did(Freeing(me, LStartRelease));
    }

    /** Splits the active list under the write lock: tables without a reservation are handed to
        the collector, the others stay in order. */
    method DrainTables(me: TaskId)
      requires Valid() && me in tasks && tasks[me] == Releasing({}) && writer == None && scans == map[]
      modifies this
      ensures Valid() && Grew(old(states), old(labels)) && me !in tasks
      ensures patience == old(patience) && requests == old(requests)
      ensures active == WithReservations(old(active))
      ensures released == old(released) + WithoutReservations(old(active))
      ensures forall t :: t in active ==> HasReservations(t)
    {
      PartitionMembers(active);
      var stillActive, gone := Partition(active);
      active, released := stillActive, released + gone;
      tasks := tasks - {me};
      Did(Freeing(me, LDrain));
    }

    /** Gives back one reservation per key, then retires the tables nobody uses any more. It stops
        half way only if its caller goes away; left alone it needs an await per key and one more. */
    method ReleasePubkeys(me: TaskId) returns (completed: bool)
      requires Valid() && me in tasks && tasks[me].Holding?
      modifies this
      ensures Valid() && Grew(old(states), old(labels))
      ensures completed ==> me !in tasks && forall t :: t in active ==> HasReservations(t)
      ensures !completed ==> me in tasks && tasks[me].Releasing? && tasks[me].left <= old(tasks[me].reserved)
      ensures !completed ==> patience == 0
      ensures Alone(labels, |old(labels)|, me) && old(Free()) ==>
                old(patience) > |old(tasks[me].reserved)| + 1 ==> completed
    {
      hide Next;
      hide IsRun;
      hide Alone;
      ghost var n, held := |labels|, tasks[me].reserved;
      var left := tasks[me].reserved;
      StartReleasing(me);
      while left != {}
        invariant Valid() && Grew(old(states), old(labels)) && me !in scans && !Owns(Now(), me)
        invariant me in tasks && tasks[me] == Releasing(left) && left <= held
        invariant Alone(labels, n, me) && old(Free()) ==> Free() && old(patience) + |left| <= patience + |held|
        decreases left
      {
        var k :| k in left;
        ghost var sofar := labels;
        var resumed, found := ReleasePubkey(me, k);
        AloneSplit(sofar, labels, n, me);
        if !resumed {
          completed := false;
          return;
        }
        left := left - {k};
      }
      ghost var sofar := labels;
      completed := AwaitFree(me);
      AloneSplit(sofar, labels, n, me);
      if completed {
        DrainTables(me);
      }
    }

    // ----- lookup tables for reserved keys

    /** The finalized contents of the given tables, as far as the chain returns them. */
    method FetchFinalized(me: TaskId, addresses: set<Address>)
      returns (resumed: bool, remote: Option<map<Address, seq<Pubkey>>>)
      requires Valid()
      modifies this
      ensures Valid() && Grew(old(states), old(labels)) && patience <= old(patience)
      ensures (if resumed then patience < old(patience) else patience == 0) && requests == old(requests) + 1
      ensures remote == None ==> script(old(requests)).keys == None
      ensures remote.Some? ==> remote.value.Keys <= addresses
      ensures remote.Some? ==> forall a :: a in remote.value ==> a in chain && remote.value[a] <= chain[a].keys
    {
      var reply := script(requests);
      requests := requests + 1;
      resumed := Await(me);
      remote := match reply.keys
        case None => None
        case Some(n) => Some(map a | a in addresses && a in chain :: chain[a].keys[..Min(n, |chain[a].keys|)]);
    }

    /** Waits until every key is in some active table, and chooses such tables as they are `at`
        that moment. */
    method MatchLocally(me: TaskId, pubkeys: set<Pubkey>)
      returns (matched: bool, matching: map<Address, set<Pubkey>>, ghost at: nat)
      requires Valid()
      modifies this
      ensures Valid() && Grew(old(states), old(labels))
      ensures (!matched ==> patience == 0) && requests == old(requests)
      ensures matched ==> Partitions(matching, pubkeys)
      ensures matched ==> |old(labels)| <= at < |states|
      ensures matched ==> Served(states[at].active, |states[at].active|, matching)
    {
      LastState();
      hide Next;
      hide IsRun;
      hide Partitions;
      hide Served;
      hide Kept;
      matched, matching, at := false, map[], 0;
      while !matched
        invariant Valid() && Grew(old(states), old(labels)) && requests == old(requests)
        invariant matched ==> Partitions(matching, pubkeys)
        invariant matched ==> |old(labels)| <= at < |states|
        invariant matched ==> Served(states[at].active, |states[at].active|, matching)
        decreases patience, !matched
      {
        var resumed := Await(me);
        if !resumed {
          return;
        }
        if writer == None {
          LastState();
          AddressesDiffer(states, labels);
          var unmatched;
          matching, unmatched := MatchTables(active, pubkeys);
          matched, at := unmatched == {}, |labels|;
          assert matched ==> pubkeys - unmatched == pubkeys;
        }
      }
    }

    /** Waits until all keys are in local tables and those tables are finalized with them. The
        answer covers the request: each key is assigned to exactly one returned table, which was
        active with the key in it when it was chosen, and whose finalized contents list the key.
        There is no answer only if the caller went away or the accounts could not be fetched. */
    method TryGetActiveAddressLookupTableAccounts(me: TaskId, pubkeys: set<Pubkey>)
      returns (answer: Option<map<Address, seq<Pubkey>>>, matching: map<Address, set<Pubkey>>, ghost at: nat)
      requires Valid()
      modifies this
      ensures Valid() && Grew(old(states), old(labels))
      ensures answer.Some? ==> Partitions(matching, pubkeys) && answer.value.Keys == matching.Keys
      ensures answer.Some? ==> |old(labels)| <= at < |states|
      ensures answer.Some? ==> Served(states[at].active, |states[at].active|, matching)
      ensures answer.Some? ==> forall a, k :: a in matching && k in matching[a] ==> k in answer.value[a]
      ensures answer.Some? ==> forall a :: a in answer.value ==> a in chain && answer.value[a] <= chain[a].keys
      ensures answer == None ==> patience == 0 || SomeFetchFailed(old(requests), requests)
    {
      hide Next;
      hide IsRun;
      hide Partitions;
      hide Served;
      answer := None;
      var matched;
      matched, matching, at := MatchLocally(me, pubkeys);
      if !matched {
        return;
      }
      while true
        invariant Valid() && Grew(old(states), old(labels)) && old(requests) <= requests
        invariant Partitions(matching, pubkeys)
        invariant |old(labels)| <= at < |states| && Served(states[at].active, |states[at].active|, matching)
        decreases patience
      {
        var resumed, remote := FetchFinalized(me, matching.Keys);
        if !resumed || remote == None {
          return;
        }
        var ready := AllMatchesAreRemote(matching, remote.value);
        if ready {
          answer := remote;
          return;
        }
      }
    }

    // ----- garbage collector

    /** While the collector holds the lock of the released tables nobody else touches them. */
    method InterfereOutside(holding: bool)
      requires Valid()
      modifies this
      ensures Valid() && Grew(old(states), old(labels)) && patience == old(patience) && requests == old(requests)
      ensures forall i :: |old(labels)| <= i < |labels| ==> !labels[i].Collecting?
      ensures holding ==> forall i :: |old(labels)| <= i < |labels| ==> !TouchesReleased(labels[i])
    {
    }

    method AwaitCollector(holding: bool)
      requires Valid()
      modifies this
      ensures Valid() && Grew(old(states), old(labels))
      ensures KeptForCollector(old(Now()), Now())
      ensures holding ==> released == old(released)
    {
      ghost var n := |states| - 1;
      InterfereOutside(holding);
      CollectorRely(states, labels, n);
    }

    /** `slot` is what the outside world answered, as far as the chain had got in one of `since`. */
    ghost predicate Observed(since: seq<State>, slot: Option<nat>) {
      match slot
      case None => exists n :: script(n).slot == None
      case Some(v) =>
        exists n, i :: 0 <= i < |since| && script(n).slot.Some? && v == Min(script(n).slot.value, since[i].clock)
    }

    /** A slot the chain has reached, if it answers. */
    method ObserveSlot(holding: bool) returns (slot: Option<nat>)
      requires Valid()
      modifies this
      ensures Valid() && Grew(old(states), old(labels))
      ensures KeptForCollector(old(Now()), Now())
      ensures holding ==> released == old(released)
      ensures slot.Some? ==> slot.value <= clock
      ensures Observed(states[|old(labels)|..], slot)
    {
      var reply := script(requests);
      requests := requests + 1;
      AwaitCollector(holding);
      LastState();
      assert states[|old(labels)|..][|labels| - |old(labels)|].clock == clock;
      slot := match reply.slot case None => None case Some(n) => Some(Min(n, clock));
    }

    method SubmitRetiring(i: nat, tx: Tx, ghost act: CollectAct) returns (x: TxId)
      requires Valid() && i < |released|
      requires CollectNext(Now(), act, Sent(Now(), tx))
      modifies this
      ensures Valid() && Grew(old(states), old(labels)) && released == old(released) && clock == old(clock)
      ensures x < |sent| && sent[x] == tx && x in flight
      ensures KeptForCollector(old(Now()), Now())
    {
      x := |sent|;
      sent, flight := sent + [tx], flight + {x};
      Did(Collecting(act));
    }

    /** The transaction lands or not; the collector learns whether it is confirmed. */
    method SendRetiring(x: TxId) returns (confirmed: bool)
      requires Valid() && x < |sent| && x in flight
      modifies this
      ensures Valid() && Grew(old(states), old(labels)) && released == old(released)
      ensures KeptForCollector(old(Now()), Now())
      ensures confirmed ==> x in landed
    {
      var reply := script(requests);
      requests := requests + 1;
      ghost var before := Now();
      if reply.lands {
        LandTransaction(x);
      }
      ghost var between := Now();
      AwaitCollector(true);
      KeptForCollectorTwice(before, between, Now());
      confirmed := reply.failure == None && x in landed;
    }

    method MarkDeactivated(i: nat, x: TxId, slot: nat)
      requires Valid() && i < |released| && released[i].Active? && slot <= clock
      requires x < |sent| && x in landed && sent[x] == DeactivateTx(released[i].address)
      modifies this
      ensures Valid() && Grew(old(states), old(labels)) && chain == old(chain)
      ensures sent == old(sent) && landed == old(landed) && clock == old(clock)
      ensures released == old(released)[i := Deactivated(old(released[i].address), slot)]
    {
      released := released[i := Deactivated(released[i].address, slot)];
      Did(Collecting(LDeactivate(i, x, slot)));
    }

    /** An error leaves the table as it was. */
    method DeactivateTable(i: nat)
      requires Valid() && i < |released| && released[i].Active?
      modifies this
      ensures Valid() && Grew(old(states), old(labels)) && Later(old(Now()), Now())
      ensures |released| == |old(released)| && released == old(released)[i := released[i]]
      ensures Attended(Now(), old(released)[i], released[i])
    {
      hide IsRun;
      ghost var before := released;
      var x := SubmitRetiring(i, DeactivateTx(released[i].address), LSendDeactivate(i));
      var confirmed := SendRetiring(x);
      assert sent[x] == DeactivateTx(before[i].address);
      if confirmed {
        var slot := ObserveSlot(true);
        assert sent[x] == DeactivateTx(before[i].address) && x in landed;
        if slot.Some? {
          MarkDeactivated(i, x, slot.value);
        }
      }
    }

    lemma AsItWas(s: State, t: Table)
      requires t.Deactivated?
      ensures Attended(s, t, t)
    {
    }

    /** Asks the chain to deactivate every released table that is not yet, in the list as it was when
        its lock was taken. No table leaves the list or moves, and one that is marked deactivated has
        been so on chain. */
    method DeactivateTables() returns (ghost before: seq<Table>)
      requires Valid()
      modifies this
      ensures Valid() && Grew(old(states), old(labels)) && old(released) <= before
      ensures AttendedTo(Now(), before, |before|)
      ensures forall t :: t in released && t.Active? ==> !HasReservations(t)
      ensures forall t :: t in released && t.Deactivated? ==> t.address in chain && chain[t.address].status != Live
    {
      hide Next;
      hide IsRun;
      hide Attended;
      AwaitCollector(false);
      before := released;
      for i := 0 to |released|
        invariant Valid() && Grew(old(states), old(labels))
        invariant AttendedTo(Now(), before, i)
      {
        ghost var s := Now();
        assert released[i..][0] == before[i..][0];
        if released[i].Active? {
          DeactivateTable(i);
        } else {
          AsItWas(s, before[i]);
        }
        AttendedOneMore(s, Now(), before, i);
      }
      ReleasedFacts(states, labels);
    }

    /** Closing is attempted only after the table cooled down, and believed only when its account
        is gone. */
    method Close(i: nat, latest: nat) returns (closed: bool)
      requires Valid() && i < |released| && released[i].Deactivated? && latest <= clock
      modifies this
      ensures Valid() && Grew(old(states), old(labels)) && released == old(released)
      ensures KeptForCollector(old(Now()), Now())
      ensures closed ==> Gone(chain, clock, released[i], latest)
      ensures CooledDown(released[i], latest) ==> CloseTx(released[i].address) in sent
    {
      hide IsRun;
      closed := false;
      if released[i].deactivationSlot + MAX_ENTRIES <= latest {
        ghost var s0 := Now();
        var x := SubmitRetiring(i, CloseTx(released[i].address), LSendClose(i, latest));
        ghost var s1 := Now();
        var confirmed := SendRetiring(x);
        KeptForCollectorTwice(s0, s1, Now());
        var reply := script(requests);
        requests := requests + 1;
        ghost var s2 := Now();
        AwaitCollector(true);
        KeptForCollectorTwice(s0, s2, Now());
        assert sent[x] == CloseTx(released[i].address);
        closed := reply.failure == None && released[i].address in chain && chain[released[i].address].status == Closed;
      }
    }

    method ForgetTable(i: nat, latest: nat)
      requires Valid() && i < |released| && Gone(chain, clock, released[i], latest)
      modifies this
      ensures Valid() && Grew(old(states), old(labels)) && chain == old(chain) && clock == old(clock)
      ensures sent == old(sent)
      ensures released == old(released)[..i] + old(released)[i + 1..]
    {
      released := released[..i] + released[i + 1..];
      Did(Collecting(LForgetClosed(i, latest)));
    }

    /** Drops exactly the tables that were seen closed. */
    method ForgetClosedTables(closed: seq<Address>, latest: nat)
      requires Valid()
      requires forall t :: t in released && t.address in closed ==> Gone(chain, clock, t, latest)
      modifies this
      ensures Valid() && Grew(old(states), old(labels))
      ensures released == Without(old(released), closed) && chain == old(chain) && clock == old(clock)
      ensures sent == old(sent)
      ensures forall t :: t in released ==> t.address !in closed
    {
      hide IsRun;
      hide Gone;
      hide Next;
      hide Without;
      var i := 0;
      while i < |released|
        invariant Valid() && Grew(old(states), old(labels)) && i <= |released|
        invariant chain == old(chain) && clock == old(clock) && sent == old(sent)
        invariant forall t :: t in released && t.address in closed ==> Gone(chain, clock, t, latest)
        invariant released[..i] + Without(released[i..], closed) == Without(old(released), closed)
        decreases |released| - i
      {
        WithoutStep(released, i, closed);
        if released[i].address in closed {
          ghost var before := released;
          ForgetTable(i, latest);
          assert released[i..] == before[i + 1..] && released[..i] == before[..i];
        } else {
          assert released[..i + 1] == released[..i] + [released[i]];
          i := i + 1;
        }
      }
      assert released[..i] == released && released[i..] == [];
      NothingWithout(closed);
      WithoutMembers(old(released), closed);
    }

    /** Others may have released tables meanwhile; they stay. */
    method DropClosed(closed: seq<Address>, latest: nat, ghost tables: seq<Table>) returns (ghost before: seq<Table>)
      requires Valid() && released == tables
      requires SeenGone(Now(), |tables|, closed, latest) && CloseTried(Now(), tables, |tables|, latest)
      modifies this
      ensures Valid() && Grew(old(states), old(labels)) && tables <= before
      ensures released == Without(before, closed) && CloseTried(Now(), tables, |tables|, latest)
      ensures forall t :: t in released ==> t.address !in closed
      ensures forall a :: a in closed ==> a in chain && chain[a].status == Closed
      ensures forall a :: a in closed ==>
                exists j :: 0 <= j < |tables| && tables[j].address == a && CooledDown(tables[j], latest)
    {
      hide IsRun;
      hide Next;
      hide Gone;
      hide CloseTried;
      hide Without;
      ghost var s := Now();
      AwaitCollector(false);
      before := released;
      StillGone(s, states, labels, closed, latest);
      SeenCooledDown(s, closed, latest);
      CloseTriedLater(s, Now(), tables, |tables|, latest);
      ghost var u := Now();
      ForgetClosedTables(closed, latest);
      CloseTriedLater(u, Now(), tables, |tables|, latest);
    }

    method CloseEach(latest: nat) returns (closed: seq<Address>, ghost tables: seq<Table>)
      requires Valid() && latest <= clock
      modifies this
      ensures Valid() && Grew(old(states), old(labels)) && old(released) <= tables && released == tables
      ensures SeenGone(Now(), |tables|, closed, latest) && CloseTried(Now(), tables, |tables|, latest)
    {
      hide IsRun;
      hide Next;
      hide Gone;
      hide CooledDown;
      closed := [];
      AwaitCollector(false);
      tables := released;
      for i := 0 to |released|
        invariant Valid() && Grew(old(states), old(labels)) && released == tables
        invariant SeenGone(Now(), i, closed, latest) && CloseTried(Now(), tables, i, latest)
      {
        ghost var s := Now();
        var ok := false;
        if released[i].Deactivated? {
          ok := Close(i, latest);
        } else {
          KeptForCollectorRefl(Now());
          NotCooledDown(released[i], latest);
        }
        SeenOneMore(s, Now(), i, closed, latest, ok);
        CloseTriedLater(s, Now(), tables, i, latest);
        if ok {
          closed := closed + [released[i].address];
        }
      }
    }

    /** Either no released table was deactivated in one of `since`, or the slot was asked for. */
    ghost predicate Asked(since: seq<State>, latest: Option<nat>) {
      || (latest == None && exists i :: 0 <= i < |since| && forall t :: t in since[i].released ==> t.Active?)
      || Observed(since, latest)
    }

    lemma ObservedSince(since: seq<State>, more: seq<State>, k: nat, slot: Option<nat>)
      requires Observed(since, slot) && k <= |more| && since <= more[k..]
      ensures Observed(more, slot)
    {
      if slot.Some? {
        var n, i :| 0 <= i < |since| && script(n).slot.Some? && slot.value == Min(script(n).slot.value, since[i].clock);
        assert more[k + i] == more[k..][i] == since[i];
      }
    }

    lemma AskedMore(since: seq<State>, more: seq<State>, latest: Option<nat>)
      requires Asked(since, latest) && since <= more
      ensures Asked(more, latest)
    {
      if Observed(since, latest) {
        ObservedSince(since, more, 0, latest);
      } else {
        var i :| 0 <= i < |since| && forall t :: t in since[i].released ==> t.Active?;
        assert more[i] == since[i];
      }
    }

    /** The slot is asked for only if there is something to close. */
    method LatestSlot() returns (latest: Option<nat>)
      requires Valid()
      modifies this
      ensures Valid() && Grew(old(states), old(labels)) && old(released) <= released
      ensures latest.Some? ==> latest.value <= clock
      ensures Asked(states[|old(labels)|..], latest)
    {
      hide IsRun;
      hide Next;
      LastState();
      latest := None;
      AwaitCollector(false);
      LastState();
      ghost var at := |labels|;
      if exists t :: t in released && t.Deactivated? {
        latest := ObserveSlot(false);
        ObservedSince(states[at..], states[|old(labels)|..], at - |old(labels)|, latest);
      } else {
        assert states[|old(labels)|..][at - |old(labels)|].released == released;
      }
    }

    /** Asks the chain to close the `tables` that had cooled down by the `latest` slot, and drops from
        the list, as it is `before` that, exactly those it confirmed to be gone. */
    method CloseTables()
      returns (closed: seq<Address>, latest: Option<nat>, ghost tables: seq<Table>, ghost before: seq<Table>)
      requires Valid()
      modifies this
      ensures Valid() && Grew(old(states), old(labels)) && old(released) <= tables <= before
      ensures released == Without(before, closed)
      ensures forall t :: t in released ==> t.address !in closed
      ensures latest == None ==> closed == []
      ensures Asked(states[|old(labels)|..], latest)
      ensures latest.Some? ==> CloseTried(Now(), tables, |tables|, latest.value)
      ensures forall a :: a in closed ==> a in chain && chain[a].status == Closed
      ensures latest.Some? ==> forall a :: a in closed ==>
          exists j :: 0 <= j < |tables| && tables[j].address == a && CooledDown(tables[j], latest.value)
    {
      hide IsRun;
      hide Next;
      hide Gone;
      hide CloseTried;
      hide CooledDown;
      hide SeenGone;
      hide Without;
      hide Asked;
      LastState();
      closed := [];
      latest := LatestSlot();
      ghost var since := states[|old(labels)|..];
      if latest.Some? {
        closed, tables := CloseEach(latest.value);
        before := DropClosed(closed, latest.value, tables);
      } else {
        tables, before := released, released;
        WithoutNothing(released);
      }
      AskedMore(since, states[|old(labels)|..], latest);
    }
  }
}
