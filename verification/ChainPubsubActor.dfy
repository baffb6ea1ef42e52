/** The subscription actor: its message handlers, the reconnect gate and the listeners, each
    written as the code that takes the protocol's steps while everyone else moves too. */
module ChainPubsubActorModule {
  import opened Options
  import opened PubsubProtocol
  import opened PubsubRely
  import Runs = PubsubRuns

  const DEFAULT_SUBSCRIPTION_RETRIES: nat := 5

  datatype SetupReply = Accepted | Rejected | ConnectionLost

  datatype SubscribeResult = Disconnected | AlreadySubscribed | Subscribed | Failed

  /** What a listener reads from its stream, and whether the receiver still takes it. */
  datatype Item = Update(value: nat, taken: bool) | End

  function Payload(items: nat -> Item, n: nat): seq<nat>
    decreases n
  {
    if n == 0 then [] else Payload(items, n - 1) + (match items(n - 1) case Update(v, _) => [v] case End => [])
  }

  /** How many requests a subscription may make: accounts retry, programs do not. */
  function Tries(key: Key, retries: Option<nat>): nat {
    if key.kind == Program then 1
    else 1 + (match retries case None => DEFAULT_SUBSCRIPTION_RETRIES case Some(n) => n)
  }

  method CancelEach(subs: seq<Sub>, ids: set<SubId>) returns (r: seq<Sub>)
    requires forall id :: id in ids ==> id < |subs|
    ensures r == CancelledAll(subs, ids)
  {
    r := subs;
    var left := ids;
    while left != {}
      invariant left <= ids && |r| == |subs|
      invariant forall i :: 0 <= i < |subs| ==> r[i] == if i in ids - left then subs[i].(cancelled := true) else subs[i]
      decreases |left|
    {
      var id :| id in left;
      r := r[id := r[id].(cancelled := true)];
      left := left - {id};
    }
  }

  class ChainPubsubActor {
    var entries: map<Key, SubId>
    var subs: seq<Sub>
    var connected: bool
    var pc: ActorPc
    var drains: map<DrainId, Drain>

    // Every step taken so far, by anyone.
    ghost var states: seq<State>
    ghost var labels: seq<Label>

    function Now(): State
      reads this
    {
      State(entries, subs, connected, pc, drains)
    }

    ghost predicate Valid()
      reads this
    {
      IsRun(states, labels) && Disciplined(states, labels) && states[|states| - 1] == Now()
    }

    /** The position of the present state. */
    ghost function Latest(): nat
      requires Valid()
      reads this
    {
      |states| - 1
    }

    ghost predicate Grew(st: seq<State>, lb: seq<Label>)
      reads this
    {
      st <= states && lb <= labels
    }

    constructor ()
      ensures Valid() && Init(Now())
    {
      entries, subs, connected, pc, drains := map[], [], true, Idle, map[];
      new;
      states, labels := [Now()], [];
    }

    /** Records a step that the fields have just taken. */
    ghost method Did(l: Label)
      requires IsRun(states, labels) && Disciplined(states, labels) && Next(states[|states| - 1], l, Now())
      requires l.LStartReconnect? ==> MayReconnect(states[|states| - 1])
      modifies this`states, this`labels
      ensures Valid()
      ensures states == old(states) + [Now()] && labels == old(labels) + [l]
    {
      states, labels := states + [Now()], labels + [l];
    }

    lemma LastState()
      requires Valid()
      ensures |states| == |labels| + 1 && states[|labels|] == Now()
    {
    }

    lemma Invariant()
      requires Valid()
      ensures Runs.Inv(Now())
    {
      Runs.EveryState(states, labels, |labels|);
    }

    /** Everyone else gets to move; the message task resumes its caller between messages. */
    method Interfere(me: Party)
      requires Valid()
      modifies this
      ensures Valid() && OthersMoved(old(states), old(labels), states, labels, me)
      ensures !me.Listener? ==> pc == old(pc)
    {
    }

    method Await(me: Party)
      requires Valid()
      modifies this
      ensures Valid() && Grew(old(states), old(labels))
      ensures Kept(old(Now()), Now(), me)
      ensures !me.Listener? ==> pc == old(pc)
    {
      hide Next;
      hide Kept;
      ghost var n := |labels|;
      Interfere(me);
      Rely(states, labels, n, me);
    }

    /** A subscription's own phase waits for it. */
    method AwaitPhase(me: Party)
      requires Valid() && ((me.Handler? || me.Listener?) && me.id < |subs|)
      modifies this
      ensures Valid() && Grew(old(states), old(labels)) && Onward(old(Now()), Now())
      ensures me.id < |subs| && subs[me.id].phase == old(subs[me.id].phase)
      ensures !me.Listener? ==> pc == old(pc)
    {
      hide Next;
      hide IsRun;
      Await(me);
    }

    // ----- aborting

    lemma EntryIdsInRange(s: State, kind: Kind)
      requires Runs.Inv(s)
      ensures forall id :: id in EntryIds(s, kind) ==> id < |s.subs|
      ensures forall id: SubId :: InUse(s, id) && s.subs[id].key.kind == kind ==> id in EntryIds(s, kind)
    {
      forall id | id in EntryIds(s, kind) ensures id < |s.subs| {
        var k :| k in s.entries && k.kind == kind && s.entries[k] == id;
        assert Runs.EntryOk(s, k);
      }
      forall id: SubId | InUse(s, id) && s.subs[id].key.kind == kind ensures id in EntryIds(s, kind) {
        assert Runs.OwnsEntry(s, id);
      }
    }

    /** Cancels all of one map, under its lock. */
    method CancelSubscriptions(kind: Kind)
      requires Valid()
      modifies this
      ensures Valid() && Grew(old(states), old(labels))
      ensures Now() == old(Now()).(subs := CancelledAll(old(subs), EntryIds(old(Now()), kind)))
    {
      Invariant();
      EntryIdsInRange(Now(), kind);
      subs := CancelEach(subs, EntryIds(Now(), kind));
      Did(LCancelEntries(kind));
    }

    method AbortMap(me: Party, kind: Kind)
      requires Valid()
      modifies this
      ensures Valid() && Grew(old(states), old(labels))
      ensures Kept(old(Now()), Now(), me) && (!me.Listener? ==> pc == old(pc))
      ensures forall id: SubId :: InUse(Now(), id) && id < |old(subs)| && subs[id].key.kind == kind ==>
                subs[id].cancelled
    {
      Await(me);
      ghost var s := Now();
      Invariant();
      EntryIdsInRange(s, kind);
      CancelSubscriptions(kind);
      assert Kept(s, Now(), me);
      KeptTwice(old(Now()), s, Now(), me);
    }

    lemma DisconnectStep(s: State, s': State)
      requires s' == s.(connected := false)
      ensures Next(s, LDisconnect, s')
    {
    }

    /** Only the first to notice aborts. An abort that takes effect cancels whatever was in use
        before it and still is, and leaves all entries in place. */
    method AbortAndSignalConnectionIssue(me: Party) returns (aborted: bool)
      requires Valid()
      modifies this
      ensures Valid() && Grew(old(states), old(labels))
      ensures Kept(old(Now()), Now(), me) && (!me.Listener? ==> pc == old(pc))
      ensures aborted == old(connected)
      ensures me.Synchronous? ==> !connected
      ensures aborted ==> forall id: SubId :: InUse(Now(), id) && id < |old(subs)| ==> subs[id].cancelled
    {
      hide Next;
      aborted := connected;
      connected := false;
      assert Next(states[|states| - 1], LDisconnect, Now()) by {
        DisconnectStep(states[|states| - 1], Now());
      }
      Did(LDisconnect);
      ghost var s := Now();
      if aborted {
        AbortMap(me, Account);
        ghost var t := Now();
        AbortMap(me, Program);
        KeptTwice(s, t, Now(), me);
      }
    }

    // ----- subscribing

    /** The entry is put in before the request goes out, unless the key has one. */
    method InsertEntry(key: Key) returns (inserted: bool)
      requires Valid() && pc == Inserting(key)
      modifies this
      ensures Valid() && Grew(old(states), old(labels)) && pc == Idle
      ensures inserted <==> key !in old(entries)
      ensures inserted ==> subs == old(subs) + [Sub(key, Setup, false)]
      ensures !inserted ==> key in entries && InUse(Now(), entries[key]) && Now() == old(Now()).(pc := Idle)
    {
      Invariant();
      if key in entries {
        assert Runs.EntryOk(Now(), key);
      }
      if key in entries && !(key.kind == Account && subs[entries[key]].phase == Done) {
        inserted := false;
      } else {
        entries, subs := entries[key := |subs|], subs + [Sub(key, Setup, false)];
        inserted := true;
      }
      pc := Idle;
      Did(LInsert);
    }

    lemma OnwardTwice(s: State, s': State, s'': State)
      requires Onward(s, s') && Onward(s', s'')
      ensures Onward(s, s'')
    {
    }

    /** Asks until the request is accepted, the tries are used up or the subscription is
        cancelled. The entry stays in the map meanwhile. */
    method RequestSubscription(id: SubId, tries: nat, replies: nat -> SetupReply) returns (attempts: nat)
      requires Valid() && pc == Idle && id < |subs| && subs[id].phase == Setup && tries > 0
      modifies this
      ensures Valid() && Grew(old(states), old(labels)) && pc == Idle
      ensures Onward(old(Now()), Now()) && id < |subs| && subs[id].phase == Setup
      ensures 1 <= attempts <= tries
      ensures forall n :: 0 <= n < attempts - 1 ==> replies(n) != Accepted
      ensures replies(attempts - 1) == Accepted || attempts == tries || subs[id].cancelled
    {
      attempts := 1;
      AwaitPhase(Handler(id));
      while replies(attempts - 1) != Accepted && attempts < tries && !subs[id].cancelled
        invariant Valid() && Grew(old(states), old(labels)) && pc == Idle
        invariant Onward(old(Now()), Now()) && id < |subs| && subs[id].phase == Setup
        invariant 1 <= attempts <= tries
        invariant forall n :: 0 <= n < attempts - 1 ==> replies(n) != Accepted
        decreases tries - attempts
      {
        ghost var s := Now();
        AwaitPhase(Handler(id));
        OnwardTwice(old(Now()), s, Now());
        attempts := attempts + 1;
      }
    }

    method RemoveFailed(id: SubId)
      requires Valid() && pc == Idle && id < |subs| && subs[id].phase == Setup
      modifies this
      ensures Valid() && Grew(old(states), old(labels)) && pc == Idle && connected == old(connected)
      ensures Onward(old(Now()), Now()) && id < |subs| && subs[id].phase == Removed
    {
      entries, subs := entries - {subs[id].key}, WithPhase(subs, id, Removed);
      Did(LSetupFailed(id));
    }

    method SignalCompletion(id: SubId)
      requires Valid() && id < |subs| && subs[id].phase == Removed
      modifies this
      ensures Valid() && Grew(old(states), old(labels)) && pc == old(pc) && connected == old(connected)
      ensures Onward(old(Now()), Now()) && id < |subs| && subs[id].phase == Done
    {
      subs := WithPhase(subs, id, Done);
      Did(LComplete(id));
    }

    /** Out of the map first, completion signalled last. */
    method GiveUpSetup(id: SubId)
      requires Valid() && pc == Idle && id < |subs| && subs[id].phase == Setup
      modifies this
      ensures Valid() && Grew(old(states), old(labels)) && pc == Idle && (!old(connected) ==> !connected)
      ensures Onward(old(Now()), Now()) && id < |subs| && subs[id].phase == Done
    {
      hide Next;
      hide IsRun;
      RemoveFailed(id);
      ghost var s := Now();
      Await(Synchronous(Some(id)));
      OnwardTwice(old(Now()), s, Now());
      ghost var u := Now();
      SignalCompletion(id);
      OnwardTwice(old(Now()), u, Now());
    }

    /** The request is over: either the stream is handed to a listener, or nothing is left. */
    method ConcludeSetup(id: SubId, reply: SetupReply)
      requires Valid() && pc == Idle && id < |subs| && subs[id].phase == Setup
      modifies this
      ensures Valid() && Grew(old(states), old(labels)) && pc == Idle
      ensures Onward(old(Now()), Now()) && id < |subs|
      ensures reply == Accepted ==> subs[id].phase == Live && subs[id].key in entries && entries[subs[id].key] == id
      ensures reply != Accepted ==> subs[id].phase == Done
      ensures reply == ConnectionLost || (reply == Rejected && old(subs)[id].key.kind == Program) ==> !connected
    {
      if reply == Accepted {
        subs := WithPhase(subs, id, Live);
        Did(LSetupOk(id));
        Invariant();
        assert Runs.OwnsEntry(Now(), id);
      } else {
        if reply == ConnectionLost || subs[id].key.kind == Program {
          var _ := AbortAndSignalConnectionIssue(Synchronous(Some(id)));
        }
        ghost var s := Now();
        GiveUpSetup(id);
        OnwardTwice(old(Now()), s, Now());
      }
    }

    /** What a request for `id` that was made `attempts` times has come to. */
    ghost predicate Settled(id: SubId, key: Key, tries: nat, attempts: nat, replies: nat -> SetupReply)
      reads this
    {
      && id < |subs| && subs[id].key == key
      && 1 <= attempts <= tries
      && (forall n :: 0 <= n < attempts - 1 ==> replies(n) != Accepted)
      && if replies(attempts - 1) == Accepted
         then subs[id].phase == Live && key in entries && entries[key] == id
         else
           && subs[id].phase == Done
           && (attempts == tries || subs[id].cancelled)
           && (replies(attempts - 1) == ConnectionLost || key.kind == Program ==> !connected)
    }

    method Request(id: SubId, key: Key, tries: nat, replies: nat -> SetupReply) returns (attempts: nat)
      requires Valid() && pc == Idle && id < |subs| && subs[id] == Sub(key, Setup, false) && tries > 0
      modifies this
      ensures Valid() && Grew(old(states), old(labels)) && pc == Idle
      ensures Settled(id, key, tries, attempts, replies)
    {
      hide Next;
      hide IsRun;
      attempts := RequestSubscription(id, tries, replies);
      ConcludeSetup(id, replies(attempts - 1));
    }

    method Check(key: Key)
      requires Valid() && pc == Idle && connected
      modifies this
      ensures Valid() && Grew(old(states), old(labels)) && Now() == old(Now()).(pc := Inserting(key))
    {
      pc := Inserting(key);
      Did(LCheckConnected(key));
    }

    /** Subscribing to an account or a program. A request that is made ends with a live listener
        that owns the entry of its key, or with nothing left of it. */
    method Subscribe(key: Key, retries: Option<nat>, replies: nat -> SetupReply)
      returns (result: SubscribeResult, attempts: nat, ghost id: SubId, ghost at: nat)
      requires Valid() && pc == Idle
      modifies this
      ensures Valid() && Grew(old(states), old(labels)) && pc == Idle && at < |states|
      ensures result == Disconnected <==> !old(connected)
      ensures result == Disconnected ==> Now() == old(Now())
      ensures result == AlreadySubscribed ==>
          |old(labels)| <= at && key in states[at].entries && InUse(states[at], states[at].entries[key])
      ensures result == Subscribed || result == Failed ==> Settled(id, key, Tries(key, retries), attempts, replies)
      ensures result == Subscribed ==> replies(attempts - 1) == Accepted
      ensures result == Failed ==> replies(attempts - 1) != Accepted
    {
      hide Next;
      hide IsRun;
      hide Disciplined;
      hide Onward;
      attempts, id, at := 0, 0, |labels|;
      LastState();
      if !connected {
        return Disconnected, attempts, id, at;
      }
      Check(key);
      Await(Synchronous(None));
      var inserted := InsertEntry(key);
      if !inserted {
        at := |labels|;
        LastState();
        return AlreadySubscribed, attempts, id, at;
      }
      var sub := |subs| - 1;
      id := sub;
      attempts := Request(sub, key, Tries(key, retries), replies);
      result := if replies(attempts - 1) == Accepted then Subscribed else Failed;
    }

    /** Only asks an account's listener to stop; its entry stays until the listener has cleaned up. */
    method Unsubscribe(pubkey: nat) returns (result: Option<bool>)
      requires Valid() && pc == Idle
      modifies this
      ensures Valid() && Grew(old(states), old(labels)) && entries == old(entries) && pc == Idle
      ensures result == None <==> !old(connected)
      ensures result.Some? ==> result.value == (Key(Account, pubkey) in entries)
      ensures result == Some(true) ==>
                entries[Key(Account, pubkey)] < |subs| && subs[entries[Key(Account, pubkey)]].cancelled
      ensures Kept(old(Now()), Now(), Reconnector)
    {
      if !connected {
        return None;
      }
      var key := Key(Account, pubkey);
      if key in entries {
        Invariant();
        assert Runs.EntryOk(Now(), key);
        subs := CancelEach(subs, {entries[key]});
        Did(LUnsubscribe(key));
        return Some(true);
      }
      return Some(false);
    }

    // ----- reconnecting

    method SnapshotAccounts(r: DrainId) returns (accounts: set<SubId>)
      requires Valid() && pc == Idle && MayReconnect(Now())
      modifies this
      ensures Valid() && Grew(old(states), old(labels))
      ensures Now() == old(Now()).(pc := Snapshotting(r, accounts)) && accounts == EntryIds(old(Now()), Account)
    {
      accounts := EntryIds(Now(), Account);
      pc := Snapshotting(r, accounts);
      Did(LStartReconnect(r));
    }

    method CancelSnapshots() returns (ids: set<SubId>)
      requires Valid() && pc.Snapshotting? && drains == map[] && !connected
      modifies this
      ensures Valid() && Grew(old(states), old(labels)) && pc == Idle && !connected
      ensures Onward(old(Now()), Now()) && drains == map[old(pc).drain := Draining(AllWaiting(ids))]
    {
      Invariant();
      EntryIdsInRange(Now(), Program);
      var r := pc.drain;
      ids := pc.accounts + EntryIds(Now(), Program);
      subs := CancelEach(subs, ids);
      pc, drains := Idle, drains[r := Draining(AllWaiting(ids))];
      Did(LStartDrain);
    }

    /** Both maps are read and everything found is cancelled, before anyone is waited for. */
    method Snapshot(r: DrainId) returns (ids: set<SubId>)
      requires Valid() && pc == Idle && MayReconnect(Now())
      modifies this
      ensures Valid() && Grew(old(states), old(labels)) && pc == Idle && !connected
      ensures Onward(old(Now()), Now()) && drains == map[r := Draining(AllWaiting(ids))]
    {
      hide Next;
      hide IsRun;
      var _ := SnapshotAccounts(r);
      Await(Synchronous(None));
      ghost var s := Now();
      ids := CancelSnapshots();
      OnwardTwice(old(Now()), s, Now());
    }

    method EndWait(r: DrainId, id: SubId) returns (ok: bool)
      requires Valid() && pc == Idle && WaitsFor(Now(), r, id, Waiting) && id < |subs|
      modifies this
      ensures Valid() && Grew(old(states), old(labels)) && pc == Idle
      ensures ok <==> old(subs)[id].phase == Done
      ensures Onward(old(Now()), Now())
      ensures Now() == old(Now()).(
          entries := if ok then old(entries) - {old(subs)[id].key} else old(entries),
          drains := old(drains)[r := Draining(old(drains)[r].waits[id := if ok then Finished else TimedOut])])
    {
      ok := subs[id].phase == Done;
      var waits := drains[r].waits;
      if ok {
        entries, drains := entries - {subs[id].key}, drains[r := Draining(waits[id := Finished])];
        Did(LWaitFinished(r, id));
      } else {
        drains := drains[r := Draining(waits[id := TimedOut])];
        Did(LWaitTimedOut(r, id));
      }
    }

    /** Of the one drain under way, `left` is still waited for; `ok` unless a wait timed out. */
    ghost predicate Awaits(r: DrainId, left: set<SubId>, ok: bool)
      reads this
    {
      && pc == Idle && !connected && drains.Keys == {r} && drains[r].Draining?
      && (forall id :: id in left <==> id in drains[r].waits && drains[r].waits[id] == Waiting)
      && (!ok <==> exists id :: id in drains[r].waits && drains[r].waits[id] == TimedOut)
    }

    lemma WaitInRange(r: DrainId, id: SubId)
      requires Valid() && WaitsFor(Now(), r, id, Waiting)
      ensures id < |subs|
    {
      Invariant();
      assert Runs.DrainOk(Now(), r);
    }

    method WaitForOne(r: DrainId, id: SubId, ghost left: set<SubId>, before: bool) returns (ok: bool)
      requires Valid() && Awaits(r, left, before) && id in left
      modifies this
      ensures Valid() && Grew(old(states), old(labels)) && Awaits(r, left - {id}, ok) && Onward(old(Now()), Now())
    {
      hide Next;
      hide Onward;
      hide IsRun;
      Await(Reconnector);
      ghost var u := Now();
      ghost var waits := drains[r].waits;
      WaitInRange(r, id);
      var done := EndWait(r, id);
      ok := before && done;
      assert !done ==> drains[r].waits[id] == TimedOut;
      assert forall x :: x in waits && x != id ==> x in drains[r].waits && drains[r].waits[x] == waits[x];
      OnwardTwice(old(Now()), u, Now());
    }

    method FinishDrainStep(r: DrainId, ok: bool)
      requires Valid() && pc == Idle && !connected && drains.Keys == {r} && drains[r].Draining?
      requires forall id :: id in drains[r].waits ==> drains[r].waits[id] != Waiting
      requires !ok <==> exists id :: id in drains[r].waits && drains[r].waits[id] == TimedOut
      modifies this
      ensures Valid() && Grew(old(states), old(labels))
      ensures Now() == old(Now()).(drains := if ok then map[r := Reconnecting] else map[])
      ensures Onward(old(Now()), Now())
      ensures ok ==> forall id :: !InUse(Now(), id)
    {
      assert drains - {r} == map[] && drains[r := Reconnecting] == map[r := Reconnecting];
      drains := if ok then map[r := Reconnecting] else map[];
      Did(LFinishDrain(r));
      Invariant();
      assert ok ==> Runs.DrainOk(Now(), r);
    }

    /** Cancels all subscriptions and waits for each until it is done or its time is up. Without
        a timeout nothing is in use any more. */
    method DrainAndWait(r: DrainId) returns (ok: bool)
      requires Valid() && pc == Idle && MayReconnect(Now())
      modifies this
      ensures Valid() && Grew(old(states), old(labels)) && pc == Idle && !connected
      ensures Onward(old(Now()), Now())
      ensures drains == if ok then map[r := Reconnecting] else map[]
      ensures ok ==> forall id :: !InUse(Now(), id)
    {
      hide Next;
      hide IsRun;
      hide Onward;
      var left := Snapshot(r);
      ok := true;
      while left != {}
        invariant Valid() && Grew(old(states), old(labels)) && Awaits(r, left, ok)
        invariant Onward(old(Now()), Now())
        decreases |left|
      {
        ghost var s := Now();
        var id :| id in left;
        ok := WaitForOne(r, id, left, ok);
        left := left - {id};
        OnwardTwice(old(Now()), s, Now());
      }
      ghost var s := Now();
      FinishDrainStep(r, ok);
      OnwardTwice(old(Now()), s, Now());
    }

    /** Drops the pooled connections and makes a new one. No stream made from the old ones may be
        in use when it is entered, and none comes into use while it runs. */
    method PoolReconnect(r: DrainId, succeeds: bool) returns (ok: bool)
      requires Valid() && pc == Idle && !connected && drains == map[r := Reconnecting]
      requires forall id :: !InUse(Now(), id)
      modifies this
      ensures Valid() && Grew(old(states), old(labels)) && Kept(old(Now()), Now(), Reconnector) && pc == Idle
      ensures ok == succeeds && forall id :: !InUse(Now(), id)
    {
      Await(Reconnector);
      Invariant();
      assert Runs.DrainOk(Now(), r);
      ok := succeeds;
    }

    method EndReconnect(r: DrainId, ok: bool)
      requires Valid() && pc == Idle && !connected && drains == map[r := Reconnecting]
      modifies this
      ensures Valid() && Grew(old(states), old(labels))
      ensures Now() == old(Now()).(connected := ok, drains := map[]) && Onward(old(Now()), Now())
      ensures forall id :: InUse(Now(), id) ==> InUse(old(Now()), id)
    {
      assert drains - {r} == map[];
      connected, drains := ok, map[];
      Did(if ok then LReconnectOk(r) else LReconnectError(r));
    }

    method Verify(r: DrainId)
      requires Valid() && pc == Idle && !connected && drains == map[r := Reconnecting]
      modifies this
      ensures Valid() && Grew(old(states), old(labels)) && Kept(old(Now()), Now(), Reconnector) && pc == Idle
      ensures forall id :: !InUse(Now(), id)
    {
      Await(Reconnector);
      Invariant();
      assert Runs.DrainOk(Now(), r);
    }

    /** Drain, reconnect, verify with one subscription, and only then count as connected. */
    method TryReconnect(r: DrainId, poolSucceeds: bool, verifySucceeds: bool) returns (ok: bool)
      requires Valid() && pc == Idle && MayReconnect(Now())
      modifies this
      ensures Valid() && Grew(old(states), old(labels)) && pc == Idle
      ensures connected == ok && drains == map[]
      ensures ok ==> poolSucceeds && verifySucceeds
      ensures Onward(old(Now()), Now())
      ensures ok ==> forall id :: !InUse(Now(), id)
    {
      hide Next;
      hide IsRun;
      ok := DrainAndWait(r);
      if ok {
        ghost var s := Now();
        ok := PoolReconnect(r, poolSucceeds);
        OnwardTwice(old(Now()), s, Now());
        if ok {
          ghost var u := Now();
          Verify(r);
          OnwardTwice(old(Now()), u, Now());
          ok := verifySucceeds;
        }
        ghost var v := Now();
        EndReconnect(r, ok);
        OnwardTwice(old(Now()), v, Now());
      }
    }

    // ----- listening

    method DropAndUnsubscribe(id: SubId)
      requires Valid() && id < |subs| && subs[id].phase == Live
      modifies this
      ensures Valid() && Grew(old(states), old(labels)) && id < |subs| && subs[id].phase == Dropped
    {
      subs := WithPhase(subs, id, Dropped);
      Did(LDropStream(id));
      AwaitPhase(Listener(id));
    }

    method RemoveAfterDrop(id: SubId)
      requires Valid() && id < |subs| && subs[id].phase == Dropped
      modifies this
      ensures Valid() && Grew(old(states), old(labels)) && id < |subs| && subs[id].phase == Removed
      ensures subs[id].key !in entries
    {
      entries, subs := entries - {subs[id].key}, WithPhase(subs, id, Removed);
      Did(LRemoveEntry(id));
    }

    /** The stream is dropped before the entry is removed, and the entry before completion is
        signalled. */
    method CleanUp(id: SubId)
      requires Valid() && id < |subs| && subs[id].phase == Live
      modifies this
      ensures Valid() && Grew(old(states), old(labels)) && id < |subs| && subs[id].phase == Done
    {
      hide Next;
      hide IsRun;
      hide Onward;
      DropAndUnsubscribe(id);
      RemoveAfterDrop(id);
      AwaitPhase(Listener(id));
      SignalCompletion(id);
    }

    method AbortFromListener(id: SubId) returns (aborted: bool)
      requires Valid() && id < |subs| && subs[id].phase == Live
      modifies this
      ensures Valid() && Grew(old(states), old(labels)) && id < |subs| && subs[id].phase == Live
      ensures aborted == old(connected)
    {
      hide Next;
      hide IsRun;
      aborted := AbortAndSignalConnectionIssue(Listener(id));
    }

    /** Relays the stream in order until it is cancelled, ends or loses its receiver, whichever is
        the case `at` the moment it stops reading; an ended stream aborts the connection, if nobody
        did so before. */
    method Listen(id: SubId, items: nat -> Item, length: nat)
      returns (relayed: seq<nat>, read: nat, aborted: bool, ghost at: nat)
      requires Valid() && id < |subs| && subs[id].phase == Live
      requires items(length) == End
      modifies this
      ensures Valid() && Grew(old(states), old(labels)) && id < |subs| && subs[id].phase == Done
      ensures read <= length && relayed == Payload(items, read)
      ensures |old(states)| <= at + 1 && at < |states| && id < |states[at].subs|
      ensures states[at].subs[id].cancelled || items(read) == End || !items(read).taken
      ensures aborted <==> !states[at].subs[id].cancelled && items(read) == End && states[at].connected
    {
      hide Next;
      hide IsRun;
      hide Onward;
      relayed, read, aborted := [], 0, false;
      AwaitPhase(Listener(id));
      while !subs[id].cancelled && items(read).Update? && items(read).taken
        invariant Valid() && Grew(old(states), old(labels)) && id < |subs| && subs[id].phase == Live
        invariant read <= length && relayed == Payload(items, read)
        decreases length - read
      {
        relayed := relayed + [items(read).value];
        read := read + 1;
        AwaitPhase(Listener(id));
      }
      at := Latest();
      if !subs[id].cancelled && items(read) == End {
        aborted := AbortFromListener(id);
      }
      CleanUp(id);
    }
  }
}
