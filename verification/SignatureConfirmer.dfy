/** The confirmer's own code, taking the protocol's steps while all others move too. */
module SignatureConfirmerModule {
  import opened Options
  import opened ConfirmerProtocol
  import Runs = ConfirmerRuns

  const DEFAULT_SIGNATURE_STATUS_BATCH_SIZE: nat := 256

  // ----- what a party may count on

  datatype Party = CallerOf(id: WaiterId) | Worker(id: WaiterId)

  predicate Mine(me: Party, l: Label) {
    match me
    case CallerOf(id) => (l.LRegister? || l.LSpawn? || l.LExpire? || l.LTakeBack? || l.LDrop?) && l.id == id
    case Worker(id) => (l.LSpawn? || l.LWake? || l.LFetch? || l.LApply?) && l.id == id
  }

  predicate FateKept(before: Fate, after: Fate) {
    after == before || (before == Waiting && after.Answered?)
  }

  ghost predicate Kept(s: State, s': State, me: Party) {
    && s.fetched <= s'.fetched
    && match me
       case CallerOf(id) =>
         && (id in s.callers ==>
               && id in s'.callers && s'.callers[id].signature == s.callers[id].signature
               && s'.callers[id].commitment == s.callers[id].commitment
               && FateKept(s.callers[id].fate, s'.callers[id].fate))
         && (id in s.loops && s.loops[id] == Starting ==> id in s'.loops && s'.loops[id] == Starting)
       case Worker(id) => id in s.loops ==> id in s'.loops && s'.loops[id] == s.loops[id]
  }

  lemma {:induction false} AppliedFrame(s: State, statuses: seq<Fetched>)
    ensures var t := Applied(s, statuses);
            t == s.(cache := t.cache, waiters := t.waiters, callers := t.callers)
  {
    if statuses != [] {
      AppliedFrame(s, statuses[..|statuses| - 1]);
    }
  }

  lemma StepRely(s: State, l: Label, s': State, me: Party)
    requires Runs.Inv(s) && Next(s, l, s') && !Mine(me, l)
    ensures Kept(s, s', me)
  {
    if l.LApply? {
      AppliedFrame(s, s.loops[l.id].got);
      if me.CallerOf? && me.id in s.callers {
        Runs.AppliedOnward(s, s.loops[l.id].got, me.id);
      }
    } else if l.LTakeId? {
      assert s.nextId !in s.callers;
    }
  }

  lemma KeptTwice(s: State, s': State, s'': State, me: Party)
    requires Kept(s, s', me) && Kept(s', s'', me)
    ensures Kept(s, s'', me)
  {
  }

  lemma KeptRefl(s: State, me: Party)
    ensures Kept(s, s, me)
  {
  }

  predicate OthersMoved(states: seq<State>, labels: seq<Label>, states': seq<State>, labels': seq<Label>, me: Party) {
    && states <= states' && labels <= labels'
    && forall i :: |labels| <= i < |labels'| ==> !Mine(me, labels'[i])
  }

  lemma {:induction false} Rely(states: seq<State>, labels: seq<Label>, n: nat, me: Party)
    requires IsRun(states, labels) && n <= |labels|
    requires forall i :: n <= i < |labels| ==> !Mine(me, labels[i])
    ensures Kept(states[n], states[|labels|], me)
    decreases |labels| - n
  {
    hide Next;
    hide Kept;
    hide Mine;
    hide Runs.Inv;
    if n == |labels| {
      KeptRefl(states[n], me);
    } else {
      Runs.EveryState(states, labels, n);
      StepRely(states[n], labels[n], states[n + 1], me);
      Rely(states, labels, n + 1, me);
      KeptTwice(states[n], states[n + 1], states[|labels|], me);
    }
  }

  // ----- fetching in chunks

  /** What a sequence of chunk requests brings, each with its own reply. */
  function FetchedIn(todo: seq<Signature>, batch: nat, replies: nat -> Option<seq<Option<Status>>>,
                     call: nat): seq<Fetched>
    requires batch > 0
    decreases |todo|
  {
    if todo == [] then []
    else
      var n := Min(batch, |todo|);
      (if replies(call).Some? then Zip(todo[..n], replies(call).value) else [])
      + FetchedIn(todo[n..], batch, replies, call + 1)
  }

  function Lookup(chain: Signature -> Option<Status>, todo: seq<Signature>): seq<Option<Status>> {
    seq(|todo|, i requires 0 <= i < |todo| => chain(todo[i]))
  }

  /** Every request succeeds and is answered in full. */
  predicate Faithful(todo: seq<Signature>, batch: nat, replies: nat -> Option<seq<Option<Status>>>, call: nat,
                     chain: Signature -> Option<Status>)
    requires batch > 0
    decreases |todo|
  {
    todo != [] ==>
      var n := Min(batch, |todo|);
      replies(call) == Some(Lookup(chain, todo[..n])) && Faithful(todo[n..], batch, replies, call + 1, chain)
  }

  lemma {:induction false} ZipConcat(a: seq<Signature>, x: seq<Option<Status>>, b: seq<Signature>,
                                     y: seq<Option<Status>>)
    requires |a| == |x|
    ensures Zip(a + b, x + y) == Zip(a, x) + Zip(b, y)
  {
    if a == [] {
      assert a + b == b && x + y == y;
    } else {
      ZipConcat(a[1..], x[1..], b, y);
      assert (a + b)[1..] == a[1..] + b && (x + y)[1..] == x[1..] + y;
      assert (a + b)[0] == a[0] && (x + y)[0] == x[0];
    }
  }

  lemma ZipJoin(a: seq<Signature>, b: seq<Signature>, chain: Signature -> Option<Status>)
    ensures Zip(a + b, Lookup(chain, a + b)) == Zip(a, Lookup(chain, a)) + Zip(b, Lookup(chain, b))
  {
    assert Lookup(chain, a + b) == Lookup(chain, a) + Lookup(chain, b);
    ZipConcat(a, Lookup(chain, a), b, Lookup(chain, b));
  }

  /** The size of the chunks does not show: it is as if all had been asked for at once. */
  lemma {:induction false} ChunksDoNotShow(todo: seq<Signature>, batch: nat,
                                           replies: nat -> Option<seq<Option<Status>>>,
                                           call: nat, chain: Signature -> Option<Status>)
    requires batch > 0 && Faithful(todo, batch, replies, call, chain)
    ensures FetchedIn(todo, batch, replies, call) == Zip(todo, Lookup(chain, todo))
    decreases |todo|
  {
    if todo != [] {
      var n := Min(batch, |todo|);
      ChunksDoNotShow(todo[n..], batch, replies, call + 1, chain);
      ZipJoin(todo[..n], todo[n..], chain);
      assert todo[..n] + todo[n..] == todo;
      assert FetchedIn(todo, batch, replies, call)
          == Zip(todo[..n], replies(call).value) + FetchedIn(todo[n..], batch, replies, call + 1);
      hide FetchedIn;
      hide Zip;
    }
  }

  lemma {:induction false} ZipFinds(todo: seq<Signature>, chain: Signature -> Option<Status>, c: Caller)
    requires c.signature in todo && chain(c.signature).Some? && Satisfies(chain(c.signature).value, c.commitment)
    ensures Runs.ServedBy(c, Zip(todo, Lookup(chain, todo)))
  {
    var first, rest := [todo[0]], todo[1..];
    assert first + rest == todo && Lookup(chain, first)[0] == chain(todo[0]);
    ZipJoin(first, rest, chain);
    var got := Zip(todo, Lookup(chain, todo));
    if todo[0] == c.signature {
      assert got[0] == Fetched(c.signature, chain(c.signature).value);
    } else {
      ZipFinds(rest, chain, c);
      var i :| 0 <= i < |Zip(rest, Lookup(chain, rest))|
            && Zip(rest, Lookup(chain, rest))[i].signature == c.signature
            && Satisfies(Zip(rest, Lookup(chain, rest))[i].status, c.commitment);
      assert got[|got| - |Zip(rest, Lookup(chain, rest))| + i] == Zip(rest, Lookup(chain, rest))[i];
    }
  }

  /** If the chain answers, a caller whose signature is asked for gets what the chain knows, no
      matter how the requests are cut into chunks. */
  lemma FaithfulRepliesServe(todo: seq<Signature>, batch: nat, replies: nat -> Option<seq<Option<Status>>>,
                             call: nat, chain: Signature -> Option<Status>, c: Caller)
    requires batch > 0 && Faithful(todo, batch, replies, call, chain)
    requires c.signature in todo && chain(c.signature).Some? && Satisfies(chain(c.signature).value, c.commitment)
    ensures Runs.ServedBy(c, FetchedIn(todo, batch, replies, call))
  {
    ChunksDoNotShow(todo, batch, replies, call, chain);
    ZipFinds(todo, chain, c);
  }

  // ----- applying one status

  lemma DeliverOneMore(callers: map<WaiterId, Caller>, list: seq<Waiter>, i: nat, status: Status)
    requires i < |list|
    ensures var before := Deliver(callers, list[..i], status);
            Deliver(callers, list[..i + 1], status) ==
              if Satisfies(status, list[i].commitment) && list[i].id in before && before[list[i].id].fate == Waiting
              then before[list[i].id := before[list[i].id].(fate := Answered(status.result))] else before
  {
    var a, b := list[..i], list[..i + 1];
    assert b == a + [list[i]];
    forall id
      ensures IsServed(b, id, status) <==>
                IsServed(a, id, status) || (list[i].id == id && Satisfies(status, list[i].commitment))
    {
      if IsServed(a, id, status) {
        var k :| 0 <= k < |a| && a[k].id == id && Satisfies(status, a[k].commitment);
        assert b[k] == a[k];
      }
      if list[i].id == id && Satisfies(status, list[i].commitment) {
        assert b[i] == list[i];
      }
    }
  }

  lemma PendingOneMore(list: seq<Waiter>, i: nat, status: Status)
    requires i < |list|
    ensures Pending(list[..i + 1], status)
         == Pending(list[..i], status) + if Satisfies(status, list[i].commitment) then [] else [list[i]]
  {
    assert list[..i + 1][..i] == list[..i];
  }

  /** Sends the result to each waiter it satisfies and keeps the others. */
  method ServeWaiters(callers: map<WaiterId, Caller>, list: seq<Waiter>, status: Status)
    returns (callers': map<WaiterId, Caller>, pending: seq<Waiter>)
    ensures callers' == Deliver(callers, list, status) && pending == Pending(list, status)
  {
    callers', pending := callers, [];
    assert Deliver(callers, [], status) == callers;
    for i := 0 to |list|
      invariant callers' == Deliver(callers, list[..i], status) && pending == Pending(list[..i], status)
    {
      var w := list[i];
      DeliverOneMore(callers, list, i, status);
      PendingOneMore(list, i, status);
      if Satisfies(status, w.commitment) {
        if w.id in callers' && callers'[w.id].fate == Waiting {
          callers' := callers'[w.id := callers'[w.id].(fate := Answered(status.result))];
        }
      } else {
        pending := pending + [w];
      }
    }
    assert list[..|list|] == list;
  }

  lemma NothingToServe(callers: map<WaiterId, Caller>, waiters: map<Signature, seq<Waiter>>, g: Signature,
                       status: Status)
    requires g !in waiters
    ensures Deliver(callers, [], status) == callers && Store(waiters, g, []) == waiters
  {
  }

  lemma OneChunk(todo: seq<Signature>, got: seq<Fetched>, batch: nat, replies: nat -> Option<seq<Option<Status>>>,
                 call: nat)
    requires batch > 0 && todo != []
    ensures var n := Min(batch, |todo|);
            && 0 < n <= |todo|
            && got + FetchedIn(todo, batch, replies, call)
               == got + (if replies(call).Some? then Zip(todo[..n], replies(call).value) else [])
                  + FetchedIn(todo[n..], batch, replies, call + 1)
  {
    var n := Min(batch, |todo|);
    var here := if replies(call).Some? then Zip(todo[..n], replies(call).value) else [];
    var rest := FetchedIn(todo[n..], batch, replies, call + 1);
    assert FetchedIn(todo, batch, replies, call) == here + rest;
    hide FetchedIn;
    hide Zip;
    assert got + (here + rest) == got + here + rest;
  }

  lemma NoChunk(batch: nat, replies: nat -> Option<seq<Option<Status>>>, call: nat)
    requires batch > 0
    ensures FetchedIn([], batch, replies, call) == []
  {
  }

  method ToSeq(keys: set<Signature>) returns (r: seq<Signature>)
    ensures forall g :: g in r <==> g in keys
    ensures |r| == |keys|
  {
    r := [];
    var left := keys;
    while left != {}
      invariant left <= keys && forall g :: g in r <==> g in keys - left
      invariant |r| + |left| == |keys|
      decreases |left|
    {
      var g :| g in left;
      r, left := r + [g], left - {g};
    }
  }

  class SignatureConfirmer {
    var waiters: map<Signature, seq<Waiter>>
    var cache: map<Signature, Cached>
    var running: bool
    var nextId: WaiterId
    const batch: nat
    const ttl: nat

    // The tasks and the clock.
    var loops: map<WaiterId, Loop>
    var callers: map<WaiterId, Caller>
    var now: nat

    ghost var fetched: set<Fetched>
    ghost var states: seq<State>
    ghost var labels: seq<Label>

    ghost function Now(): State
      reads this
    {
      State(waiters, cache, running, loops, callers, nextId, fetched, now, ttl)
    }

    ghost predicate Valid()
      reads this
    {
      IsRun(states, labels) && states[|states| - 1] == Now() && batch > 0
    }

    ghost predicate Grew(st: seq<State>, lb: seq<Label>)
      reads this
    {
      st <= states && lb <= labels
    }

    constructor (batchSize: nat, ttl: nat)
      ensures Valid() && Init(Now())
      ensures batch == if batchSize == 0 then DEFAULT_SIGNATURE_STATUS_BATCH_SIZE else batchSize
    {
      batch := if batchSize == 0 then DEFAULT_SIGNATURE_STATUS_BATCH_SIZE else batchSize;
      this.ttl := ttl;
      waiters, cache, running, nextId, loops, callers, now, fetched := map[], map[], false, 1, map[], map[], 0, {};
      new;
      states, labels := [Now()], [];
    }

    ghost method Did(l: Label)
      requires IsRun(states, labels) && Next(states[|states| - 1], l, Now()) && batch > 0
      modifies this`states, this`labels
      ensures Valid()
      ensures states == old(states) + [Now()] && labels == old(labels) + [l]
    {
      states, labels := states + [Now()], labels + [l];
    }

    lemma Invariant()
      requires Valid()
      ensures Runs.Inv(Now())
    {
      Runs.EveryState(states, labels, |labels|);
    }

    /** Everyone else gets to move; nothing else is promised. */
    method Interfere(me: Party)
      requires Valid()
      modifies this
      ensures Valid() && OthersMoved(old(states), old(labels), states, labels, me)
    {
    }

    method Await(me: Party)
      requires Valid()
      modifies this
      ensures Valid() && Grew(old(states), old(labels)) && Kept(old(Now()), Now(), me)
    {
      hide Next;
      hide Kept;
      ghost var n := |labels|;
      Interfere(me);
      Rely(states, labels, n, me);
    }

    /** A caller's fate changes meanwhile only by an answer. */
    method AwaitCaller(id: WaiterId)
      requires Valid() && id in callers
      modifies this
      ensures Valid() && Grew(old(states), old(labels)) && id in callers
      ensures callers[id] == old(callers)[id].(fate := callers[id].fate)
      ensures FateKept(old(callers)[id].fate, callers[id].fate)
    {
      hide Next;
      hide IsRun;
      Await(CallerOf(id));
    }

    /** A worker's own progress waits for it. */
    method AwaitWorker(r: WaiterId)
      requires Valid() && r in loops
      modifies this
      ensures Valid() && Grew(old(states), old(labels)) && r in loops && loops[r] == old(loops)[r]
    {
      hide Next;
      hide IsRun;
      Await(Worker(r));
    }

    method PruneStatusCache()
      modifies this`cache
      ensures cache == Pruned(old(Now()))
    {
      cache := map g | g in cache && now < cache[g].fetchedAt + ttl :: cache[g];
    }

    // ----- callers

    method TakeWaiterId(g: Signature, commitment: Commitment) returns (id: WaiterId)
      requires Valid()
      modifies this
      ensures Valid() && Grew(old(states), old(labels))
      ensures id in callers && callers[id] == Caller(g, commitment, Fresh) && id !in old(callers)
    {
      Invariant();
      id := nextId;
      assert id !in callers;
      nextId, callers := nextId + 1, callers[id := Caller(g, commitment, Fresh)];
      Did(LTakeId(g, commitment));
    }

    /** Under the lock: answer from the cache, or queue up and start the worker if none runs. */
    method RegisterWaiter(id: WaiterId, g: Signature, commitment: Commitment) returns (answer: Option<nat>, start: bool)
      requires Valid() && id in callers && callers[id] == Caller(g, commitment, Fresh)
      modifies this
      ensures Valid() && Grew(old(states), old(labels)) && id in callers
      ensures callers[id] == Caller(g, commitment, if answer.Some? then Answered(answer.value) else Waiting)
      ensures answer == None ==> g in waiters && Waiter(id, commitment) in waiters[g]
      ensures start <==> answer == None && !old(running)
      ensures start ==> id in loops && loops[id] == Starting
    {
      ghost var s := Now();
      PruneStatusCache();
      answer := CachedAnswer(cache, g, commitment);
      start := false;
      if answer.Some? {
        callers := callers[id := Caller(g, commitment, Answered(answer.value))];
      } else {
        waiters := waiters[g := WaitersOf(waiters, g) + [Waiter(id, commitment)]];
        callers := callers[id := Caller(g, commitment, Waiting)];
        if !running {
          running, start := true, true;
          loops := loops[id := Starting];
        }
      }
      assert Register(s, id, Now());
      Did(LRegister(id));
    }

    method SpawnWorker(id: WaiterId)
      requires Valid() && id in loops && loops[id] == Starting
      modifies this
      ensures Valid() && Grew(old(states), old(labels)) && callers == old(callers)
    {
      loops := loops[id := Sleeping];
      Did(LSpawn(id));
    }

    method GiveUp(id: WaiterId)
      requires Valid() && id in callers && callers[id].fate == Waiting
      modifies this
      ensures Valid() && Grew(old(states), old(labels))
      ensures callers == old(callers)[id := old(callers)[id].(fate := Expired)]
    {
      callers := callers[id := callers[id].(fate := Expired)];
      Did(LExpire(id));
    }

    /** Takes the waiter back; the list goes with its last one. */
    method RemoveWaiter(g: Signature, id: WaiterId)
      requires Valid() && id in callers && callers[id].fate == Expired && callers[id].signature == g
      modifies this
      ensures Valid() && Grew(old(states), old(labels))
      ensures id in callers && callers[id] == old(callers)[id].(fate := Unanswered)
      ensures !Runs.Queued(Now(), id)
    {
      if g in waiters {
        Runs.WithoutOne(waiters[g], id);
        var list := Without(waiters[g], id);
        waiters := if list == [] then waiters - {g} else waiters[g := list];
      }
      callers := callers[id := callers[id].(fate := Unanswered)];
      Did(LTakeBack(id));
    }

    /** A registered caller waits for an answer or its time; out of time, it leaves the queue. */
    method AwaitAnswer(id: WaiterId) returns (answer: Option<nat>)
      requires Valid() && id in callers && callers[id].fate == Waiting
      modifies this
      ensures Valid() && Grew(old(states), old(labels)) && id in callers
      ensures callers[id] == old(callers)[id].(fate := if answer.Some? then Answered(answer.value) else Unanswered)
      ensures answer == None ==> !Runs.Queued(Now(), id)
    {
      hide Next;
      hide IsRun;
      hide Runs.Queued;
      AwaitCaller(id);
      if callers[id].fate.Answered? {
        return Some(callers[id].fate.result);
      }
      GiveUp(id);
      AwaitCaller(id);
      RemoveWaiter(callers[id].signature, id);
      answer := None;
    }

    lemma AnswerIsJustified(id: WaiterId)
      requires Valid() && id in callers
      ensures callers[id].fate.Answered? ==> Runs.Justified(Now(), callers[id], callers[id].fate.result)
    {
      Invariant();
      assert Runs.CallerOk(Now(), id);
    }

    method AwaitByPolling(g: Signature, commitment: Commitment) returns (answer: Option<nat>, ghost id: WaiterId)
      requires Valid()
      modifies this
      ensures Valid() && Grew(old(states), old(labels)) && id in callers
      ensures callers[id] == Caller(g, commitment, if answer.Some? then Answered(answer.value) else Unanswered)
      ensures answer.Some? ==> Runs.Justified(Now(), callers[id], answer.value)
      ensures answer == None ==> !Runs.Queued(Now(), id)
    {
      hide Next;
      hide IsRun;
      hide Runs.Queued;
      hide Runs.Justified;
      var me := TakeWaiterId(g, commitment);
      id := me;
      AwaitCaller(me);
      var start;
      answer, start := RegisterWaiter(me, g, commitment);
      if answer == None {
        if start {
          SpawnWorker(me);
        }
        answer := AwaitAnswer(me);
      }
      AnswerIsJustified(me);
    }

    /** Asking without waiting: only the cache answers, and only while fresh. */
    method CachedStatus(g: Signature, commitment: Commitment) returns (answer: Option<nat>)
      requires Valid()
      modifies this
      ensures Valid() && Grew(old(states), old(labels)) && Now() == old(Now()).(cache := Pruned(old(Now())))
      ensures answer == CachedAnswer(Pruned(old(Now())), g, commitment)
      ensures answer.Some? <==>
                g in old(cache) && now < old(cache)[g].fetchedAt + ttl && Satisfies(old(cache)[g].status, commitment)
      ensures answer.Some? ==> Runs.Justified(Now(), Caller(g, commitment, Fresh), answer.value)
    {
      PruneStatusCache();
      answer := CachedAnswer(cache, g, commitment);
      Did(LPrune);
      if answer.Some? {
        Invariant();
        assert Fetched(g, cache[g].status) in fetched;
      }
    }

    /** Waits until an answer is there or the time is up, or only looks into the cache if there is no
        time. An answer is the result of a status that was fetched for the signature and satisfies the
        commitment; without one, nothing of the caller is left in the queue. */
    method WaitWithBatchedPolling(g: Signature, commitment: Commitment, timeout: nat)
      returns (answer: Option<nat>, ghost id: Option<WaiterId>)
      requires Valid()
      modifies this
      ensures Valid() && Grew(old(states), old(labels))
      ensures answer.Some? ==> Runs.Justified(Now(), Caller(g, commitment, Fresh), answer.value)
      ensures timeout == 0 ==> id == None && Now() == old(Now()).(cache := Pruned(old(Now())))
      ensures timeout == 0 ==> answer == CachedAnswer(Pruned(old(Now())), g, commitment)
      ensures timeout > 0 ==> id.Some? && id.value in callers
      ensures timeout > 0 ==>
          callers[id.value] == Caller(g, commitment, if answer.Some? then Answered(answer.value) else Unanswered)
      ensures timeout > 0 && answer == None ==> !Runs.Queued(Now(), id.value)
    {
      hide Next;
      hide IsRun;
      hide Pruned;
      id := None;
      if timeout == 0 {
        answer := CachedStatus(g, commitment);
      } else {
        ghost var me;
        answer, me := AwaitByPolling(g, commitment);
        id := Some(me);
      }
    }

    // ----- the worker

    /** Under the lock: stops if nobody waits. */
    method Wake(r: WaiterId) returns (stopped: bool)
      requires Valid() && r in loops && loops[r] == Sleeping
      modifies this
      ensures Valid() && Grew(old(states), old(labels)) && |labels| == |old(labels)| + 1
      ensures !stopped ==> r in loops && loops[r].Fetching? && labels[|old(labels)|] == LWake(r, loops[r].todo)
      ensures stopped <==> old(waiters) == map[]
      ensures stopped ==> waiters == map[] && !running && loops == map[]
      ensures !stopped ==> r in loops && loops[r].Fetching? && loops[r].got == []
      ensures !stopped ==> forall g :: g in loops[r].todo <==> g in waiters
    {
      Invariant();
      PruneStatusCache();
      stopped := waiters == map[];
      var todo := [];
      if stopped {
        assert loops - {r} == map[];
        running, loops := false, loops - {r};
      } else {
        todo := ToSeq(waiters.Keys);
        loops := loops[r := Fetching(todo, [])];
      }
      Did(LWake(r, todo));
    }

    method FetchChunk(r: WaiterId, n: nat, reply: Option<seq<Option<Status>>>)
      requires Valid() && r in loops && loops[r].Fetching? && 0 < n <= |loops[r].todo|
      modifies this
      ensures Valid() && Grew(old(states), old(labels)) && r in loops
      ensures loops[r] == Fetching(old(loops[r]).todo[n..],
                  old(loops[r]).got + if reply.Some? then Zip(old(loops[r]).todo[..n], reply.value) else [])
    {
      var todo, got := loops[r].todo, loops[r].got;
      var more := if reply.Some? then Zip(todo[..n], reply.value) else [];
      loops := loops[r := Fetching(todo[n..], got + more)];
      fetched := fetched + set f | f in more;
      Did(LFetch(r, n, reply));
    }

    /** Asks chunk by chunk; a failed request is skipped, a short reply leaves its tail out. */
    method FetchStatuses(r: WaiterId, replies: nat -> Option<seq<Option<Status>>>)
      requires Valid() && r in loops && loops[r].Fetching? && loops[r].got == []
      modifies this
      ensures Valid() && Grew(old(states), old(labels)) && r in loops
      ensures loops[r] == Fetching([], FetchedIn(old(loops[r]).todo, batch, replies, 0))
    {
      hide Next;
      hide IsRun;
      hide FetchedIn;
      hide Zip;
      var call := 0;
      ghost var all := FetchedIn(loops[r].todo, batch, replies, 0);
      while loops[r].todo != []
        invariant Valid() && Grew(old(states), old(labels)) && r in loops && loops[r].Fetching?
        invariant loops[r].got + FetchedIn(loops[r].todo, batch, replies, call) == all
        decreases |loops[r].todo|
      {
        OneChunk(loops[r].todo, loops[r].got, batch, replies, call);
        AwaitWorker(r);
        FetchChunk(r, Min(batch, |loops[r].todo|), replies(call));
        call := call + 1;
      }
      NoChunk(batch, replies, call);
    }

    // The statuses are applied under the lock, one after another.
    method ApplyStatus(f: Fetched)
      modifies this`cache, this`waiters, this`callers
      ensures Now() == ApplyOne(old(Now()), f)
    {
      var g, status := f.signature, f.status;
      cache := cache[g := Cached(status, now)];
      if g in waiters {
        var list, pending := waiters[g], [];
        waiters := waiters - {g};
        callers, pending := ServeWaiters(callers, list, status);
        if pending != [] {
          waiters := waiters[g := pending];
        }
        assert waiters == Store(old(waiters), g, pending);
      } else {
        NothingToServe(callers, waiters, g, status);
      }
    }

    method ApplyStatuses(r: WaiterId)
      requires Valid() && r in loops && loops[r].Fetching? && loops[r].todo == []
      modifies this
      ensures Valid() && states == old(states) + [Now()] && labels == old(labels) + [LApply(r)]
      ensures r in loops && loops[r] == Sleeping
      ensures Now() == Applied(old(Now()), old(loops)[r].got).(loops := loops)
    {
      ghost var s := Now();
      var statuses := loops[r].got;
      for i := 0 to |statuses|
        invariant Now() == Applied(s, statuses[..i]) && states == old(states) && labels == old(labels)
      {
        assert statuses[..i + 1][..i] == statuses[..i];
        ApplyStatus(statuses[i]);
      }
      assert statuses[..|statuses|] == statuses;
      AppliedFrame(s, statuses);
      loops := loops[r := Sleeping];
      Did(LApply(r));
    }

    /** The last step was `r` applying `got`. */
    ghost predicate Applies(r: WaiterId, got: seq<Fetched>)
      reads this
    {
      && |states| > |labels| > 0 && labels[|labels| - 1] == LApply(r)
      && var s := states[|labels| - 1]; r in s.loops && s.loops[r] == Fetching([], got)
    }

    lemma LastState()
      requires Valid()
      ensures |states| == |labels| + 1 && states[|labels|] == Now()
    {
    }

    method FetchAndApply(r: WaiterId, replies: nat -> Option<seq<Option<Status>>>)
      requires Valid() && r in loops && loops[r].Fetching? && loops[r].got == []
      modifies this
      ensures Valid() && Grew(old(states), old(labels)) && r in loops && loops[r] == Sleeping
      ensures Applies(r, FetchedIn(old(loops)[r].todo, batch, replies, 0))
    {
      hide Next;
      hide IsRun;
      hide FetchedIn;
      hide Applied;
      FetchStatuses(r, replies);
      if loops[r].got != [] {
        AwaitWorker(r);
      }
      LastState();
      ApplyStatuses(r);
    }

    /** Everybody who waited at `at` is asked for, and whoever then gets a satisfying status does
        not wait any more. */
    ghost predicate ServesEverybody(at: nat, asked: seq<Signature>, got: seq<Fetched>)
      reads this
    {
      at < |states| && forall id :: id in states[at].callers && states[at].callers[id].fate == Waiting ==>
        && states[at].callers[id].signature in asked
        && (Runs.ServedBy(states[at].callers[id], got) ==> id in callers && Runs.Progress(callers[id].fate) == 2)
    }

    lemma Served(r: WaiterId, at: nat, asked: seq<Signature>, got: seq<Fetched>)
      requires Valid() && at < |labels| && labels[at] == LWake(r, asked) && Applies(r, got)
      ensures ServesEverybody(at, asked, got)
    {
      hide Next;
      LastState();
      forall id | id in states[at].callers && states[at].callers[id].fate == Waiting
        ensures states[at].callers[id].signature in asked
        ensures Runs.ServedBy(states[at].callers[id], got) ==> id in callers && Runs.Progress(callers[id].fate) == 2
      {
        Runs.WakeServesEverybody(states, labels, at, id);
        if Runs.ServedBy(states[at].callers[id], got) {
          Runs.TurnServes(states, labels, at, |labels| - 1, id);
        }
      }
    }

    /** One turn of the worker. It stops if nobody waits. Otherwise it asks for all that are waited
        for at that moment, chunk by chunk, applies what it got, and leaves nobody waiting who
        waited then and whom it satisfies. */
    method Poll(r: WaiterId, replies: nat -> Option<seq<Option<Status>>>)
      returns (stopped: bool, ghost asked: seq<Signature>, ghost at: nat)
      requires Valid() && r in loops && loops[r] == Sleeping
      modifies this
      ensures Valid() && Grew(old(states), old(labels))
      ensures stopped ==> waiters == map[] && !running && loops == map[]
      ensures !stopped ==> r in loops && loops[r] == Sleeping
      ensures !stopped ==> |old(labels)| <= at < |labels| && labels[at] == LWake(r, asked)
      ensures !stopped ==> Applies(r, FetchedIn(asked, batch, replies, 0))
      ensures !stopped ==> ServesEverybody(at, asked, FetchedIn(asked, batch, replies, 0))
    {
      hide Next;
      hide IsRun;
      hide FetchedIn;
      hide Applies;
      hide ServesEverybody;
      asked := [];
      AwaitWorker(r);
      at := |labels|;
      stopped := Wake(r);
      if !stopped {
        asked := loops[r].todo;
        FetchAndApply(r, replies);
        Served(r, at, asked, FetchedIn(asked, batch, replies, 0));
      }
    }

    /** Polls for everybody who waits, and stops once nobody does. `rounds` is how often it gets
        to run here. */
    method PollLoop(r: WaiterId, rounds: nat, replies: (nat, nat) -> Option<seq<Option<Status>>>)
      returns (stopped: bool)
      requires Valid() && r in loops && loops[r] == Sleeping
      modifies this
      ensures Valid() && Grew(old(states), old(labels))
      ensures stopped ==> waiters == map[] && !running && loops == map[]
      ensures !stopped ==> running && r in loops && loops[r] == Sleeping
    {
      hide Next;
      hide IsRun;
      stopped := false;
      for round := 0 to rounds
        invariant Valid() && Grew(old(states), old(labels)) && !stopped && r in loops && loops[r] == Sleeping
      {
        ghost var asked, at;
        stopped, asked, at := Poll(r, (call: nat) => replies(round, call));
        if stopped {
          return;
        }
      }
      Invariant();
    }
  }
}
