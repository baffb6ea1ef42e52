/** What holds in every run of the confirmer: nobody is stranded, nobody is answered twice or
    wrongly, and there is at most one worker. */
module ConfirmerRuns {
  import opened ConfirmerProtocol

  // ----- the invariant

  /** A queued waiter stands under its caller's signature, with its caller's commitment. */
  predicate WaiterOk(s: State, g: Signature, w: Waiter) {
    && w.id in s.callers && s.callers[w.id].signature == g && s.callers[w.id].commitment == w.commitment
    && (s.callers[w.id].fate == Waiting || s.callers[w.id].fate == Expired || s.callers[w.id].fate == Dropped)
  }

  predicate Ids(list: seq<Waiter>, id: WaiterId) {
    exists i :: 0 <= i < |list| && list[i].id == id
  }

  predicate DistinctIds(list: seq<Waiter>) {
    forall i, j :: 0 <= i < j < |list| ==> list[i].id != list[j].id
  }

  predicate ListOk(s: State, g: Signature)
    requires g in s.waiters
  {
    && s.waiters[g] != []
    && (forall w :: w in s.waiters[g] ==> WaiterOk(s, g, w))
    && DistinctIds(s.waiters[g])
  }

  predicate Queued(s: State, id: WaiterId)
    requires id in s.callers
  {
    s.callers[id].signature in s.waiters && Ids(s.waiters[s.callers[id].signature], id)
  }

  /** The chain reported a status of that signature that satisfies the commitment. */
  predicate Justified(s: State, c: Caller, result: nat) {
    exists f :: f in s.fetched && f.signature == c.signature && Satisfies(f.status, c.commitment)
        && f.status.result == result
  }

  predicate CallerOk(s: State, id: WaiterId)
    requires id in s.callers
  {
    && id < s.nextId
    && (s.callers[id].fate == Waiting ==> Queued(s, id))
    && (s.callers[id].fate.Answered? ==> Justified(s, s.callers[id], s.callers[id].fate.result))
  }

  predicate LoopOk(s: State, r: WaiterId)
    requires r in s.loops
  {
    s.loops[r].Fetching? ==> forall f :: f in s.loops[r].got ==> f in s.fetched
  }

  ghost predicate Inv(s: State) {
    && (forall g :: g in s.waiters ==> ListOk(s, g))
    && (forall id :: id in s.callers ==> CallerOk(s, id))
    && (forall g :: g in s.cache ==> Fetched(g, s.cache[g].status) in s.fetched)
    && (forall r :: r in s.loops ==> LoopOk(s, r))
    && (forall r, q :: r in s.loops && q in s.loops ==> r == q)
    && (s.running <==> s.loops != map[])
    && (s.waiters != map[] ==> s.running)
  }

  // ----- lists of waiters

  lemma {:induction false} WithoutOne(list: seq<Waiter>, id: WaiterId)
    ensures forall w :: w in Without(list, id) <==> w in list && w.id != id
  {
    if list != [] {
      WithoutOne(list[1..], id);
      assert list == [list[0]] + list[1..];
    }
  }

  lemma JoinDistinct(a: seq<Waiter>, b: seq<Waiter>)
    requires DistinctIds(a) && DistinctIds(b)
    requires forall v, w :: v in a && w in b ==> v.id != w.id
    ensures DistinctIds(a + b)
  {
    forall i, j | 0 <= i < j < |a + b| ensures (a + b)[i].id != (a + b)[j].id {
      if i < |a| <= j {
        assert (a + b)[i] in a && (a + b)[j] in b;
      }
    }
  }

  lemma {:induction false} WithoutDistinct(list: seq<Waiter>, id: WaiterId)
    requires DistinctIds(list)
    ensures DistinctIds(Without(list, id))
  {
    if list != [] {
      var rest := list[1..];
      WithoutDistinct(rest, id);
      WithoutOne(rest, id);
      forall w | w in Without(rest, id) ensures w.id != list[0].id {
        var m :| 0 <= m < |rest| && rest[m] == w;
        assert list[m + 1] == w;
      }
      JoinDistinct([list[0]], Without(rest, id));
    }
  }

  lemma {:induction false} PendingMembers(list: seq<Waiter>, status: Status)
    ensures forall w :: w in Pending(list, status) <==> w in list && !Satisfies(status, w.commitment)
  {
    if list != [] {
      PendingMembers(list[..|list| - 1], status);
      assert list == list[..|list| - 1] + [list[|list| - 1]];
    }
  }

  lemma {:induction false} PendingDistinct(list: seq<Waiter>, status: Status)
    requires DistinctIds(list)
    ensures DistinctIds(Pending(list, status))
  {
    if list != [] {
      var init, last := list[..|list| - 1], list[|list| - 1];
      PendingDistinct(init, status);
      PendingMembers(init, status);
      forall w | w in Pending(init, status) ensures w.id != last.id {
        var m :| 0 <= m < |init| && init[m] == w;
        assert list[m] == w;
      }
      JoinDistinct(Pending(init, status), [last]);
    }
  }

  // ----- every step keeps it

  lemma TakeIdKeeps(s: State, g: Signature, commitment: Commitment, s': State)
    requires Inv(s) && TakeId(s, g, commitment, s')
    ensures Inv(s')
  {
    assert s.nextId !in s.callers;
    forall h | h in s'.waiters ensures ListOk(s', h) { assert ListOk(s, h); }
    forall id | id in s'.callers ensures CallerOk(s', id) { assert id in s.callers ==> CallerOk(s, id); }
    forall r | r in s'.loops ensures LoopOk(s', r) { assert LoopOk(s, r); }
  }

  lemma RegisterQueues(s: State, id: WaiterId, s': State)
    requires Inv(s) && Register(s, id, s') && s'.callers[id].fate == Waiting
    ensures forall g :: g in s'.waiters ==> ListOk(s', g)
    ensures forall x :: x in s'.callers ==> CallerOk(s', x)
  {
    var c := s.callers[id];
    var list := WaitersOf(s.waiters, c.signature);
    forall g | g in s'.waiters ensures ListOk(s', g) {
      if g in s.waiters { assert ListOk(s, g); }
      if g == c.signature {
        forall w | w in list ensures w.id != id { assert WaiterOk(s, g, w); }
        JoinDistinct(list, [Waiter(id, c.commitment)]);
      }
    }
    forall x | x in s'.callers ensures CallerOk(s', x) {
      assert CallerOk(s, x);
      if x == id {
        assert s'.waiters[c.signature][|list|].id == id;
      } else if s.callers[x].fate == Waiting && s.callers[x].signature == c.signature {
        var i :| 0 <= i < |list| && list[i].id == x;
        assert s'.waiters[c.signature][i].id == x;
      }
    }
  }

  lemma RegisterKeeps(s: State, id: WaiterId, s': State)
    requires Inv(s) && Register(s, id, s')
    ensures Inv(s')
  {
    if s'.callers[id].fate == Waiting {
      RegisterQueues(s, id, s');
      assert !s.running ==> id in s'.loops;
    } else {
      var c := s.callers[id];
      assert Fetched(c.signature, s.cache[c.signature].status) in s.fetched;
      forall g | g in s'.waiters ensures ListOk(s', g) { assert ListOk(s, g); }
      forall x | x in s'.callers ensures CallerOk(s', x) { assert CallerOk(s, x); }
    }
    forall r | r in s'.loops ensures LoopOk(s', r) { assert r in s.loops ==> LoopOk(s, r); }
  }

  /** A caller's fate moves on outside the queue. */
  lemma FateKeeps(s: State, id: WaiterId, fate: Fate, s': State)
    requires Inv(s) && id in s.callers && (fate == Expired || fate == Dropped)
    requires s.callers[id].fate == Waiting || fate == Dropped
    requires s' == s.(callers := s.callers[id := s.callers[id].(fate := fate)])
    ensures Inv(s')
  {
    forall g | g in s'.waiters ensures ListOk(s', g) {
      assert ListOk(s, g);
      forall w | w in s'.waiters[g] ensures WaiterOk(s', g, w) { assert WaiterOk(s, g, w); }
    }
    forall x | x in s'.callers ensures CallerOk(s', x) { assert CallerOk(s, x); }
    forall r | r in s'.loops ensures LoopOk(s', r) { assert LoopOk(s, r); }
  }

  /** Lists only lose waiters other than `x`'s. */
  lemma StillQueued(s: State, x: WaiterId, s': State)
    requires x in s.callers && Queued(s, x) && x in s'.callers && s'.callers[x].signature == s.callers[x].signature
    requires var g := s.callers[x].signature;
             forall w :: w in s.waiters[g] && w.id == x ==> g in s'.waiters && w in s'.waiters[g]
    ensures Queued(s', x)
  {
    var g := s.callers[x].signature;
    var i :| 0 <= i < |s.waiters[g]| && s.waiters[g][i].id == x;
    var w := s.waiters[g][i];
    assert w in s.waiters[g];
    var j :| 0 <= j < |s'.waiters[g]| && s'.waiters[g][j] == w;
  }

  lemma TakeBackKeeps(s: State, id: WaiterId, s': State)
    requires Inv(s) && TakeBack(s, id, s')
    ensures Inv(s')
  {
    var c := s.callers[id];
    if c.signature in s.waiters {
      assert ListOk(s, c.signature);
      WithoutOne(s.waiters[c.signature], id);
      WithoutDistinct(s.waiters[c.signature], id);
    }
    forall g | g in s'.waiters ensures ListOk(s', g) {
      assert ListOk(s, g);
      forall w | w in s'.waiters[g] ensures WaiterOk(s', g, w) { assert WaiterOk(s, g, w); }
    }
    forall x | x in s'.callers ensures CallerOk(s', x) {
      assert CallerOk(s, x);
      if x != id && s.callers[x].fate == Waiting {
        StillQueued(s, x, s');
      }
    }
    forall r | r in s'.loops ensures LoopOk(s', r) { assert LoopOk(s, r); }
  }

  lemma QuietKeeps(s: State, s': State)
    requires Inv(s) && s'.waiters == s.waiters && s'.callers == s.callers && s'.nextId == s.nextId
    requires s.fetched <= s'.fetched
    requires forall g :: g in s'.cache ==> Fetched(g, s'.cache[g].status) in s'.fetched
    requires forall r :: r in s'.loops ==> LoopOk(s', r)
    requires forall r, q :: r in s'.loops && q in s'.loops ==> r == q
    requires s'.running <==> s'.loops != map[]
    requires s'.waiters != map[] ==> s'.running
    ensures Inv(s')
  {
    forall g | g in s'.waiters ensures ListOk(s', g) {
      assert ListOk(s, g);
      forall w | w in s'.waiters[g] ensures WaiterOk(s', g, w) { assert WaiterOk(s, g, w); }
    }
    forall x | x in s'.callers ensures CallerOk(s', x) {
      assert CallerOk(s, x);
    }
  }

  lemma WorkerKeeps(s: State, l: Label, s': State)
    requires Inv(s) && Next(s, l, s') && (l.LSpawn? || l.LWake? || l.LFetch? || l.LTick? || l.LPrune?)
    ensures Inv(s')
  {
    forall r | r in s'.loops ensures LoopOk(s', r) {
      assert LoopOk(s, r);
    }
    QuietKeeps(s, s');
  }

  // ----- applying statuses

  lemma NotServed(s: State, f: Fetched, g: Signature, w: Waiter)
    requires Inv(s) && g in s.waiters && w in s.waiters[g]
    requires g == f.signature ==> !Satisfies(f.status, w.commitment)
    ensures !IsServed(WaitersOf(s.waiters, f.signature), w.id, f.status)
  {
    assert ListOk(s, g) && WaiterOk(s, g, w);
    var list := WaitersOf(s.waiters, f.signature);
    forall i | 0 <= i < |list| && list[i].id == w.id ensures !Satisfies(f.status, list[i].commitment) {
      assert ListOk(s, f.signature) && WaiterOk(s, f.signature, list[i]);
    }
  }

  /** What applying a status needs, and keeps. */
  lemma ApplyOneLists(s: State, f: Fetched)
    requires Inv(s) && f in s.fetched
    ensures var s' := ApplyOne(s, f); forall g :: g in s'.waiters ==> ListOk(s', g)
  {
    var s' := ApplyOne(s, f);
    var list := WaitersOf(s.waiters, f.signature);
    if f.signature in s.waiters {
      assert ListOk(s, f.signature);
    }
    PendingMembers(list, f.status);
    PendingDistinct(list, f.status);
    forall g | g in s'.waiters ensures ListOk(s', g) {
      assert g in s.waiters && ListOk(s, g);
      forall w | w in s'.waiters[g] ensures WaiterOk(s', g, w) {
        assert WaiterOk(s, g, w);
        NotServed(s, f, g, w);
      }
    }
  }

  lemma Unsatisfied(list: seq<Waiter>, w: Waiter, status: Status)
    requires !IsServed(list, w.id, status) && w in list
    ensures !Satisfies(status, w.commitment)
  {
    var i :| 0 <= i < |list| && list[i] == w;
  }

  lemma ApplyOneCallers(s: State, f: Fetched)
    requires Inv(s) && f in s.fetched
    ensures var s' := ApplyOne(s, f); forall x :: x in s'.callers ==> CallerOk(s', x)
  {
    var s' := ApplyOne(s, f);
    var list := WaitersOf(s.waiters, f.signature);
    PendingMembers(list, f.status);
    forall x | x in s'.callers ensures CallerOk(s', x) {
      assert CallerOk(s, x);
      if s.callers[x].fate == Waiting {
        if IsServed(list, x, f.status) {
          var i :| 0 <= i < |list| && list[i].id == x && Satisfies(f.status, list[i].commitment);
          assert ListOk(s, f.signature) && WaiterOk(s, f.signature, list[i]);
        } else {
          forall w | w in s.waiters[s.callers[x].signature] && w.id == x
            ensures s.callers[x].signature in s'.waiters && w in s'.waiters[s.callers[x].signature]
          {
            if s.callers[x].signature == f.signature { Unsatisfied(list, w, f.status); }
          }
          StillQueued(s, x, s');
        }
      }
    }
  }

  lemma ApplyOneKeeps(s: State, f: Fetched)
    requires Inv(s) && f in s.fetched
    ensures Inv(ApplyOne(s, f))
  {
    var s' := ApplyOne(s, f);
    ApplyOneLists(s, f);
    ApplyOneCallers(s, f);
    forall r | r in s'.loops ensures LoopOk(s', r) { assert LoopOk(s, r); }
  }

  lemma {:induction false} AppliedKeeps(s: State, statuses: seq<Fetched>)
    requires Inv(s) && forall f :: f in statuses ==> f in s.fetched
    ensures Inv(Applied(s, statuses))
    ensures Applied(s, statuses) == s.(cache := Applied(s, statuses).cache, waiters := Applied(s, statuses).waiters,
                                       callers := Applied(s, statuses).callers)
  {
    if statuses != [] {
      hide Inv;
      AppliedKeeps(s, statuses[..|statuses| - 1]);
      ApplyOneKeeps(Applied(s, statuses[..|statuses| - 1]), statuses[|statuses| - 1]);
    }
  }

  lemma ApplyKeeps(s: State, r: WaiterId, s': State)
    requires Inv(s) && Apply(s, r, s')
    ensures Inv(s')
  {
    assert LoopOk(s, r);
    AppliedKeeps(s, s.loops[r].got);
    QuietKeeps(Applied(s, s.loops[r].got), s');
  }

  lemma NextKeeps(s: State, l: Label, s': State)
    requires Inv(s) && Next(s, l, s')
    ensures Inv(s')
  {
    match l
    case LTakeId(g, commitment) => TakeIdKeeps(s, g, commitment, s');
    case LRegister(id) => RegisterKeeps(s, id, s');
    case LExpire(id) => FateKeeps(s, id, Expired, s');
    case LTakeBack(id) => TakeBackKeeps(s, id, s');
    case LDrop(id) => FateKeeps(s, id, Dropped, s');
    case LApply(id) => ApplyKeeps(s, id, s');
    case _ => WorkerKeeps(s, l, s');
  }

  lemma InitInv(s: State)
    requires Init(s)
    ensures Inv(s)
  {
  }

  lemma {:induction false} EveryState(states: seq<State>, labels: seq<Label>, i: nat)
    requires IsRun(states, labels) && i < |states|
    ensures Inv(states[i])
  {
    hide Next;
    if i == 0 {
      InitInv(states[0]);
    } else {
      EveryState(states, labels, i - 1);
      NextKeeps(states[i - 1], labels[i - 1], states[i]);
    }
  }

  // ----- over whole runs

  /** A caller that waits has its waiter queued, and a worker is alive or about to be. */
  lemma NoWaiterIsStranded(states: seq<State>, labels: seq<Label>, i: nat, id: WaiterId)
    requires IsRun(states, labels) && i < |states|
    requires id in states[i].callers && states[i].callers[id].fate == Waiting
    ensures Queued(states[i], id) && states[i].running
    ensures exists r :: r in states[i].loops
  {
    EveryState(states, labels, i);
    assert CallerOk(states[i], id);
  }

  /** There is at most one worker, exactly while the flag is up, and no list is empty. */
  lemma OneWorker(states: seq<State>, labels: seq<Label>, i: nat)
    requires IsRun(states, labels) && i < |states|
    ensures states[i].running <==> |states[i].loops| == 1
    ensures !states[i].running <==> states[i].loops == map[]
    ensures states[i].waiters != map[] ==> states[i].running
    ensures forall g :: g in states[i].waiters ==> states[i].waiters[g] != []
  {
    EveryState(states, labels, i);
    var loops := states[i].loops;
    if loops != map[] {
      var r :| r in loops;
      assert loops.Keys == {r};
      assert |loops| == |loops.Keys|;
    }
    forall g | g in states[i].waiters ensures states[i].waiters[g] != [] { assert ListOk(states[i], g); }
  }

  /** Every answer, from the cache or by delivery, is the result of a status that was fetched for
      that signature and satisfies the caller's commitment. */
  lemma AnswersAreFetched(states: seq<State>, labels: seq<Label>, i: nat, id: WaiterId)
    requires IsRun(states, labels) && i < |states|
    requires id in states[i].callers && states[i].callers[id].fate.Answered?
    ensures Justified(states[i], states[i].callers[id], states[i].callers[id].fate.result)
  {
    EveryState(states, labels, i);
    assert CallerOk(states[i], id);
  }

  /** `f` is among the statuses that step `j` applies. */
  predicate AppliedAt(states: seq<State>, labels: seq<Label>, j: nat, f: Fetched) {
    && j < |labels| && j < |states| && labels[j].LApply? && labels[j].id in states[j].loops
    && states[j].loops[labels[j].id].Fetching? && f in states[j].loops[labels[j].id].got
  }

  lemma {:induction false} AppliedNow(s: State, statuses: seq<Fetched>)
    ensures Applied(s, statuses).now == s.now
  {
    if statuses != [] {
      AppliedNow(s, statuses[..|statuses| - 1]);
    }
  }

  lemma {:induction false} AppliedCache(s: State, statuses: seq<Fetched>, g: Signature)
    requires g in Applied(s, statuses).cache
    ensures var c := Applied(s, statuses).cache[g];
            (g in s.cache && s.cache[g] == c) || (Fetched(g, c.status) in statuses && c.fetchedAt == s.now)
  {
    if statuses != [] {
      var init, last := statuses[..|statuses| - 1], statuses[|statuses| - 1];
      AppliedNow(s, init);
      assert statuses == init + [last];
      if last.signature != g {
        AppliedCache(s, init, g);
      }
    }
  }

  lemma StepCache(s: State, l: Label, s': State, g: Signature)
    requires Next(s, l, s') && g in s'.cache
    ensures || (g in s.cache && s'.cache[g] == s.cache[g])
            || (&& l.LApply? && l.id in s.loops && s.loops[l.id].Fetching?
                && Fetched(g, s'.cache[g].status) in s.loops[l.id].got && s'.cache[g].fetchedAt == s.now)
  {
    if l.LApply? {
      AppliedCache(s, s.loops[l.id].got, g);
    }
  }

  /** What the cache holds was fetched and applied at the time it is marked with. */
  lemma {:induction false} CacheWasApplied(states: seq<State>, labels: seq<Label>, n: nat, g: Signature)
    returns (j: nat)
    requires IsRun(states, labels) && n < |states| && g in states[n].cache
    ensures j < n && AppliedAt(states, labels, j, Fetched(g, states[n].cache[g].status))
    ensures states[n].cache[g].fetchedAt == states[j].now
  {
    hide Next;
    var s, l, s' := states[n - 1], labels[n - 1], states[n];
    StepCache(s, l, s', g);
    if g in s.cache && s'.cache[g] == s.cache[g] {
      j := CacheWasApplied(states, labels, n - 1, g);
    } else {
      j := n - 1;
    }
  }

  /** An answer from the cache is the result of a satisfying status that was applied less than the
      time to live ago. */
  lemma CacheAnswersAreFresh(states: seq<State>, labels: seq<Label>, i: nat, id: WaiterId) returns (j: nat, f: Fetched)
    requires IsRun(states, labels) && i < |labels| && labels[i] == LRegister(id)
    requires states[i + 1].callers[id].fate.Answered?
    ensures j < i && AppliedAt(states, labels, j, f) && states[i].now < states[j].now + states[i].ttl
    ensures f.signature == states[i].callers[id].signature && Satisfies(f.status, states[i].callers[id].commitment)
    ensures states[i + 1].callers[id].fate.result == f.status.result
  {
    assert Next(states[i], labels[i], states[i + 1]);
    var g := states[i].callers[id].signature;
    f := Fetched(g, states[i].cache[g].status);
    j := CacheWasApplied(states, labels, i, g);
  }

  predicate Settled(fate: Fate) {
    fate.Answered? || fate == Unanswered || fate == Dropped
  }

  /** What a caller asks for stays, and its fate is sealed once. */
  /** How far a caller has come: it has an id, it waits, it does not wait any more. */
  function Progress(fate: Fate): nat {
    match fate
    case Fresh => 0
    case Waiting => 1
    case _ => 2
  }

  predicate Onward(s: State, s': State, id: WaiterId)
    requires id in s.callers
  {
    && id in s'.callers && s'.callers[id].signature == s.callers[id].signature
    && s'.callers[id].commitment == s.callers[id].commitment
    && (Settled(s.callers[id].fate) ==> s'.callers[id].fate == s.callers[id].fate)
    && Progress(s.callers[id].fate) <= Progress(s'.callers[id].fate)
  }

  lemma {:induction false} AppliedOnward(s: State, statuses: seq<Fetched>, id: WaiterId)
    requires id in s.callers
    ensures Onward(s, Applied(s, statuses), id)
    ensures var fate := Applied(s, statuses).callers[id].fate;
            fate == s.callers[id].fate || (s.callers[id].fate == Waiting && fate.Answered?)
  {
    if statuses != [] {
      AppliedOnward(s, statuses[..|statuses| - 1], id);
    }
  }

  lemma StepOnward(s: State, l: Label, s': State, id: WaiterId)
    requires Inv(s) && Next(s, l, s') && id in s.callers
    ensures Onward(s, s', id)
  {
    if l.LApply? {
      AppliedOnward(s, s.loops[l.id].got, id);
    }
  }

  /** A caller is answered at most once, and never after it gave up. */
  lemma {:induction false} FateIsSealedOnce(states: seq<State>, labels: seq<Label>, i: nat, j: nat, id: WaiterId)
    requires IsRun(states, labels) && i <= j < |states| && id in states[i].callers
    ensures Onward(states[i], states[j], id)
    decreases j
  {
    hide Next;
    if i < j {
      FateIsSealedOnce(states, labels, i, j - 1, id);
      EveryState(states, labels, j - 1);
      StepOnward(states[j - 1], labels[j - 1], states[j], id);
    }
  }

  predicate ServedBy(c: Caller, statuses: seq<Fetched>) {
    exists i :: 0 <= i < |statuses| && statuses[i].signature == c.signature
        && Satisfies(statuses[i].status, c.commitment)
  }

  lemma ApplyOneQueue(s: State, f: Fetched, id: WaiterId)
    requires Inv(s) && id in s.callers && Queued(s, id)
    requires !(f.signature == s.callers[id].signature && Satisfies(f.status, s.callers[id].commitment))
    ensures Queued(ApplyOne(s, f), id)
  {
    var s' := ApplyOne(s, f);
    var g := s.callers[id].signature;
    PendingMembers(WaitersOf(s.waiters, f.signature), f.status);
    assert ListOk(s, g);
    forall w | w in s.waiters[g] && w.id == id ensures g in s'.waiters && w in s'.waiters[g] {
      assert WaiterOk(s, g, w);
    }
    StillQueued(s, id, s');
  }

  lemma {:induction false} AppliedQueue(s: State, statuses: seq<Fetched>, id: WaiterId)
    requires Inv(s) && (forall f :: f in statuses ==> f in s.fetched)
    requires id in s.callers && Queued(s, id) && !ServedBy(s.callers[id], statuses)
    ensures id in Applied(s, statuses).callers && Queued(Applied(s, statuses), id)
  {
    if statuses != [] {
      var init := statuses[..|statuses| - 1];
      hide Inv;
      assert forall i :: 0 <= i < |init| ==> init[i] == statuses[i];
      AppliedQueue(s, init, id);
      AppliedKeeps(s, init);
      AppliedOnward(s, init, id);
      ApplyOneQueue(Applied(s, init), statuses[|statuses| - 1], id);
    }
  }

  lemma TakeBackQueue(s: State, t: WaiterId, s': State, id: WaiterId)
    requires Inv(s) && TakeBack(s, t, s') && t != id && id in s.callers && Queued(s, id)
    ensures Queued(s', id)
  {
    if s.callers[t].signature in s.waiters {
      WithoutOne(s.waiters[s.callers[t].signature], t);
    }
    StillQueued(s, id, s');
  }

  lemma RegisterQueue(s: State, t: WaiterId, s': State, id: WaiterId)
    requires Register(s, t, s') && id in s.callers && Queued(s, id)
    ensures id in s'.callers && Queued(s', id)
  {
    var g := s.callers[id].signature;
    forall w | w in s.waiters[g] && w.id == id ensures g in s'.waiters && w in s'.waiters[g] {
    }
    StillQueued(s, id, s');
  }

  /** A waiter leaves the queue in one of two ways: its caller takes it back after its time was
      up, or a status is applied that satisfies it; then the caller, if it still waits, is
      answered. */
  lemma LeavesOnlyOnce(states: seq<State>, labels: seq<Label>, i: nat, id: WaiterId)
    requires IsRun(states, labels) && i < |labels| && id in states[i].callers && Queued(states[i], id)
    requires id in states[i + 1].callers && !Queued(states[i + 1], id)
    ensures || (labels[i] == LTakeBack(id) && states[i].callers[id].fate == Expired
            && states[i + 1].callers[id].fate == Unanswered)
            || (&& labels[i].LApply? && labels[i].id in states[i].loops && states[i].loops[labels[i].id].Fetching?
                && ServedBy(states[i].callers[id], states[i].loops[labels[i].id].got)
                && (states[i].callers[id].fate == Waiting ==> states[i + 1].callers[id].fate.Answered?))
  {
    var s, l, s' := states[i], labels[i], states[i + 1];
    assert Next(s, l, s');
    EveryState(states, labels, i);
    EveryState(states, labels, i + 1);
    assert CallerOk(s', id);
    if l.LTakeBack? && l.id != id {
      TakeBackQueue(s, l.id, s', id);
    } else if l.LRegister? {
      RegisterQueue(s, l.id, s', id);
    } else if l.LApply? {
      assert LoopOk(s, l.id);
      AppliedOnward(s, s.loops[l.id].got, id);
      if !ServedBy(s.callers[id], s.loops[l.id].got) {
        AppliedQueue(s, s.loops[l.id].got, id);
      }
    }
  }

  /** The worker asks for the signature of everybody who waits, and stops only if nobody does. */
  lemma WakeServesEverybody(states: seq<State>, labels: seq<Label>, i: nat, id: WaiterId)
    requires IsRun(states, labels) && i < |labels| && labels[i].LWake?
    requires id in states[i].callers && states[i].callers[id].fate == Waiting
    ensures states[i + 1].running && states[i].callers[id].signature in labels[i].todo
  {
    EveryState(states, labels, i);
    assert CallerOk(states[i], id) && Next(states[i], labels[i], states[i + 1]);
    assert states[i].callers[id].signature in states[i].waiters.Keys;
  }

  lemma ApplyOneServes(s: State, f: Fetched, id: WaiterId)
    requires Inv(s) && id in s.callers && s.callers[id].fate == Waiting
    requires f.signature == s.callers[id].signature && Satisfies(f.status, s.callers[id].commitment)
    ensures ApplyOne(s, f).callers[id].fate.Answered?
  {
    assert CallerOk(s, id);
    var list := s.waiters[f.signature];
    var i :| 0 <= i < |list| && list[i].id == id;
    assert ListOk(s, f.signature) && WaiterOk(s, f.signature, list[i]);
    assert IsServed(list, id, f.status);
  }

  lemma {:induction false} AppliedServes(s: State, statuses: seq<Fetched>, id: WaiterId)
    requires Inv(s) && (forall f :: f in statuses ==> f in s.fetched)
    requires id in s.callers && s.callers[id].fate == Waiting && ServedBy(s.callers[id], statuses)
    ensures id in Applied(s, statuses).callers && Applied(s, statuses).callers[id].fate.Answered?
  {
    hide Inv;
    var init, last := statuses[..|statuses| - 1], statuses[|statuses| - 1];
    AppliedOnward(s, init, id);
    AppliedKeeps(s, init);
    if ServedBy(s.callers[id], init) {
      AppliedServes(s, init, id);
    } else if Applied(s, init).callers[id].fate == Waiting {
      ApplyOneServes(Applied(s, init), last, id);
    }
  }

  /** A satisfying status that was fetched answers whoever still waits for it when applied. */
  lemma ApplyAnswers(states: seq<State>, labels: seq<Label>, i: nat, id: WaiterId)
    requires IsRun(states, labels) && i < |labels| && labels[i].LApply?
    requires id in states[i].callers && states[i].callers[id].fate == Waiting
    requires labels[i].id in states[i].loops && states[i].loops[labels[i].id].Fetching?
    requires ServedBy(states[i].callers[id], states[i].loops[labels[i].id].got)
    ensures id in states[i + 1].callers && states[i + 1].callers[id].fate.Answered?
  {
    EveryState(states, labels, i);
    assert Next(states[i], labels[i], states[i + 1]);
    assert LoopOk(states[i], labels[i].id);
    AppliedServes(states[i], states[i].loops[labels[i].id].got, id);
  }

  /** One turn of the worker, from waking up at `i` to applying at `j` what it then got: whoever
      waited when it woke up and gets a satisfying status does not wait any more. */
  lemma TurnServes(states: seq<State>, labels: seq<Label>, i: nat, j: nat, id: WaiterId)
    requires IsRun(states, labels) && i <= j < |labels| && labels[j].LApply?
    requires id in states[i].callers && states[i].callers[id].fate == Waiting
    requires labels[j].id in states[j].loops && states[j].loops[labels[j].id].Fetching?
    requires ServedBy(states[i].callers[id], states[j].loops[labels[j].id].got)
    ensures id in states[j + 1].callers && Progress(states[j + 1].callers[id].fate) == 2
  {
    FateIsSealedOnce(states, labels, i, j, id);
    FateIsSealedOnce(states, labels, j, j + 1, id);
    if states[j].callers[id].fate == Waiting {
      ApplyAnswers(states, labels, j, id);
    }
  }
}
