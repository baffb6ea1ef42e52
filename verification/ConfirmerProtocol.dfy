/** Waiting for transaction signatures: many callers, one cache, and a single worker that polls
    for all of them and stops by itself. */
module ConfirmerProtocol {
  import opened Options

  type Signature = nat
  type WaiterId = nat

  datatype Commitment = Processed | Confirmed | Finalized

  /** `result` is the outcome of the transaction; no confirmations means rooted. */
  datatype Status = Status(result: nat, confirmations: Option<nat>, level: Option<Commitment>)

  predicate Satisfies(status: Status, commitment: Commitment) {
    match commitment
    case Finalized => status.confirmations == None
    case Confirmed =>
      if status.level.Some? then status.level.value != Processed
      else status.confirmations == None || status.confirmations.value > 1
    case Processed => true
  }

  datatype Waiter = Waiter(id: WaiterId, commitment: Commitment)

  datatype Cached = Cached(status: Status, fetchedAt: nat)

  datatype Fetched = Fetched(signature: Signature, status: Status)

  /** Fresh: has an id only. Expired: its time is up, its waiter not yet taken back. Dropped: the
      caller went away and left its waiter behind. */
  datatype Fate = Fresh | Waiting | Expired | Dropped | Answered(result: nat) | Unanswered

  datatype Caller = Caller(signature: Signature, commitment: Commitment, fate: Fate)

  datatype Loop =
    | Starting
    | Sleeping
    | Fetching(todo: seq<Signature>, got: seq<Fetched>)

  /** `loops` holds every poll loop that is alive or about to be spawned, by who starts it;
      `fetched` everything the chain ever reported. */
  datatype State = State(
    waiters: map<Signature, seq<Waiter>>,
    cache: map<Signature, Cached>,
    running: bool,
    loops: map<WaiterId, Loop>,
    callers: map<WaiterId, Caller>,
    nextId: WaiterId,
    fetched: set<Fetched>,
    now: nat,
    ttl: nat)

  predicate Init(s: State) {
    && s.waiters == map[] && s.cache == map[] && !s.running && s.loops == map[]
    && s.callers == map[] && s.nextId == 1 && s.fetched == {}
  }

  // ----- the shared state's operations

  function Pruned(s: State): map<Signature, Cached> {
    map g | g in s.cache && s.now < s.cache[g].fetchedAt + s.ttl :: s.cache[g]
  }

  function CachedAnswer(cache: map<Signature, Cached>, g: Signature, commitment: Commitment): Option<nat> {
    if g in cache && Satisfies(cache[g].status, commitment) then Some(cache[g].status.result) else None
  }

  function WaitersOf(waiters: map<Signature, seq<Waiter>>, g: Signature): seq<Waiter> {
    if g in waiters then waiters[g] else []
  }

  /** No list is ever stored empty. */
  function Store(waiters: map<Signature, seq<Waiter>>, g: Signature, list: seq<Waiter>): map<Signature, seq<Waiter>> {
    if list == [] then waiters - {g} else waiters[g := list]
  }

  function Without(list: seq<Waiter>, id: WaiterId): seq<Waiter> {
    if list == [] then [] else (if list[0].id == id then [] else [list[0]]) + Without(list[1..], id)
  }

  /** The waiters that a status does not satisfy, in order. */
  function Pending(list: seq<Waiter>, status: Status): seq<Waiter> {
    if list == [] then []
    else Pending(list[..|list| - 1], status)
         + (if Satisfies(status, list[|list| - 1].commitment) then [] else [list[|list| - 1]])
  }

  predicate IsServed(list: seq<Waiter>, id: WaiterId, status: Status) {
    exists i :: 0 <= i < |list| && list[i].id == id && Satisfies(status, list[i].commitment)
  }

  /** An answer reaches a caller only while it still listens. */
  function Deliver(callers: map<WaiterId, Caller>, list: seq<Waiter>, status: Status): map<WaiterId, Caller> {
    map id | id in callers ::
      if callers[id].fate == Waiting && IsServed(list, id, status) then callers[id].(fate := Answered(status.result))
      else callers[id]
  }

  function ApplyOne(s: State, f: Fetched): State {
    var list := WaitersOf(s.waiters, f.signature);
    s.(cache := s.cache[f.signature := Cached(f.status, s.now)],
       waiters := Store(s.waiters, f.signature, Pending(list, f.status)),
       callers := Deliver(s.callers, list, f.status))
  }

  function Applied(s: State, statuses: seq<Fetched>): State {
    if statuses == [] then s else ApplyOne(Applied(s, statuses[..|statuses| - 1]), statuses[|statuses| - 1])
  }

  function Min(a: nat, b: nat): nat {
    if a <= b then a else b
  }

  /** Signatures paired with replies, as far as both go, without the unknown ones. */
  function Zip(chunk: seq<Signature>, reply: seq<Option<Status>>): seq<Fetched> {
    if chunk == [] || reply == [] then []
    else (if reply[0].Some? then [Fetched(chunk[0], reply[0].value)] else []) + Zip(chunk[1..], reply[1..])
  }

  // ----- callers

  predicate TakeId(s: State, g: Signature, commitment: Commitment, s': State) {
    s' == s.(nextId := s.nextId + 1, callers := s.callers[s.nextId := Caller(g, commitment, Fresh)])
  }

  /** Under the lock: answer from the cache, or queue up and start the worker if none runs. */
  predicate Register(s: State, id: WaiterId, s': State) {
    && id in s.callers && s.callers[id].fate == Fresh
    && var c := s.callers[id];
       var cache := Pruned(s);
       var answer := CachedAnswer(cache, c.signature, c.commitment);
       if answer.Some? then s' == s.(cache := cache, callers := s.callers[id := c.(fate := Answered(answer.value))])
       else s' == s.(cache := cache,
                     callers := s.callers[id := c.(fate := Waiting)],
                     waiters := s.waiters[c.signature :=
                                            WaitersOf(s.waiters, c.signature) + [Waiter(id, c.commitment)]],
                     running := true,
                     loops := if s.running then s.loops else s.loops[id := Starting])
  }

  predicate Spawn(s: State, r: WaiterId, s': State) {
    r in s.loops && s.loops[r] == Starting && s' == s.(loops := s.loops[r := Sleeping])
  }

  predicate Expire(s: State, id: WaiterId, s': State) {
    && id in s.callers && s.callers[id].fate == Waiting
    && s' == s.(callers := s.callers[id := s.callers[id].(fate := Expired)])
  }

  predicate TakeBack(s: State, id: WaiterId, s': State) {
    && id in s.callers && s.callers[id].fate == Expired
    && var c := s.callers[id];
       s' == s.(callers := s.callers[id := c.(fate := Unanswered)],
                waiters := if c.signature in s.waiters
                           then Store(s.waiters, c.signature, Without(s.waiters[c.signature], id)) else s.waiters)
  }

  /** A caller may go away whenever it waits for anything. */
  predicate Drop(s: State, id: WaiterId, s': State) {
    && id in s.callers
        && (s.callers[id].fate == Fresh || s.callers[id].fate == Waiting || s.callers[id].fate == Expired)
    && s' == s.(callers := s.callers[id := s.callers[id].(fate := Dropped)])
  }

  predicate Tick(s: State, s': State) {
    s' == s.(now := s'.now) && s.now <= s'.now
  }

  /** Asking without waiting prunes the cache and reads it. */
  predicate Prune(s: State, s': State) {
    s' == s.(cache := Pruned(s))
  }

  // ----- the worker

  /** Under the lock: stop if nobody waits, or note whom to ask for. */
  predicate Wake(s: State, r: WaiterId, todo: seq<Signature>, s': State) {
    && r in s.loops && s.loops[r] == Sleeping
    && if s.waiters == map[] then s' == s.(cache := Pruned(s), running := false, loops := s.loops - {r})
       else
         && (set g | g in todo) == s.waiters.Keys
         && s' == s.(cache := Pruned(s), loops := s.loops[r := Fetching(todo, [])])
  }

  /** One request for a chunk; it may fail, and the reply may be short. */
  predicate Fetch(s: State, r: WaiterId, n: nat, reply: Option<seq<Option<Status>>>, s': State) {
    && r in s.loops && s.loops[r].Fetching? && 0 < n <= |s.loops[r].todo|
    && var got := if reply.Some? then Zip(s.loops[r].todo[..n], reply.value) else [];
       s' == s.(loops := s.loops[r := Fetching(s.loops[r].todo[n..], s.loops[r].got + got)],
                fetched := s.fetched + set f | f in got)
  }

  predicate Apply(s: State, r: WaiterId, s': State) {
    && r in s.loops && s.loops[r].Fetching? && s.loops[r].todo == []
    && s' == Applied(s, s.loops[r].got).(loops := s.loops[r := Sleeping])
  }

  datatype Label =
    | LTakeId(signature: Signature, commitment: Commitment)
    | LRegister(id: WaiterId)
    | LSpawn(id: WaiterId)
    | LExpire(id: WaiterId)
    | LTakeBack(id: WaiterId)
    | LDrop(id: WaiterId)
    | LTick
    | LPrune
    | LWake(id: WaiterId, todo: seq<Signature>)
    | LFetch(id: WaiterId, n: nat, reply: Option<seq<Option<Status>>>)
    | LApply(id: WaiterId)

  predicate Next(s: State, l: Label, s': State) {
    match l
    case LTakeId(g, commitment) => TakeId(s, g, commitment, s')
    case LRegister(id) => Register(s, id, s')
    case LSpawn(id) => Spawn(s, id, s')
    case LExpire(id) => Expire(s, id, s')
    case LTakeBack(id) => TakeBack(s, id, s')
    case LDrop(id) => Drop(s, id, s')
    case LTick => Tick(s, s')
    case LPrune => Prune(s, s')
    case LWake(id, todo) => Wake(s, id, todo, s')
    case LFetch(id, n, reply) => Fetch(s, id, n, reply, s')
    case LApply(id) => Apply(s, id, s')
  }

  predicate IsRun(states: seq<State>, labels: seq<Label>) {
    && |states| == |labels| + 1
    && Init(states[0])
    && forall i :: 0 <= i < |labels| ==> Next(states[i], labels[i], states[i + 1])
  }
}
