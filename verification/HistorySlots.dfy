/** Which blocks there are: the engine's retained range, and below it what the legacy ledger
    still has. */
module HistorySlots {
  import opened Options

  const MAX_SLOT: nat := 0xFFFF_FFFF_FFFF_FFFF

  type Slot = n: nat | n <= MAX_SLOT

  datatype Range = Range(first: Slot, last: Slot)

  /** A slot of the legacy ledger; it counts as a block only if it has a time. */
  datatype Block = Block(slot: Slot, timed: bool)

  datatype History = History(ledger: seq<Block>, retained: Option<Range>)

  predicate Ordered(ledger: seq<Block>) {
    forall i, j :: 0 <= i < j < |ledger| ==> ledger[i].slot < ledger[j].slot
  }

  predicate InLedger(ledger: seq<Block>, slot: Slot) {
    exists i :: 0 <= i < |ledger| && ledger[i] == Block(slot, true)
  }

  /** The whole history, as a plain set of slots. */
  predicate Available(h: History, slot: Slot) {
    match h.retained
    case None => InLedger(h.ledger, slot)
    case Some(r) => r.first <= slot <= r.last || (slot < r.first && InLedger(h.ledger, slot))
  }

  predicate Ascending(slots: seq<Slot>) {
    forall i, j :: 0 <= i < j < |slots| ==> slots[i] < slots[j]
  }

  /** `slots` are the first `limit` available ones from `start` to `end`, in order. */
  ghost predicate AreFirst(h: History, start: Slot, end: Slot, limit: nat, slots: seq<Slot>) {
    && Ascending(slots) && |slots| <= limit
    && (forall s :: s in slots ==> start <= s <= end && Available(h, s))
    && (forall s: Slot :: start <= s <= end && Available(h, s) && s !in slots ==>
          |slots| == limit && forall t :: t in slots ==> t < s)
  }

  lemma NotLonger(h: History, start: Slot, end: Slot, limit: nat, a: seq<Slot>, b: seq<Slot>)
    requires AreFirst(h, start, end, limit, a) && AreFirst(h, start, end, limit, b)
    requires forall k :: 0 <= k < |a| && k < |b| ==> a[k] == b[k]
    ensures |b| <= |a|
  {
    var k := if |a| < |b| then |a| else 0;
    assert k < |b| ==> b[k] in b;
  }

  lemma NotLater(h: History, start: Slot, end: Slot, limit: nat, a: seq<Slot>, b: seq<Slot>, n: nat)
    requires AreFirst(h, start, end, limit, a) && AreFirst(h, start, end, limit, b)
    requires n < |a| && n < |b| && a[..n] == b[..n]
    ensures a[n] <= b[n]
  {
    assert b[n] in b && a[n] in a;
    assert forall k :: 0 <= k < n ==> a[k] == a[..n][k] == b[k] < b[n];
  }

  lemma {:induction false} SamePrefix(h: History, start: Slot, end: Slot, limit: nat, a: seq<Slot>, b: seq<Slot>,
                                      n: nat)
    requires AreFirst(h, start, end, limit, a) && AreFirst(h, start, end, limit, b) && n <= |a| && n <= |b|
    ensures a[..n] == b[..n]
  {
    if n > 0 {
      SamePrefix(h, start, end, limit, a, b, n - 1);
      NotLater(h, start, end, limit, a, b, n - 1);
      NotLater(h, start, end, limit, b, a, n - 1);
    }
  }

  /** There is only one such answer. */
  lemma {:induction false} FirstIsUnique(h: History, start: Slot, end: Slot, limit: nat, a: seq<Slot>, b: seq<Slot>)
    requires AreFirst(h, start, end, limit, a) && AreFirst(h, start, end, limit, b)
    ensures a == b
  {
    SamePrefix(h, start, end, limit, a, b, if |a| < |b| then |a| else |b|);
    NotLonger(h, start, end, limit, a, b);
    NotLonger(h, start, end, limit, b, a);
  }

  lemma NothingIsFirst(h: History, start: Slot, end: Slot, limit: nat)
    requires start > end || limit == 0
    ensures AreFirst(h, start, end, limit, [])
  {
  }

  // ----- the ledger

  /** `slots` are the blocks among the first `i` entries that lie between `start` and `end`. */
  predicate Collected(ledger: seq<Block>, start: Slot, end: Slot, i: nat, slots: seq<Slot>) {
    && i <= |ledger| && Ascending(slots)
    && (forall s :: s in slots ==> start <= s <= end && exists j :: 0 <= j < i && ledger[j] == Block(s, true))
    && (forall j :: 0 <= j < i && start <= ledger[j].slot && ledger[j].timed ==> ledger[j].slot in slots)
  }

  lemma CollectOneMore(ledger: seq<Block>, start: Slot, end: Slot, i: nat, slots: seq<Slot>)
    requires Ordered(ledger) && i < |ledger| && start <= ledger[i].slot <= end
    requires Collected(ledger, start, end, i, slots)
    ensures Collected(ledger, start, end, i + 1, if ledger[i].timed then slots + [ledger[i].slot] else slots)
  {
    forall k | 0 <= k < |slots| ensures slots[k] < ledger[i].slot {
      assert slots[k] in slots;
    }
  }

  /** The scan may stop at the end of the ledger, behind `end`, or with enough slots. */
  lemma CollectedAreFirst(ledger: seq<Block>, start: Slot, end: Slot, limit: nat, i: nat, slots: seq<Slot>)
    requires Ordered(ledger) && Collected(ledger, start, end, i, slots) && |slots| <= limit
    requires i == |ledger| || ledger[i].slot > end || |slots| == limit
    ensures AreFirst(History(ledger, None), start, end, limit, slots)
  {
    forall s: Slot | start <= s <= end && InLedger(ledger, s) && s !in slots
      ensures |slots| == limit && forall t :: t in slots ==> t < s
    {
      var j :| 0 <= j < |ledger| && ledger[j] == Block(s, true);
      assert i <= j;
    }
  }

  method GetBlockSlots(ledger: seq<Block>, start: Slot, end: Slot, limit: nat) returns (slots: seq<Slot>)
    requires Ordered(ledger)
    ensures AreFirst(History(ledger, None), start, end, limit, slots)
  {
    hide AreFirst;
    slots := [];
    if start > end || limit == 0 {
      NothingIsFirst(History(ledger, None), start, end, limit);
      return;
    }
    var i := 0;
    while i < |ledger| && ledger[i].slot < start
      invariant 0 <= i <= |ledger| && forall j :: 0 <= j < i ==> ledger[j].slot < start
    {
      i := i + 1;
    }
    while i < |ledger| && ledger[i].slot <= end && |slots| < limit
      invariant Collected(ledger, start, end, i, slots) && |slots| <= limit
      invariant forall j :: i <= j < |ledger| ==> start <= ledger[j].slot
      decreases |ledger| - i
    {
      CollectOneMore(ledger, start, end, i, slots);
      if ledger[i].timed {
        slots := slots + [ledger[i].slot];
      }
      i := i + 1;
    }
    CollectedAreFirst(ledger, start, end, limit, i, slots);
  }

  // ----- the merged history

  function Span(from: Slot, n: nat): seq<Slot>
    requires n > 0 ==> from + n - 1 <= MAX_SLOT
  {
    seq(n, i requires 0 <= i < n => (from + i) as Slot)
  }

  lemma EngineFills(h: History, start: Slot, end: Slot, limit: nat, legacy: seq<Slot>, from: Slot, to: Slot, taken: nat)
    requires h.retained.Some? && start <= end && limit > 0
    requires var r := h.retained.value;
             && from == (if start < r.first then r.first else start) && to == (if end < r.last then end else r.last)
             && (start < r.first ==>
                   AreFirst(History(h.ledger, None), start, if end < r.first - 1 then end else r.first - 1, limit,
                            legacy))
             && (start >= r.first ==> legacy == [])
    requires |legacy| + taken <= limit && (taken > 0 ==> from + taken <= to + 1)
    requires taken == limit - |legacy| || from + taken > to
    ensures AreFirst(h, start, end, limit, legacy + Span(from, taken))
  {
    var r := h.retained.value;
    var engine := Span(from, taken);
    var slots := legacy + engine;
    assert forall k :: 0 <= k < |legacy| ==> legacy[k] in legacy;
    forall s: Slot | from <= s < from + taken ensures s in slots { assert engine[s - from] == s; }
    forall s | s in slots ensures start <= s <= end && Available(h, s) {
      if s in legacy {
        assert InLedger(h.ledger, s);
      }
    }
    forall s: Slot | start <= s <= end && Available(h, s) && s !in slots
      ensures |slots| == limit && forall t :: t in slots ==> t < s
    {
      if s < r.first {
        assert Available(History(h.ledger, None), s);
      }
    }
  }

  /** The blocks between two slots, whichever source has them: the limit is passed on to the
      ledger, and the engine fills up what is left of it. */
  method Slots(h: History, start: Slot, end: Slot, limit: nat) returns (slots: seq<Slot>)
    requires Ordered(h.ledger)
    ensures AreFirst(h, start, end, limit, slots)
  {
    slots := [];
    if start > end || limit == 0 {
      return;
    }
    if h.retained.None? {
      slots := GetBlockSlots(h.ledger, start, end, limit);
      return;
    }
    var first, last := h.retained.value.first, h.retained.value.last;
    if start < first {
      var legacyEnd := if end < first - 1 then end else first - 1;
      slots := GetBlockSlots(h.ledger, start, legacyEnd, limit);
    }
    ghost var legacy := slots;
    var from, to := if start < first then first else start, if end < last then end else last;
    var room := limit - |slots|;
    var taken := 0;
    while taken < room && from + taken <= to
      invariant 0 <= taken <= room && (taken > 0 ==> from + taken <= to + 1)
      invariant slots == legacy + Span(from, taken)
      decreases room - taken
    {
      slots := slots + [from + taken];
      taken := taken + 1;
    }
    EngineFills(h, start, end, limit, legacy, from, to, taken);
  }

  /** The smallest available slot, or zero if there is none. */
  method FirstAvailableBlock(h: History) returns (first: Slot)
    requires Ordered(h.ledger)
    ensures forall s: Slot :: Available(h, s) ==> Available(h, first) && first <= s
    ensures (forall s: Slot :: !Available(h, s)) ==> first == 0
  {
    var slots := Slots(h, 0, MAX_SLOT, 1);
    first := if slots == [] then 0 else slots[0];
    if slots != [] {
      assert slots[0] in slots;
      forall s: Slot | Available(h, s) ensures first <= s {
        if s in slots {
          assert s == slots[0];
        }
      }
    }
  }

  /** A block counts as cleaned up exactly if it is older than everything there is. */
  method CheckCleanedBlock(h: History, slot: Slot) returns (cleaned: bool)
    requires Ordered(h.ledger)
    ensures cleaned <==> (exists s: Slot :: Available(h, s)) && forall s: Slot :: Available(h, s) ==> slot < s
  {
    var first := FirstAvailableBlock(h);
    cleaned := slot < first;
  }

  // ----- paging

  function Last(slots: seq<Slot>): Slot
    requires slots != []
  {
    slots[|slots| - 1]
  }

  /** Pages of `limit` slots, each starting behind the last slot of the one before; the last
      page is the first that is not full, or that reaches the end. */
  ghost predicate IsPaging(h: History, start: Slot, end: Slot, limit: nat, pages: seq<seq<Slot>>)
    decreases |pages|
  {
    && pages != [] && AreFirst(h, start, end, limit, pages[0])
    && if |pages| == 1 then |pages[0]| < limit || (pages[0] != [] && Last(pages[0]) == end)
       else pages[0] != [] && Last(pages[0]) < end && IsPaging(h, Last(pages[0]) + 1, end, limit, pages[1..])
  }

  function Flatten(pages: seq<seq<Slot>>): seq<Slot> {
    if pages == [] then [] else pages[0] + Flatten(pages[1..])
  }

  /** Paging enumerates the available slots, each once and in order. */
  lemma {:induction false} PagingEnumerates(h: History, start: Slot, end: Slot, limit: nat, pages: seq<seq<Slot>>)
    requires IsPaging(h, start, end, limit, pages)
    ensures Ascending(Flatten(pages))
    ensures forall s: Slot :: s in Flatten(pages) <==> start <= s <= end && Available(h, s)
    decreases |pages|
  {
    var page := pages[0];
    if |pages| == 1 {
      assert Flatten(pages) == page;
      if page != [] {
        assert Last(page) in page;
      }
    } else {
      var rest := Flatten(pages[1..]);
      PagingEnumerates(h, Last(page) + 1, end, limit, pages[1..]);
      assert Last(page) in page;
      assert Flatten(pages) == page + rest;
      forall i | 0 <= i < |rest| ensures rest[i] > Last(page) { assert rest[i] in rest; }
    }
  }

  /** What a client obtains that asks again, behind the last slot, until an answer is not full. */
  method PageThrough(h: History, start: Slot, end: Slot, limit: nat) returns (pages: seq<seq<Slot>>)
    requires Ordered(h.ledger) && limit > 0
    ensures IsPaging(h, start, end, limit, pages)
    ensures Ascending(Flatten(pages)) && forall s: Slot :: s in Flatten(pages) <==> start <= s <= end && Available(h, s)
    decreases MAX_SLOT - start
  {
    var page := Slots(h, start, end, limit);
    if |page| < limit || Last(page) == end {
      pages := [page];
    } else {
      assert Last(page) in page;
      var rest := PageThrough(h, Last(page) + 1, end, limit);
      pages := [page] + rest;
      assert pages[1..] == rest;
    }
    PagingEnumerates(h, start, end, limit, pages);
  }
}
