/** A bounded, expiring memo of token verifications: a map beside a queue of the keys it stored, which
    may still name keys since forgotten or stored again.

    The inner verifier is whatever it answers, call by call. */
module IdentityCache {
  /** A token's SHA-256. */
  type Key = string

  const LIMIT := 10_000

  /** What the inner verifier can answer; everything but `Failure` is cached. */
  datatype Answer = Identity(user: int) | Forbidden(reason: string) | Failure(error: string)

  datatype Entry = Entry(answer: Answer, expires: int)
  datatype Queued = Queued(key: Key, expires: int)
  datatype Cache = Cache(entries: map<Key, Entry>, order: seq<Queued>)
  datatype Found = Miss | Hit(answer: Answer)

  predicate Cacheable(answer: Answer) {
    !answer.Failure?
  }

  // ---- The operations, as functions ----

  /** Drops what one queued key stands for, unless the entry has since been forgotten or stored again. */
  function Drop(entries: map<Key, Entry>, oldest: Queued): map<Key, Entry> {
    if oldest.key in entries && entries[oldest.key].expires == oldest.expires then entries - {oldest.key} else entries
  }

  function Evict(c: Cache, now: int): Cache
    decreases |c.order|
  {
    if c.order == [] || (now < c.order[0].expires && |c.entries| < LIMIT) then c
    else Evict(Cache(Drop(c.entries, c.order[0]), c.order[1..]), now)
  }

  function Store(c: Cache, key: Key, answer: Answer, now: int, ttl: int): Cache {
    var room := Evict(c, now);
    Cache(room.entries[key := Entry(answer, now + ttl)], room.order + [Queued(key, now + ttl)])
  }

  function Lookup(c: Cache, key: Key, now: int): (Cache, Found) {
    if key !in c.entries then (c, Miss)
    else if now >= c.entries[key].expires then (c.(entries := c.entries - {key}), Miss)
    else (c, Hit(c.entries[key].answer))
  }

  function Forget(c: Cache, key: Key): Cache {
    c.(entries := c.entries - {key})
  }

  /** One call: looked up at `asked`, and on a miss answered `verdict` and stored at `stored`. */
  function Verify(c: Cache, key: Key, asked: int, verdict: Answer, stored: int, ttl: int): (Cache, Answer) {
    var (seen, found) := Lookup(c, key, asked);
    match found
    case Hit(answer) => (seen, answer)
    case Miss => (if Cacheable(verdict) then Store(seen, key, verdict, stored, ttl) else seen, verdict)
  }

  // ---- The map and the queue agree ----

  ghost predicate Sorted(order: seq<Queued>) {
    forall i, j :: 0 <= i < j < |order| ==> order[i].expires <= order[j].expires
  }

  ghost predicate Queues(order: seq<Queued>, key: Key, expires: int) {
    exists i :: 0 <= i < |order| && order[i] == Queued(key, expires)
  }

  /** `last` is the latest moment anything was stored at. */
  ghost predicate Valid(c: Cache, last: int, ttl: int) {
    && Sorted(c.order)
    && (forall i :: 0 <= i < |c.order| ==> c.order[i].expires <= last + ttl)
    && (forall key :: key in c.entries ==> Queues(c.order, key, c.entries[key].expires))
    && |c.entries| <= LIMIT
  }

  lemma DropKeepsQueued(c: Cache, last: int, ttl: int)
    requires Valid(c, last, ttl) && c.order != []
    ensures Valid(Cache(Drop(c.entries, c.order[0]), c.order[1..]), last, ttl)
    ensures |Drop(c.entries, c.order[0])| >= |c.entries| - 1
  {
    var left := Drop(c.entries, c.order[0]);
    forall key | key in left ensures Queues(c.order[1..], key, left[key].expires) {
      var i :| 0 <= i < |c.order| && c.order[i] == Queued(key, c.entries[key].expires);
      assert i != 0;
      assert c.order[1..][i - 1] == c.order[i];
    }
    if left != c.entries {
      assert left.Keys == c.entries.Keys - {c.order[0].key};
    }
  }

  /** The front of the queue is due no later than any entry. */
  lemma FrontIsSoonest(c: Cache, last: int, ttl: int)
    requires Valid(c, last, ttl)
    ensures forall key :: key in c.entries ==> c.order != [] && c.order[0].expires <= c.entries[key].expires
  {
    forall key | key in c.entries ensures c.order != [] && c.order[0].expires <= c.entries[key].expires {
      var i :| 0 <= i < |c.order| && c.order[i] == Queued(key, c.entries[key].expires);
    }
  }

  function Popped(c: Cache): Cache
    requires c.order != []
  {
    Cache(Drop(c.entries, c.order[0]), c.order[1..])
  }

  lemma {:induction false} EvictionKeepsValid(c: Cache, now: int, last: int, ttl: int)
    requires Valid(c, last, ttl)
    ensures
      var r := Evict(c, now);
      Valid(r, last, ttl) && |r.entries| < LIMIT && forall key :: key in r.entries ==> now < r.entries[key].expires
    decreases |c.order|
  {
    hide Valid, Drop;
    FrontIsSoonest(c, last, ttl);
    if c.order == [] {
      assert c.entries.Keys == {};
    } else if now >= c.order[0].expires || |c.entries| >= LIMIT {
      DropKeepsQueued(c, last, ttl);
      EvictionKeepsValid(Popped(c), now, last, ttl);
    }
  }

  /** Nothing is dropped that is due later than something kept. */
  lemma {:induction false} EvictionDropsSoonest(c: Cache, now: int, last: int, ttl: int)
    requires Valid(c, last, ttl)
    ensures
      var r := Evict(c, now);
      && (forall key :: key in r.entries ==> key in c.entries && r.entries[key] == c.entries[key])
      && (forall key, kept :: key in c.entries && key !in r.entries && kept in r.entries ==>
            c.entries[key].expires <= r.entries[kept].expires)
    decreases |c.order|
  {
    hide Valid;
    FrontIsSoonest(c, last, ttl);
    if c.order != [] && (now >= c.order[0].expires || |c.entries| >= LIMIT) {
      DropKeepsQueued(c, last, ttl);
      EvictionDropsSoonest(Popped(c), now, last, ttl);
    }
  }

  lemma DropSize(c: Cache)
    requires c.order != []
    ensures Popped(c).entries == c.entries || |Popped(c).entries| == |c.entries| - 1
  {
    if Popped(c).entries != c.entries {
      assert Popped(c).entries.Keys == c.entries.Keys - {c.order[0].key};
    }
  }

  /** A live entry goes only when the cache is full, and then it alone. */
  lemma {:induction false} EvictionSparesTheLive(c: Cache, now: int, last: int, ttl: int, key: Key)
    requires Valid(c, last, ttl) && key in c.entries && now < c.entries[key].expires && key !in Evict(c, now).entries
    ensures |c.entries| == LIMIT && |Evict(c, now).entries| == LIMIT - 1
    ensures forall other :: other in c.entries && other != key ==> other in Evict(c, now).entries
    decreases |c.order|
  {
    FrontIsSoonest(c, last, ttl);
    DropKeepsQueued(c, last, ttl);
    var next := Popped(c);
    DropSize(c);
    if key in next.entries {
      EvictionSparesTheLive(next, now, last, ttl, key);
    } else {
      assert next.entries.Keys == c.entries.Keys - {key};
      FrontIsSoonest(next, last, ttl);
      assert Evict(next, now) == next;
    }
  }

  lemma StoreKeepsValid(c: Cache, key: Key, answer: Answer, now: int, last: int, ttl: int)
    requires Valid(c, last, ttl) && last <= now
    ensures Valid(Store(c, key, answer, now, ttl), now, ttl)
  {
    EvictionKeepsValid(c, now, last, ttl);
    StoringKeepsValid(Evict(c, now), key, answer, now, last, ttl);
  }

  lemma StaysSorted(order: seq<Queued>, next: Queued, limit: int)
    requires Sorted(order) && (forall i :: 0 <= i < |order| ==> order[i].expires <= limit) && limit <= next.expires
    ensures Sorted(order + [next])
  {
  }

  lemma StoringKeepsValid(room: Cache, key: Key, answer: Answer, now: int, last: int, ttl: int)
    requires Valid(room, last, ttl) && last <= now && |room.entries| < LIMIT
    ensures Valid(Cache(room.entries[key := Entry(answer, now + ttl)], room.order + [Queued(key, now + ttl)]), now, ttl)
  {
    var r := Cache(room.entries[key := Entry(answer, now + ttl)], room.order + [Queued(key, now + ttl)]);
    StaysSorted(room.order, Queued(key, now + ttl), last + ttl);
    hide Sorted;
    forall k | k in r.entries ensures Queues(r.order, k, r.entries[k].expires) {
      if k == key {
        assert r.order[|room.order|] == Queued(key, now + ttl);
      } else {
        var i :| 0 <= i < |room.order| && room.order[i] == Queued(k, room.entries[k].expires);
        assert r.order[i] == room.order[i];
      }
    }
    assert r.entries.Keys == room.entries.Keys + {key};
  }

  // ---- Sequences of calls ----

  datatype Call = Verifies(key: Key, asked: int, verdict: Answer, stored: int) | Forgets(key: Key)

  predicate Clocked(calls: seq<Call>, n: nat)
    requires n <= |calls|
  {
    n == 0 || (Clocked(calls, n - 1)
      && (calls[n - 1].Verifies? ==> Clock(calls, n - 1) <= calls[n - 1].asked <= calls[n - 1].stored))
  }

  /** The last moment any of the first n calls read the clock at. */
  function Clock(calls: seq<Call>, n: nat): int
    requires n <= |calls|
  {
    if n == 0 then 0 else if calls[n - 1].Verifies? then calls[n - 1].stored else Clock(calls, n - 1)
  }

  function After(calls: seq<Call>, n: nat, ttl: int): Cache
    requires n <= |calls|
  {
    if n == 0 then Cache(map[], [])
    else
      var before := After(calls, n - 1, ttl);
      match calls[n - 1]
      case Verifies(key, asked, verdict, stored) => Verify(before, key, asked, verdict, stored, ttl).0
      case Forgets(key) => Forget(before, key)
  }

  function AnswerTo(calls: seq<Call>, n: nat, ttl: int): Answer
    requires n < |calls| && calls[n].Verifies?
  {
    Verify(After(calls, n, ttl), calls[n].key, calls[n].asked, calls[n].verdict, calls[n].stored, ttl).1
  }

  lemma {:induction false} CallsKeepValid(calls: seq<Call>, n: nat, ttl: int)
    requires n <= |calls| && Clocked(calls, n) && ttl > 0
    ensures Valid(After(calls, n, ttl), Clock(calls, n), ttl)
  {
    if n > 0 {
      hide Verify, Forget, Valid;
      CallsKeepValid(calls, n - 1, ttl);
      var before, last := After(calls, n - 1, ttl), Clock(calls, n - 1);
      ForgettingKeepsValid(before, calls[n - 1].key, last, ttl);
      if calls[n - 1].Verifies? {
        VerifyingKeepsValid(before, calls[n - 1], last, ttl);
      }
    }
  }

  lemma VerifyingKeepsValid(c: Cache, call: Call, last: int, ttl: int)
    requires Valid(c, last, ttl) && call.Verifies? && last <= call.asked <= call.stored
    ensures Valid(Verify(c, call.key, call.asked, call.verdict, call.stored, ttl).0, call.stored, ttl)
  {
    hide Store, Valid;
    ForgettingKeepsValid(c, call.key, last, ttl);
    var seen := Lookup(c, call.key, call.asked).0;
    LaterKeepsValid(seen, last, call.stored, ttl);
    StoreKeepsValid(seen, call.key, call.verdict, call.stored, last, ttl);
  }

  lemma ForgettingKeepsValid(c: Cache, key: Key, last: int, ttl: int)
    requires Valid(c, last, ttl)
    ensures Valid(Forget(c, key), last, ttl)
  {
    SmallerWithout(c.entries, key);
  }

  lemma LaterKeepsValid(c: Cache, last: int, now: int, ttl: int)
    requires Valid(c, last, ttl) && last <= now
    ensures Valid(c, now, ttl)
  {
  }

  lemma SmallerWithout(m: map<Key, Entry>, key: Key)
    ensures |m - {key}| <= |m|
  {
    if key in m {
      assert (m - {key}).Keys == m.Keys - {key};
    } else {
      assert m - {key} == m;
    }
  }

  /** Call m asked the inner verifier about `key`, which answered `answer`, and nothing has been told
      to forget it by call n. */
  ghost predicate Remembers(calls: seq<Call>, m: nat, n: nat, key: Key, answer: Answer, ttl: int)
    requires m < n <= |calls|
  {
    && calls[m].Verifies? && calls[m].key == key && calls[m].verdict == answer && Cacheable(answer)
    && Lookup(After(calls, m, ttl), key, calls[m].asked).1 == Miss
    && forall k :: m < k < n ==> calls[k] != Forgets(key)
  }

  ghost predicate Backs(calls: seq<Call>, n: nat, key: Key, entry: Entry, ttl: int)
    requires n <= |calls|
  {
    exists m :: 0 <= m < n && Remembers(calls, m, n, key, entry.answer, ttl) && entry.expires == calls[m].stored + ttl
  }

  /** A call adds at most the entry it was answered with; every other one was there before it. */
  lemma VerifyAddsOne(c: Cache, call: Call, last: int, ttl: int, key: Key)
    requires Valid(c, last, ttl) && call.Verifies?
    requires key in Verify(c, call.key, call.asked, call.verdict, call.stored, ttl).0.entries
    ensures
      var entry := Verify(c, call.key, call.asked, call.verdict, call.stored, ttl).0.entries[key];
      || (key in c.entries && c.entries[key] == entry)
      || (key == call.key && Lookup(c, key, call.asked).1 == Miss && Cacheable(call.verdict) && entry == Entry(call.verdict, call.stored + ttl))
  {
    hide Evict, Valid;
    var (seen, found) := Lookup(c, call.key, call.asked);
    if found == Miss && Cacheable(call.verdict) {
      ForgettingKeepsValid(c, call.key, last, ttl);
      assert Valid(seen, last, ttl);
      EvictionDropsSoonest(seen, call.stored, last, ttl);
    }
  }

  /** Every entry is an answer some earlier call got, and has not been forgotten since. */
  lemma {:induction false} EntryWasAnswer(calls: seq<Call>, n: nat, key: Key, ttl: int)
    requires n <= |calls| && Clocked(calls, n) && ttl > 0 && key in After(calls, n, ttl).entries
    ensures Backs(calls, n, key, After(calls, n, ttl).entries[key], ttl)
  {
    hide Valid, Lookup, Evict, Store;
    if n > 0 {
      CallsKeepValid(calls, n - 1, ttl);
      var before, c, call := After(calls, n - 1, ttl), After(calls, n, ttl), calls[n - 1];
      if call.Verifies? {
        VerifyAddsOne(before, call, Clock(calls, n - 1), ttl, key);
        if key !in before.entries || c.entries[key] != before.entries[key] {
          assert Remembers(calls, n - 1, n, key, call.verdict, ttl);
        }
      }
      if key in before.entries && c.entries[key] == before.entries[key] {
        EntryWasAnswer(calls, n - 1, key, ttl);
        BacksOn(calls, n, key, before.entries[key], ttl);
      }
    }
  }

  lemma BacksOn(calls: seq<Call>, n: nat, key: Key, entry: Entry, ttl: int)
    requires 0 < n <= |calls| && Backs(calls, n - 1, key, entry, ttl) && calls[n - 1] != Forgets(key)
    ensures Backs(calls, n, key, entry, ttl)
  {
    var m :| 0 <= m < n - 1 && Remembers(calls, m, n - 1, key, entry.answer, ttl) && entry.expires == calls[m].stored + ttl;
    assert Remembers(calls, m, n, key, entry.answer, ttl);
  }

  /** Every answer is fresh from the inner verifier, or is what it answered for the same token less
      than a time to live ago, with no forget of that token in between. */
  lemma AnswersAreFreshOrRemembered(calls: seq<Call>, n: nat, ttl: int)
    requires n < |calls| && Clocked(calls, |calls|) && ttl > 0 && calls[n].Verifies?
    ensures
      var answer := AnswerTo(calls, n, ttl);
      || answer == calls[n].verdict
      || exists m :: 0 <= m < n && Remembers(calls, m, n, calls[n].key, answer, ttl)
           && calls[m].stored <= calls[n].asked < calls[m].stored + ttl
  {
    ClockedPrefix(calls, |calls|, n + 1);
    var c, key := After(calls, n, ttl), calls[n].key;
    if Lookup(c, key, calls[n].asked).1.Hit? {
      EntryWasAnswer(calls, n, key, ttl);
      var m :| 0 <= m < n && Remembers(calls, m, n, key, c.entries[key].answer, ttl) && c.entries[key].expires == calls[m].stored + ttl;
      StoredBefore(calls, m, n);
    }
  }

  lemma {:induction false} ClockedPrefix(calls: seq<Call>, n: nat, m: nat)
    requires m <= n <= |calls| && Clocked(calls, n)
    ensures Clocked(calls, m)
  {
    if m < n { ClockedPrefix(calls, n - 1, m); }
  }

  lemma {:induction false} StoredBefore(calls: seq<Call>, m: nat, n: nat)
    requires m < n <= |calls| && Clocked(calls, n) && calls[m].Verifies?
    ensures calls[m].stored <= Clock(calls, n)
  {
    if m < n - 1 { StoredBefore(calls, m, n - 1); }
  }

  // ---- The verifier itself ----

  class CachingVerifier {
    var entries: map<Key, Entry>
    var order: seq<Queued>
    const ttl: int

    ghost function Contents(): Cache
      reads this
    {
      Cache(entries, order)
    }

    constructor (ttl: int)
      requires ttl > 0
      ensures this.ttl == ttl && Contents() == Cache(map[], [])
    {
      this.ttl := ttl;
      entries, order := map[], [];
    }

    method LookupKey(key: Key, now: int) returns (found: Found)
      modifies this
      ensures (Contents(), found) == Lookup(old(Contents()), key, now)
    {
      if key !in entries { return Miss; }
      var entry := entries[key];
      if !(now < entry.expires) {
        entries := entries - {key};
        return Miss;
      }
      return Hit(entry.answer);
    }

    method EvictFor(now: int)
      modifies this
      ensures Contents() == Evict(old(Contents()), now)
    {
      while |order| > 0
        invariant Evict(Contents(), now) == Evict(old(Contents()), now)
        decreases |order|
      {
        var oldest := order[0];
        if now < oldest.expires && |entries| < LIMIT { return; }
        order := order[1..];
        if oldest.key in entries && entries[oldest.key].expires == oldest.expires {
          entries := entries - {oldest.key};
        }
      }
    }

    method StoreAnswer(key: Key, answer: Answer, now: int)
      modifies this
      ensures Contents() == Store(old(Contents()), key, answer, now, ttl)
    {
      EvictFor(now);
      entries := entries[key := Entry(answer, now + ttl)];
      order := order + [Queued(key, now + ttl)];
    }

    /** Answers from the cache when it can, and otherwise with what the inner verifier says. */
    method VerifyToken(key: Key, asked: int, verdict: Answer, stored: int, ghost last: int) returns (answer: Answer)
      modifies this
      ensures (Contents(), answer) == Verify(old(Contents()), key, asked, verdict, stored, ttl)
      ensures old(Valid(Contents(), last, ttl)) && last <= stored ==>
        Valid(Contents(), if Contents().order == old(order) then last else stored, ttl)
    {
      hide Evict, Sorted, Queues;
      ghost var before := Contents();
      var found := LookupKey(key, asked);
      if Valid(before, last, ttl) {
        ForgettingKeepsValid(before, key, last, ttl);
        assert Valid(Contents(), last, ttl);
      }
      if found.Hit? { return found.answer; }
      if Cacheable(verdict) {
        if Valid(before, last, ttl) && last <= stored {
          StoreKeepsValid(Contents(), key, verdict, stored, last, ttl);
        }
        StoreAnswer(key, verdict, stored);
      }
      return verdict;
    }

    method ForgetToken(key: Key)
      modifies this
      ensures Contents() == Forget(old(Contents()), key)
    {
      entries := entries - {key};
    }
  }
}
