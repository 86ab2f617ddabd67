/** The identity cache with a verification's two halves apart: it looks the token up under the lock, asks the
    inner verifier without it, and stores the answer under the lock again, with anything in between. */
module IdentityRace {
  import opened IdentityCache

  datatype Step =
    | Look(caller: int, key: Key, at: int)
    | Keep(caller: int, verdict: Answer, at: int)
    | Forgetting(key: Key)

  /** A caller whose lookup missed, and the step it did so at. */
  datatype Asking = Asking(key: Key, began: nat)

  datatype State = State(cache: Cache, asking: map<int, Asking>)

  /** A lookup that missed leaves its caller asking the inner verifier; what it says is kept if it may be. */
  function Next(s: State, step: Step, n: nat, ttl: int): State {
    match step
    case Look(caller, key, at) =>
      var (seen, found) := Lookup(s.cache, key, at);
      State(seen, if found == Miss then s.asking[caller := Asking(key, n)] else s.asking - {caller})
    case Keep(caller, verdict, at) =>
      if caller !in s.asking then s
      else State(if Cacheable(verdict) then Store(s.cache, s.asking[caller].key, verdict, at, ttl) else s.cache, s.asking - {caller})
    case Forgetting(key) => s.(cache := Forget(s.cache, key))
  }

  function Stepped(steps: seq<Step>, n: nat, ttl: int): State
    requires n <= |steps|
  {
    if n == 0 then State(Cache(map[], []), map[]) else Next(Stepped(steps, n - 1, ttl), steps[n - 1], n - 1, ttl)
  }

  /** The n-th step is a lookup that is answered from the cache. */
  predicate Hits(steps: seq<Step>, n: nat, ttl: int, answer: Answer)
    requires n < |steps|
  {
    steps[n].Look? && Lookup(Stepped(steps, n, ttl).cache, steps[n].key, steps[n].at).1 == Hit(answer)
  }

  /** The verification that looked up `key` at step l is kept at step m. */
  predicate KeptAt(steps: seq<Step>, l: nat, m: nat, key: Key, answer: Answer, ttl: int)
    requires m < |steps|
  {
    && l < m && steps[l].Look? && steps[l].key == key
    && steps[m].Keep? && steps[m].verdict == answer && Cacheable(answer)
    && steps[m].caller in Stepped(steps, m, ttl).asking && Stepped(steps, m, ttl).asking[steps[m].caller] == Asking(key, l)
  }

  ghost predicate NoForget(steps: seq<Step>, m: nat, n: nat, key: Key)
    requires n <= |steps|
  {
    forall k :: m <= k < n ==> steps[k] != Forgetting(key)
  }

  lemma {:induction false} AskingBegan(steps: seq<Step>, n: nat, ttl: int, caller: int)
    requires n <= |steps| && caller in Stepped(steps, n, ttl).asking
    ensures
      var asking := Stepped(steps, n, ttl).asking[caller];
      asking.began < n && steps[asking.began].Look? && steps[asking.began].key == asking.key && steps[asking.began].caller == caller
  {
    hide Lookup, Store, Forget;
    if n > 0 && caller in Stepped(steps, n - 1, ttl).asking && Stepped(steps, n, ttl).asking[caller] == Stepped(steps, n - 1, ttl).asking[caller] {
      AskingBegan(steps, n - 1, ttl, caller);
    }
  }

  lemma {:induction false} EvictingOnlyDrops(c: Cache, now: int)
    ensures forall key :: key in Evict(c, now).entries ==> key in c.entries && Evict(c, now).entries[key] == c.entries[key]
    decreases |c.order|
  {
    if c.order != [] && !(now < c.order[0].expires && |c.entries| < LIMIT) {
      EvictingOnlyDrops(Popped(c), now);
    }
  }

  /** An entry was kept by a verification, for a time to live from then, with no forget since. */
  ghost predicate Backed(steps: seq<Step>, n: nat, key: Key, entry: Entry, ttl: int)
    requires n <= |steps|
  {
    exists l: nat, m: nat :: m < n && KeptAt(steps, l, m, key, entry.answer, ttl) && entry.expires == steps[m].at + ttl && NoForget(steps, m, n, key)
  }

  lemma BackedOn(steps: seq<Step>, n: nat, key: Key, entry: Entry, ttl: int)
    requires n < |steps| && Backed(steps, n, key, entry, ttl) && steps[n] != Forgetting(key)
    ensures Backed(steps, n + 1, key, entry, ttl)
  {
    var l: nat, m: nat :| m < n && KeptAt(steps, l, m, key, entry.answer, ttl) && entry.expires == steps[m].at + ttl && NoForget(steps, m, n, key);
    assert NoForget(steps, m, n + 1, key);
  }

  lemma {:induction false} EntriesAreBacked(steps: seq<Step>, n: nat, ttl: int, key: Key)
    requires n <= |steps| && key in Stepped(steps, n, ttl).cache.entries
    ensures Backed(steps, n, key, Stepped(steps, n, ttl).cache.entries[key], ttl)
  {
    hide Evict, Backed, KeptAt;
    if n > 0 {
      var before, after, step := Stepped(steps, n - 1, ttl), Stepped(steps, n, ttl), steps[n - 1];
      if step.Keep? && step.caller in before.asking && Cacheable(step.verdict) {
        EvictingOnlyDrops(before.cache, step.at);
      }
      if key in before.cache.entries && after.cache.entries[key] == before.cache.entries[key] && step != Forgetting(key) {
        EntriesAreBacked(steps, n - 1, ttl, key);
        BackedOn(steps, n - 1, key, before.cache.entries[key], ttl);
      } else {
        JustKept(steps, n - 1, ttl, key);
      }
    }
  }

  lemma JustKept(steps: seq<Step>, n: nat, ttl: int, key: Key)
    requires n < |steps| && steps[n].Keep? && steps[n].caller in Stepped(steps, n, ttl).asking && Cacheable(steps[n].verdict)
    requires Stepped(steps, n, ttl).asking[steps[n].caller].key == key
    ensures Backed(steps, n + 1, key, Entry(steps[n].verdict, steps[n].at + ttl), ttl)
  {
    AskingBegan(steps, n, ttl, steps[n].caller);
    var l := Stepped(steps, n, ttl).asking[steps[n].caller].began;
    assert KeptAt(steps, l, n, key, steps[n].verdict, ttl);
    assert NoForget(steps, n, n + 1, key);
  }

  /** Every answer from the cache is what the inner verifier said to a verification of that token that was
      kept less than a time to live ago, with no forget since it was kept. */
  lemma {:induction false} HitsWereKept(steps: seq<Step>, n: nat, ttl: int, answer: Answer)
    requires n < |steps| && Hits(steps, n, ttl, answer)
    ensures
      exists l: nat, m: nat :: m < n && KeptAt(steps, l, m, steps[n].key, answer, ttl) && steps[n].at < steps[m].at + ttl && NoForget(steps, m, n, steps[n].key)
  {
    EntriesAreBacked(steps, n, ttl, steps[n].key);
  }

  /** A verification of the token was under way when it was forgotten, and its answer was kept afterwards. */
  predicate UnderWay(steps: seq<Step>, l: nat, f: nat, m: nat, key: Key, answer: Answer, ttl: int)
    requires m < |steps|
  {
    l < f < m && steps[f] == Forgetting(key) && KeptAt(steps, l, m, key, answer, ttl)
  }

  /** So a lookup after a forget is answered from a verification begun before it only when that one was
      under way at the forget. */
  lemma {:induction false} OnlyWhatWasUnderWayReturns(steps: seq<Step>, f: nat, n: nat, ttl: int, answer: Answer)
    requires f < n < |steps| && Hits(steps, n, ttl, answer) && steps[f] == Forgetting(steps[n].key)
    ensures
      exists l: nat, m: nat :: m < n && KeptAt(steps, l, m, steps[n].key, answer, ttl) && f < m
        && (f < l || UnderWay(steps, l, f, m, steps[n].key, answer, ttl))
  {
    HitsWereKept(steps, n, ttl, answer);
    var l: nat, m: nat :| m < n && KeptAt(steps, l, m, steps[n].key, answer, ttl) && steps[n].at < steps[m].at + ttl && NoForget(steps, m, n, steps[n].key);
    assert f < m;
    assert l != f;
  }

  /** And what was under way does return: to a lookup right after it was kept, within its time to live. */
  lemma {:induction false} WhatWasUnderWayReturns(steps: seq<Step>, l: nat, f: nat, m: nat, ttl: int, answer: Answer)
    requires m + 1 < |steps| && steps[m + 1].Look? && UnderWay(steps, l, f, m, steps[m + 1].key, answer, ttl)
    requires steps[m + 1].at < steps[m].at + ttl
    ensures Hits(steps, m + 1, ttl, answer)
  {
    hide Evict;
    var before, key := Stepped(steps, m, ttl), steps[m + 1].key;
    assert Stepped(steps, m + 1, ttl).cache.entries[key] == Entry(answer, steps[m].at + ttl);
  }
}
