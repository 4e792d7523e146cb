// The discovery cache with its negative cache and exponential back-off
// (crates/common/src/discovery.rs). Times are instants in nanoseconds; the clock and
// the outcome of a network lookup are passed in.

module Discoveries {
  import opened Options

  type Time = int
  type Key = (string, string)   // domain and server type
  type Doc = string

  const SECOND: int := 1_000_000_000
  const CACHE_TTL: int := 60 * SECOND
  const BACKOFF_BASE: int := 15 * SECOND
  const BACKOFF_MAX: int := 300 * SECOND
  const U32_MAX: nat := 0xFFFF_FFFF

  datatype Failure = Failure(until: Time, strikes: nat)

  /** One network lookup; `doc` is absent when it failed. */
  datatype Lookup = Lookup(key: Key, start: Time, end: Time, doc: Option<Doc>)

  /** `lookups` is the history of network lookups, kept by this model only. */
  datatype State = State(cache: map<Key, (Doc, Time)>, failures: map<Key, Failure>, lookups: seq<Lookup>)

  function Pow2(n: nat): nat { if n == 0 then 1 else 2 * Pow2(n - 1) }

  function Min(a: int, b: int): int { if a < b then a else b }

  /** The back-off after strike number `strikes`: a shift of one, at most four places. */
  function Backoff(strikes: nat): int {
    Min(BACKOFF_BASE * Pow2(if Min(strikes, 5) >= 1 then Min(strikes, 5) - 1 else 0), BACKOFF_MAX)
  }

  function StrikesAfter(s: State, key: Key): nat {
    Min((if key in s.failures then s.failures[key].strikes else 0) + 1, U32_MAX)
  }

  function Looked(s: State, key: Key, now: Time, fetched: Option<Doc>, done: Time): State {
    var looked := s.(lookups := s.lookups + [Lookup(key, now, done, fetched)]);
    if fetched.None? then
      looked.(failures := s.failures[key := Failure(done + Backoff(StrikesAfter(s, key)), StrikesAfter(s, key))])
    else
      looked.(failures := s.failures - {key}, cache := s.cache[key := (fetched.value, done)])
  }

  predicate Cached(s: State, key: Key, now: Time) { key in s.cache && now - s.cache[key].1 < CACHE_TTL }

  predicate BackingOff(s: State, key: Key, now: Time) { key in s.failures && now < s.failures[key].until }

  /** `now` is when the call starts, `done` when its lookup, if it makes one, has ended. */
  function Answer(s: State, key: Key, now: Time, fetched: Option<Doc>, done: Time): (State, Option<Doc>) {
    if Cached(s, key, now) then (s, if key in s.cache then Some(s.cache[key].0) else None)
    else if BackingOff(s, key, now) then (s, None)
    else (Looked(s, key, now, fetched, done), fetched)
  }

  class Discovery {
    var cache: map<Key, (Doc, Time)>
    var failures: map<Key, Failure>
    ghost var lookups: seq<Lookup>

    ghost function Now(): State
      reads this
    {
      State(cache, failures, lookups)
    }

    /** Strike counts are 32-bit. */
    predicate Valid()
      reads this
    {
      forall k :: k in failures ==> failures[k].strikes <= U32_MAX
    }

    constructor ()
      ensures Now() == State(map[], map[], []) && Valid()
    {
      cache, failures, lookups := map[], map[], [];
    }

    /** Records a failed lookup. */
    method NoteFailure(key: Key, now: Time)
      modifies this`failures
      ensures failures == old(failures)[key := Failure(now + Backoff(StrikesAfter(old(Now()), key)), StrikesAfter(old(Now()), key))]
    {
      var strikes := if key in failures then failures[key].strikes else 0;
      strikes := if strikes < U32_MAX then strikes + 1 else U32_MAX;
      var shift := if strikes < 5 then strikes else 5;
      shift := if shift >= 1 then shift - 1 else 0;
      var factor := 1;
      for i := 0 to shift
        invariant factor == Pow2(i)
      {
        factor := factor * 2;
      }
      var backoff := BACKOFF_BASE * factor;
      if backoff > BACKOFF_MAX {
        backoff := BACKOFF_MAX;
      }
      failures := failures[key := Failure(now + backoff, strikes)];
    }

    method Discover(key: Key, now: Time, fetched: Option<Doc>, done: Time) returns (doc: Option<Doc>)
      requires Valid()
      modifies this
      ensures Valid()
      ensures (Now(), doc) == Answer(old(Now()), key, now, fetched, done)
    {
      if key in cache && now - cache[key].1 < CACHE_TTL {
        return Some(cache[key].0);
      }
      if key in failures && now < failures[key].until {
        return None;
      }
      lookups := lookups + [Lookup(key, now, done, fetched)];
      if fetched.None? {
        NoteFailure(key, done);
        return None;
      }
      failures := failures - {key};
      cache := cache[key := (fetched.value, done)];
      doc := fetched;
    }
  }

  // ── history ───────────────────────────────────────────────────────────

  function Last(ls: seq<Lookup>, key: Key): Option<Lookup> {
    if ls == [] then None
    else if ls[|ls| - 1].key == key then Some(ls[|ls| - 1])
    else Last(ls[..|ls| - 1], key)
  }

  /** How many lookups of this key have failed in a row, up to now. */
  function Streak(ls: seq<Lookup>, key: Key): nat {
    if ls == [] then 0
    else if ls[|ls| - 1].key != key then Streak(ls[..|ls| - 1], key)
    else if ls[|ls| - 1].doc.Some? then 0
    else Streak(ls[..|ls| - 1], key) + 1
  }

  /** The back-off after `k` failures in a row. */
  function Rest(k: nat): int { if k == 0 then 0 else 15 * Pow2(Min(k, 5) - 1) * SECOND }

  /** How long after `last` the key is left alone. */
  function Wait(ls: seq<Lookup>, last: Lookup): int {
    if last.doc.Some? then CACHE_TTL else Rest(Streak(ls, last.key))
  }

  /** Lookups of one key end before the next starts, with at least 15 seconds between. */
  predicate Spaced(ls: seq<Lookup>) {
    forall i, j :: 0 <= i < j < |ls| && ls[i].key == ls[j].key ==> ls[i].end + 15 * SECOND <= ls[j].start
  }

  predicate Timed(ls: seq<Lookup>, clock: Time) {
    forall i :: 0 <= i < |ls| ==> ls[i].start <= ls[i].end <= clock
  }

  /** What the maps remember about a key is what its lookups say. */
  predicate KeyOk(s: State, key: Key) {
    var last := Last(s.lookups, key);
    if last.None? then key !in s.cache && key !in s.failures
    else if last.value.doc.Some? then
      key !in s.failures && key in s.cache && s.cache[key] == (last.value.doc.value, last.value.end)
    else
      Streak(s.lookups, key) >= 1 &&
      key in s.failures && s.failures[key].strikes == Min(Streak(s.lookups, key), U32_MAX) &&
      s.failures[key].until == last.value.end + Wait(s.lookups, last.value) &&
      (key in s.cache ==> s.cache[key].1 + CACHE_TTL <= last.value.start)
  }

  ghost predicate Consistent(s: State, clock: Time) {
    (forall key {:trigger KeyOk(s, key)} :: KeyOk(s, key)) && Timed(s.lookups, clock) && Spaced(s.lookups)
  }

  // ── back-off ──────────────────────────────────────────────────────────

  /** 15, 30, 60, 120, then 240 seconds: the ceiling of 300 is never the bound that applies. */
  lemma BackoffExact(k: nat)
    requires k >= 1
    ensures Backoff(Min(k, U32_MAX)) == Rest(k) == 15 * Pow2(Min(k, 5) - 1) * SECOND
    ensures 15 * SECOND <= Backoff(Min(k, U32_MAX)) <= 240 * SECOND < BACKOFF_MAX
    ensures 1 <= Pow2(Min(k, 5) - 1) <= 16 <= U32_MAX
  {
    assert Pow2(1) == 2 && Pow2(2) == 4;
    assert Pow2(3) == 2 * Pow2(2) && Pow2(4) == 2 * Pow2(3);
  }

  lemma LastIs(ls: seq<Lookup>, key: Key)
    ensures Last(ls, key).Some? ==> Last(ls, key).value.key == key && Last(ls, key).value in ls
    ensures forall i :: 0 <= i < |ls| && ls[i].key == key ==> Last(ls, key).Some?
  {
  }

  /** Every earlier lookup of a key ended no later than its last one. */
  lemma LastLatest(ls: seq<Lookup>, key: Key, clock: Time)
    requires Timed(ls, clock) && Spaced(ls)
    ensures forall i :: 0 <= i < |ls| && ls[i].key == key ==> Last(ls, key).Some? && ls[i].end <= Last(ls, key).value.end
  {
  }

  // ── one call ──────────────────────────────────────────────────────────

  /** When a call reaches the network. */
  predicate Due(ls: seq<Lookup>, key: Key, now: Time) {
    Last(ls, key).Some? ==> now >= Last(ls, key).value.end + Wait(ls, Last(ls, key).value)
  }

  /** A call makes a lookup exactly when the key has rested for its cache time or its back-off. */
  lemma LooksUpWhenDue(s: State, key: Key, now: Time, clock: Time)
    requires Consistent(s, clock) && clock <= now
    ensures Due(s.lookups, key, now) <==> !Cached(s, key, now) && !BackingOff(s, key, now)
  {
    assert KeyOk(s, key);
    LastIs(s.lookups, key);
  }

  lemma LookedOther(s: State, key: Key, now: Time, fetched: Option<Doc>, done: Time, other: Key)
    requires KeyOk(s, other) && other != key
    ensures KeyOk(Looked(s, key, now, fetched, done), other)
  {
    LastIs(s.lookups, other);
    var ls := s.lookups + [Lookup(key, now, done, fetched)];
    assert ls[..|ls| - 1] == s.lookups;
  }

  lemma LookedKey(s: State, key: Key, now: Time, fetched: Option<Doc>, done: Time)
    requires KeyOk(s, key) && now <= done && !Cached(s, key, now)
    ensures KeyOk(Looked(s, key, now, fetched, done), key)
  {
    var ls := s.lookups + [Lookup(key, now, done, fetched)];
    assert ls[..|ls| - 1] == s.lookups;
    StreakAfterSuccess(s.lookups, key);
    if fetched.None? {
      BackoffExact(Streak(s.lookups, key) + 1);
      assert Last(ls, key).value == Lookup(key, now, done, fetched);
    }
  }

  lemma StreakAfterSuccess(ls: seq<Lookup>, key: Key)
    ensures Last(ls, key).None? || Last(ls, key).value.doc.Some? ==> Streak(ls, key) == 0
  {
  }

  lemma AnswerKeeps(s: State, key: Key, now: Time, fetched: Option<Doc>, done: Time, clock: Time)
    requires Consistent(s, clock) && clock <= now <= done
    ensures Consistent(Answer(s, key, now, fetched, done).0, done)
  {
    var s' := Answer(s, key, now, fetched, done).0;
    if Cached(s, key, now) || BackingOff(s, key, now) {
      assert s' == s;
    } else {
      assert KeyOk(s, key);
      forall other ensures KeyOk(s', other) {
        assert KeyOk(s, other);
        if other == key { LookedKey(s, key, now, fetched, done); } else { LookedOther(s, key, now, fetched, done, other); }
      }
      LooksUpWhenDue(s, key, now, clock);
      LastIs(s.lookups, key);
      LastLatest(s.lookups, key, clock);
      if Last(s.lookups, key).Some? { WaitAtLeast(s, key); }
      assert Spaced(s'.lookups);
    }
  }

  lemma WaitAtLeast(s: State, key: Key)
    requires KeyOk(s, key) && Last(s.lookups, key).Some?
    ensures Wait(s.lookups, Last(s.lookups, key).value) >= 15 * SECOND
  {
    LastIs(s.lookups, key);
    if Last(s.lookups, key).value.doc.None? { BackoffExact(Streak(s.lookups, key)); }
  }

  // ── every run ─────────────────────────────────────────────────────────

  /** A call, the time it starts and ends, and what the network would answer. */
  datatype Ask = Ask(key: Key, at: Time, fetched: Option<Doc>, done: Time)

  /** Calls follow one another. */
  predicate Sequential(asks: seq<Ask>, clock: Time)
    decreases |asks|
  {
    asks == [] || (clock <= asks[0].at <= asks[0].done && Sequential(asks[1..], asks[0].done))
  }

  function AskAll(s: State, asks: seq<Ask>): State
    decreases |asks|
  {
    if asks == [] then s else AskAll(Answer(s, asks[0].key, asks[0].at, asks[0].fetched, asks[0].done).0, asks[1..])
  }

  function Clock(asks: seq<Ask>, clock: Time): Time
    decreases |asks|
  {
    if asks == [] then clock else Clock(asks[1..], asks[0].done)
  }

  lemma {:induction false} RunConsistent(s: State, asks: seq<Ask>, clock: Time)
    requires Consistent(s, clock) && Sequential(asks, clock)
    ensures Consistent(AskAll(s, asks), Clock(asks, clock))
    decreases |asks|
  {
    if asks != [] {
      AnswerKeeps(s, asks[0].key, asks[0].at, asks[0].fetched, asks[0].done, clock);
      RunConsistent(Answer(s, asks[0].key, asks[0].at, asks[0].fetched, asks[0].done).0, asks[1..], asks[0].done);
    }
  }

  const Fresh: State := State(map[], map[], [])

  /** In every sequential run, two lookups of one key are at least 15 seconds apart, end to start. */
  lemma RateBound(asks: seq<Ask>, clock: Time, i: nat, j: nat)
    requires Sequential(asks, clock) && i < j < |AskAll(Fresh, asks).lookups|
    requires AskAll(Fresh, asks).lookups[i].key == AskAll(Fresh, asks).lookups[j].key
    ensures AskAll(Fresh, asks).lookups[i].end + 15 * SECOND <= AskAll(Fresh, asks).lookups[j].start
  {
    RunConsistent(Fresh, asks, clock);
  }

  /**
   * After any sequential run, a call reaches the network exactly when the key was
   * never looked up, or 60 seconds after a success, or 15 * 2^(min(k, 5) - 1) seconds
   * after the last of k failures in a row, which is never more than 240.
   */
  lemma ExactWait(asks: seq<Ask>, clock: Time, key: Key, now: Time, fetched: Option<Doc>, done: Time)
    requires Sequential(asks, clock) && Clock(asks, clock) <= now
    ensures var s := AskAll(Fresh, asks);
            |Answer(s, key, now, fetched, done).0.lookups| > |s.lookups| <==> Due(s.lookups, key, now)
    ensures var s := AskAll(Fresh, asks);
            var last := Last(s.lookups, key);
            last.Some? && last.value.doc.None? ==> 15 * SECOND <= Wait(s.lookups, last.value) <= 240 * SECOND
  {
    RunConsistent(Fresh, asks, clock);
    var s := AskAll(Fresh, asks);
    LooksUpWhenDue(s, key, now, Clock(asks, clock));
    assert KeyOk(s, key);
    LastIs(s.lookups, key);
    if Last(s.lookups, key).Some? && Last(s.lookups, key).value.doc.None? { BackoffExact(Streak(s.lookups, key)); }
  }

  /** A document that is handed out was fetched by this very call or less than 60 seconds before it. */
  lemma DocumentsRecent(asks: seq<Ask>, clock: Time, key: Key, now: Time, fetched: Option<Doc>, done: Time)
    requires Sequential(asks, clock) && Clock(asks, clock) <= now <= done
    requires Answer(AskAll(Fresh, asks), key, now, fetched, done).1.Some?
    ensures var (s', doc) := Answer(AskAll(Fresh, asks), key, now, fetched, done);
            exists l :: l in s'.lookups && l.key == key && l.doc == doc && now - l.end < CACHE_TTL
  {
    RunConsistent(Fresh, asks, clock);
    AnswerRecent(AskAll(Fresh, asks), key, now, fetched, done);
  }

  lemma AnswerRecent(s: State, key: Key, now: Time, fetched: Option<Doc>, done: Time)
    requires KeyOk(s, key) && Timed(s.lookups, now) && now <= done && Answer(s, key, now, fetched, done).1.Some?
    ensures var (s', doc) := Answer(s, key, now, fetched, done);
            exists l :: l in s'.lookups && l.key == key && l.doc == doc && now - l.end < CACHE_TTL
  {
    var (s', doc) := Answer(s, key, now, fetched, done);
    LastIs(s.lookups, key);
    if Cached(s, key, now) {
      assert Last(s.lookups, key).value in s'.lookups;
    } else {
      assert s'.lookups[|s.lookups|] == Lookup(key, now, done, fetched);
    }
  }

  /**
   * What a call answers after any sequential run: within 60 seconds of a success that
   * success's document, without a lookup; nothing, and no lookup, while the key backs
   * off; and otherwise what the network says.
   */
  lemma AnswersExactly(asks: seq<Ask>, clock: Time, key: Key, now: Time, fetched: Option<Doc>, done: Time)
    requires Sequential(asks, clock) && Clock(asks, clock) <= now
    ensures var s := AskAll(Fresh, asks);
            var last := Last(s.lookups, key);
            var (s', doc) := Answer(s, key, now, fetched, done);
            if last.Some? && last.value.doc.Some? && now < last.value.end + 60 * SECOND then s' == s && doc == last.value.doc
            else if !Due(s.lookups, key, now) then s' == s && doc.None?
            else s'.lookups == s.lookups + [Lookup(key, now, done, fetched)] && doc == fetched
  {
    RunConsistent(Fresh, asks, clock);
    AnswerIs(AskAll(Fresh, asks), key, now, fetched, done, Clock(asks, clock));
  }

  lemma AnswerIs(s: State, key: Key, now: Time, fetched: Option<Doc>, done: Time, clock: Time)
    requires Consistent(s, clock) && clock <= now
    ensures var last := Last(s.lookups, key);
            var (s', doc) := Answer(s, key, now, fetched, done);
            if last.Some? && last.value.doc.Some? && now < last.value.end + 60 * SECOND then s' == s && doc == last.value.doc
            else if !Due(s.lookups, key, now) then s' == s && doc.None?
            else s'.lookups == s.lookups + [Lookup(key, now, done, fetched)] && doc == fetched
  {
    LooksUpWhenDue(s, key, now, clock);
    assert KeyOk(s, key);
    LastIs(s.lookups, key);
  }
}
