/** Login and registration rate limits: fixed windows that start with a key's first attempt
    (internal/account/limiter.go, internal/account/direct_registration_limiter.go). */
module RateLimit {
  import opened Common
  import opened Bytes

  // ---------- one counter ----------

  /** A stored counter and the time its window began; it is gone once a full window has passed. */
  datatype Counter = Counter(count: nat, start: Time)

  predicate Live(c: Option<Counter>, now: Time, window: nat) {
    c.Some? && now < c.value.start + window
  }

  /** INCR, and PEXPIRE when the counter is new. */
  function Bump(c: Option<Counter>, now: Time, window: nat): (r: Counter) {
    if Live(c, now, window) then c.value.(count := c.value.count + 1) else Counter(1, now)
  }

  /** An attempt counted against one key: its time, and whether the call it belongs to was let through. */
  datatype Attempt = Attempt(at: Time, admitted: bool)

  /** The counter after a history of attempts. */
  function After(history: seq<Attempt>, window: nat): Option<Counter> {
    if history == [] then None
    else Some(Bump(After(history[..|history| - 1], window), history[|history| - 1].at, window))
  }

  /** Attempts let through with a time in [from, to). */
  function Admitted(history: seq<Attempt>, from: Time, to: Time): nat {
    if history == [] then 0
    else
      var last := history[|history| - 1];
      Admitted(history[..|history| - 1], from, to) + if last.admitted && from <= last.at < to then 1 else 0
  }

  /** The clock never goes back, and nothing is let through beyond its counter's limit. */
  ghost predicate Limited(history: seq<Attempt>, limit: nat, window: nat) {
    && (forall i, j :: 0 <= i < j < |history| ==> history[i].at <= history[j].at)
    && (forall i :: 0 <= i < |history| && history[i].admitted ==> CountAt(history, i, window) <= limit)
  }

  /** The count attempt `i` was answered with. */
  function CountAt(history: seq<Attempt>, i: nat, window: nat): nat
    requires i < |history|
  {
    After(history[..i + 1], window).value.count
  }

  lemma LimitedPrefix(history: seq<Attempt>, limit: nat, window: nat)
    requires Limited(history, limit, window) && history != []
    ensures Limited(history[..|history| - 1], limit, window)
    ensures var last := history[|history| - 1];
            last.admitted ==> After(history, window).value.count <= limit
  {
    var front := history[..|history| - 1];
    forall i | 0 <= i < |front| && front[i].admitted ensures CountAt(front, i, window) <= limit {
      assert front[..i + 1] == history[..i + 1];
      assert CountAt(history, i, window) <= limit;
    }
    assert history[..|history|] == history;
    if history[|history| - 1].admitted { assert CountAt(history, |history| - 1, window) <= limit; }
  }

  // ---------- counting admissions ----------

  lemma {:induction false} AdmittedSplit(history: seq<Attempt>, from: Time, mid: Time, to: Time)
    requires from <= mid <= to
    ensures Admitted(history, from, to) == Admitted(history, from, mid) + Admitted(history, mid, to)
  {
    if history != [] { AdmittedSplit(history[..|history| - 1], from, mid, to); }
  }

  lemma {:induction false} AdmittedWiden(history: seq<Attempt>, from: Time, to: Time, wideFrom: Time, wideTo: Time)
    requires wideFrom <= from && to <= wideTo
    ensures Admitted(history, from, to) <= Admitted(history, wideFrom, wideTo)
  {
    if history != [] { AdmittedWiden(history[..|history| - 1], from, to, wideFrom, wideTo); }
  }

  lemma {:induction false} NoneLater(history: seq<Attempt>, from: Time, to: Time)
    requires forall i :: 0 <= i < |history| ==> history[i].at < from
    ensures Admitted(history, from, to) == 0
  {
    if history != [] { NoneLater(history[..|history| - 1], from, to); }
  }

  // ---------- windows ----------

  ghost function Smaller(a: nat, b: nat): nat { if a < b then a else b }

  /** What the current window of a history knows: since it began no more were let through than counted or
      allowed, in the window length before it no more than allowed, and in no interval of that length twice it. */
  ghost predicate WithinLimits(history: seq<Attempt>, limit: nat, window: nat) {
    && (history != [] ==> WindowOk(history, After(history, window).value, limit, window))
    && (forall t, e :: e <= t + window ==> Admitted(history, t, e) <= 2 * limit)
  }

  ghost predicate WindowOk(history: seq<Attempt>, c: Counter, limit: nat, window: nat) {
    && c.count >= 1 && history != []
    && c.start <= history[|history| - 1].at < c.start + window
    && Admitted(history, c.start, c.start + window) <= Smaller(c.count, limit)
    && Admitted(history, c.start - window, c.start) <= limit
  }

  lemma {:induction false} LastIsLatest(history: seq<Attempt>, limit: nat, window: nat, from: Time, to: Time)
    requires Limited(history, limit, window) && history != [] && from > history[|history| - 1].at
    ensures Admitted(history, from, to) == 0
  {
    forall i | 0 <= i < |history| ensures history[i].at < from {
      assert i < |history| - 1 ==> history[i].at <= history[|history| - 1].at;
    }
    NoneLater(history, from, to);
  }

  /** One more attempt inside the window. */
  lemma SameWindow(history: seq<Attempt>, limit: nat, window: nat)
    requires window > 0 && Limited(history, limit, window) && |history| > 1
    requires var front := history[..|history| - 1];
             WithinLimits(front, limit, window) && Live(After(front, window), history[|history| - 1].at, window)
    ensures WindowOk(history, After(history, window).value, limit, window)
  {
    LimitedPrefix(history, limit, window);
    var front := history[..|history| - 1];
    assert front[|front| - 1] == history[|history| - 2];
  }

  /** An attempt that opens a new window. */
  lemma NewWindow(history: seq<Attempt>, limit: nat, window: nat)
    requires window > 0 && Limited(history, limit, window) && history != []
    requires var front := history[..|history| - 1];
             WithinLimits(front, limit, window) && !Live(After(front, window), history[|history| - 1].at, window)
    ensures WindowOk(history, After(history, window).value, limit, window)
  {
    LimitedPrefix(history, limit, window);
    var front, now := history[..|history| - 1], history[|history| - 1].at;
    if front != [] {
      var prior := After(front, window).value;
      var last := front[|front| - 1].at;
      assert last == history[|history| - 2].at <= now;
      assert last < prior.start + window <= now;
      LastIsLatest(front, limit, window, now, now + window);
      BeforeNewWindow(front, limit, window, now);
    }
  }

  /** What was let through in the window length before a new window fits one earlier window. */
  lemma BeforeNewWindow(front: seq<Attempt>, limit: nat, window: nat, now: Time)
    requires front != [] && Limited(front, limit, window) && WindowOk(front, After(front, window).value, limit, window)
    requires now >= After(front, window).value.start + window
    ensures Admitted(front, now - window, now) <= limit
  {
    var prior := After(front, window).value;
    var end := prior.start + window;
    if now - window <= end {
      AdmittedSplit(front, now - window, end, now);
      LastIsLatest(front, limit, window, end, now);
      AdmittedWiden(front, now - window, end, prior.start, end);
    } else {
      LastIsLatest(front, limit, window, now - window, now);
    }
  }

  /** Any interval of one window length meets at most two windows. */
  lemma IntervalOk(history: seq<Attempt>, limit: nat, window: nat, t: Time, e: Time)
    requires history != [] && Limited(history, limit, window) && e <= t + window
    requires WindowOk(history, After(history, window).value, limit, window)
    requires WithinLimits(history[..|history| - 1], limit, window)
    ensures Admitted(history, t, e) <= 2 * limit
  {
    var last := history[|history| - 1];
    var c := After(history, window).value;
    if last.admitted && t <= last.at < e {
      var end := c.start + window;
      if t < c.start {
        AdmittedWiden(history, t, e, c.start - window, end);
        AdmittedSplit(history, c.start - window, c.start, end);
      } else {
        BeyondWindow(history, limit, window, t, e);
      }
    }
  }

  lemma BeyondWindow(history: seq<Attempt>, limit: nat, window: nat, t: Time, e: Time)
    requires history != [] && Limited(history, limit, window)
    requires WindowOk(history, After(history, window).value, limit, window) && After(history, window).value.start <= t
    ensures Admitted(history, t, e) <= limit
  {
    var c := After(history, window).value;
    var end := c.start + window;
    if e <= end {
      AdmittedWiden(history, t, e, c.start, end);
    } else if t <= end {
      AdmittedSplit(history, t, end, e);
      LastIsLatest(history, limit, window, end, e);
      AdmittedWiden(history, t, end, c.start, end);
    } else {
      LastIsLatest(history, limit, window, t, e);
    }
  }

  lemma {:induction false} HistoryWithinLimits(history: seq<Attempt>, limit: nat, window: nat)
    requires window > 0 && Limited(history, limit, window)
    ensures WithinLimits(history, limit, window)
  {
    if history != [] {
      var front := history[..|history| - 1];
      LimitedPrefix(history, limit, window);
      HistoryWithinLimits(front, limit, window);
      if Live(After(front, window), history[|history| - 1].at, window) {
        SameWindow(history, limit, window);
      } else {
        NewWindow(history, limit, window);
      }
      forall t, e | e <= t + window ensures Admitted(history, t, e) <= 2 * limit {
        IntervalOk(history, limit, window, t, e);
      }
    }
  }

  /** A window lasts while the clock is short of its end. */
  lemma {:induction false} StartStays(history: seq<Attempt>, limit: nat, window: nat, n: nat)
    requires Limited(history, limit, window) && 0 < n <= |history|
    requires history[|history| - 1].at < After(history[..n], window).value.start + window
    ensures After(history, window).value.start == After(history[..n], window).value.start
  {
    if n == |history| {
      assert history[..n] == history;
    } else {
      var front := history[..|history| - 1];
      LimitedPrefix(history, limit, window);
      assert front[..n] == history[..n];
      assert front[|front| - 1].at <= history[|history| - 1].at;
      StartStays(front, limit, window, n);
    }
  }

  /** No window begun along a history lets through more than the limit, whatever comes after it. */
  lemma {:induction false} EveryWindowWithinLimit(history: seq<Attempt>, limit: nat, window: nat, n: nat)
    requires window > 0 && Limited(history, limit, window) && 0 < n <= |history|
    ensures var start := After(history[..n], window).value.start;
            Admitted(history, start, start + window) <= limit
  {
    var start := After(history[..n], window).value.start;
    var last := history[|history| - 1];
    if n < |history| {
      var front := history[..|history| - 1];
      LimitedPrefix(history, limit, window);
      assert front[..n] == history[..n];
      EveryWindowWithinLimit(front, limit, window, n);
    }
    if n == |history| || last.at < start + window {
      HistoryWithinLimits(history, limit, window);
      assert history[..|history|] == history;
      if n < |history| { StartStays(history, limit, window, n); }
    }
  }

  // ---------- the limiters ----------

  /** Counters are kept under the digest of an identity or of an address. */
  datatype Key = IdentityKey(digest: seq<Byte>) | AddressKey(digest: seq<Byte>)

  datatype Policy = Policy(identityLimit: nat, addressLimit: nat, window: nat)

  const MINUTE := 60_000
  const DAY := 24 * 60 * MINUTE

  /** What NewRedisLoginLimiter accepts; times in milliseconds. */
  predicate ValidPolicy(identityLimit: int, addressLimit: int, window: int) {
    0 < identityLimit <= addressLimit && MINUTE <= window <= DAY
  }

  /** The registration limiter has one limit, and windows from a second on. */
  predicate ValidAddressPolicy(addressLimit: int, window: int) {
    addressLimit > 0 && 1000 <= window <= DAY
  }

  function LimitOf(p: Policy, k: Key): nat { if k.IdentityKey? then p.identityLimit else p.addressLimit }

  type Counters = map<Key, Counter>

  function Get(c: Counters, k: Key): Option<Counter> { if k in c then Some(c[k]) else None }

  /** The script's INCR and PEXPIRE on one key. */
  function Increment(c: Counters, k: Key, now: Time, window: nat): Counters {
    c[k := Bump(Get(c, k), now, window)]
  }

  /** An attempt: the keys it is counted under, in order, and its time. */
  datatype Call = Call(keys: seq<Key>, at: Time)

  function LoginCall(identity: seq<Byte>, address: seq<Byte>, at: Time): Call {
    Call([IdentityKey(identity), AddressKey(address)], at)
  }

  function RegistrationCall(address: seq<Byte>, at: Time): Call { Call([AddressKey(address)], at) }

  function Counted(c: Counters, keys: seq<Key>, now: Time, window: nat): Counters {
    if keys == [] then c else Increment(Counted(c, keys[..|keys| - 1], now, window), keys[|keys| - 1], now, window)
  }

  lemma CountedOne(c: Counters, k: Key, now: Time, window: nat)
    ensures Counted(c, [k], now, window) == Increment(c, k, now, window)
  {
    var keys := [k];
    assert keys[..|keys| - 1] == [] && keys[|keys| - 1] == k;
    assert Counted(c, [], now, window) == c;
  }

  lemma CountedTwo(c: Counters, k: Key, l: Key, now: Time, window: nat)
    ensures Counted(c, [k, l], now, window) == Increment(Increment(c, k, now, window), l, now, window)
  {
    var keys := [k, l];
    assert keys[..|keys| - 1] == [k] && keys[|keys| - 1] == l;
    CountedOne(c, k, now, window);
  }

  /** Let through when every counter is within its limit. */
  predicate Allowed(p: Policy, c: Counters, keys: seq<Key>) {
    forall i :: 0 <= i < |keys| ==> keys[i] in c && c[keys[i]].count <= LimitOf(p, keys[i])
  }

  // ---------- every timeline ----------

  /** The store after a timeline of calls. */
  function Store(p: Policy, calls: seq<Call>): Counters {
    if calls == [] then map[]
    else
      var last := calls[|calls| - 1];
      Counted(Store(p, calls[..|calls| - 1]), last.keys, last.at, p.window)
  }

  /** The attempts a timeline counts against one key. */
  function HistoryOf(p: Policy, calls: seq<Call>, k: Key): seq<Attempt> {
    if calls == [] then []
    else
      var last := calls[|calls| - 1];
      var before := HistoryOf(p, calls[..|calls| - 1], k);
      if k in last.keys then before + [Attempt(last.at, Allowed(p, Store(p, calls), last.keys))] else before
  }

  /** Calls of either limiter, each key counted once per call, on a clock that never goes back. */
  ghost predicate Timeline(calls: seq<Call>) {
    && (forall i, j :: 0 <= i < j < |calls| ==> calls[i].at <= calls[j].at)
    && (forall i :: 0 <= i < |calls| ==> KeysOnce(calls[i].keys))
  }

  ghost predicate KeysOnce(keys: seq<Key>) {
    forall i, j :: 0 <= i < j < |keys| ==> keys[i] != keys[j]
  }

  lemma {:induction false} CountedOnce(c: Counters, keys: seq<Key>, now: Time, window: nat, k: Key)
    requires KeysOnce(keys)
    ensures Get(Counted(c, keys, now, window), k) == if k in keys then Some(Bump(Get(c, k), now, window)) else Get(c, k)
  {
    if keys != [] {
      var n := |keys| - 1;
      CountedOnce(c, keys[..n], now, window, k);
      assert keys == keys[..n] + [keys[n]];
      assert keys[n] !in keys[..n];
    }
  }

  /** The stored counter of a key is a function of the key's own history. */
  lemma {:induction false} StoreIsHistory(p: Policy, calls: seq<Call>, k: Key)
    requires Timeline(calls)
    ensures Get(Store(p, calls), k) == After(HistoryOf(p, calls, k), p.window)
  {
    if calls != [] {
      var front, last := calls[..|calls| - 1], calls[|calls| - 1];
      StoreIsHistory(p, front, k);
      CountedOnce(Store(p, front), last.keys, last.at, p.window, k);
      if k in last.keys {
        var h := HistoryOf(p, calls, k);
        assert h[..|h| - 1] == HistoryOf(p, front, k);
      }
    }
  }

  lemma {:induction false} HistoryTimes(p: Policy, calls: seq<Call>, k: Key, now: Time)
    requires Timeline(calls) && forall i :: 0 <= i < |calls| ==> calls[i].at <= now
    ensures forall i :: 0 <= i < |HistoryOf(p, calls, k)| ==> HistoryOf(p, calls, k)[i].at <= now
  {
    if calls != [] { HistoryTimes(p, calls[..|calls| - 1], k, now); }
  }

  lemma {:induction false} HistoryIsLimited(p: Policy, calls: seq<Call>, k: Key)
    requires Timeline(calls)
    ensures Limited(HistoryOf(p, calls, k), LimitOf(p, k), p.window)
  {
    if calls != [] {
      var front, last := calls[..|calls| - 1], calls[|calls| - 1];
      HistoryIsLimited(p, front, k);
      if k in last.keys {
        HistoryTimes(p, front, k, last.at);
        StoreIsHistory(p, calls, k);
        LimitedAppend(HistoryOf(p, front, k), Attempt(last.at, Allowed(p, Store(p, calls), last.keys)), LimitOf(p, k), p.window);
      }
    }
  }

  lemma LimitedAppend(history: seq<Attempt>, a: Attempt, limit: nat, window: nat)
    requires Limited(history, limit, window) && forall i :: 0 <= i < |history| ==> history[i].at <= a.at
    requires a.admitted ==> After(history + [a], window).value.count <= limit
    ensures Limited(history + [a], limit, window)
  {
    var more := history + [a];
    forall i | 0 <= i < |more| && more[i].admitted ensures CountAt(more, i, window) <= limit {
      if i < |history| {
        assert more[..i + 1] == history[..i + 1];
        assert CountAt(history, i, window) <= limit;
      } else {
        assert more[..i + 1] == more;
      }
    }
  }

  /** A key's history up to an earlier call is the beginning of its history. */
  lemma {:induction false} HistoryPrefix(p: Policy, calls: seq<Call>, k: Key, n: nat)
    requires n <= |calls|
    ensures HistoryOf(p, calls[..n], k) <= HistoryOf(p, calls, k)
  {
    if n == |calls| {
      assert calls[..n] == calls;
    } else {
      var front := calls[..|calls| - 1];
      assert front[..n] == calls[..n];
      HistoryPrefix(p, front, k, n);
    }
  }

  /** On every timeline and for every key: at most twice the limit is let through in any interval of one
      window length, and at most the limit in every window the key has begun along the way. */
  lemma AtMostTwiceTheLimit(p: Policy, calls: seq<Call>, k: Key, t: Time)
    requires Timeline(calls) && p.window > 0
    ensures Admitted(HistoryOf(p, calls, k), t, t + p.window) <= 2 * LimitOf(p, k)
    ensures forall n :: 0 <= n <= |calls| && k in Store(p, calls[..n]) ==>
              var start := Store(p, calls[..n])[k].start;
              Admitted(HistoryOf(p, calls, k), start, start + p.window) <= LimitOf(p, k)
  {
    var h := HistoryOf(p, calls, k);
    HistoryIsLimited(p, calls, k);
    HistoryWithinLimits(h, LimitOf(p, k), p.window);
    assert t + p.window <= t + p.window;
    forall n | 0 <= n <= |calls| && k in Store(p, calls[..n])
      ensures var start := Store(p, calls[..n])[k].start;
              Admitted(h, start, start + p.window) <= LimitOf(p, k)
    {
      TimelinePrefix(calls, n);
      StoreIsHistory(p, calls[..n], k);
      HistoryPrefix(p, calls, k, n);
      var m := |HistoryOf(p, calls[..n], k)|;
      assert h[..m] == HistoryOf(p, calls[..n], k);
      EveryWindowWithinLimit(h, LimitOf(p, k), p.window, m);
    }
  }

  // ---------- who is let through ----------

  /** Attempts from `from` on, let through or not. */
  function Attempts(history: seq<Attempt>, from: Time): nat {
    if history == [] then 0
    else Attempts(history[..|history| - 1], from) + if history[|history| - 1].at >= from then 1 else 0
  }

  lemma {:induction false} NoAttemptsLater(history: seq<Attempt>, from: Time)
    requires forall i :: 0 <= i < |history| ==> history[i].at < from
    ensures Attempts(history, from) == 0
  {
    if history != [] { NoAttemptsLater(history[..|history| - 1], from); }
  }

  /** A counter counts the attempts since its window began, which one of them did, less than a window ago. */
  lemma {:induction false} CounterCounts(history: seq<Attempt>, window: nat)
    requires history != [] && window > 0 && forall i, j :: 0 <= i < j < |history| ==> history[i].at <= history[j].at
    ensures var c := After(history, window).value;
            && c.count == Attempts(history, c.start) && (exists i :: 0 <= i < |history| && history[i].at == c.start)
            && c.start <= history[|history| - 1].at < c.start + window
  {
    var front, last := history[..|history| - 1], history[|history| - 1];
    if front != [] {
      CounterCounts(front, window);
      var prior := After(front, window).value;
      if last.at < prior.start + window {
        var i :| 0 <= i < |front| && front[i].at == prior.start;
        assert history[i].at == prior.start;
      } else {
        forall i | 0 <= i < |front| ensures front[i].at < last.at { assert front[i].at <= front[|front| - 1].at; }
        NoAttemptsLater(front, last.at);
      }
    }
  }

  /** The attempts counted against a key in the window it is in. */
  ghost function InWindow(p: Policy, calls: seq<Call>, k: Key): nat
    requires k in Store(p, calls)
  {
    Attempts(HistoryOf(p, calls, k), Store(p, calls)[k].start)
  }

  /** A call is let through exactly when, itself included, none of its keys has been tried more often than its limit
      since its window began: so the first attempts of a window, up to the limit, are. */
  lemma LetThroughIff(p: Policy, calls: seq<Call>, call: Call)
    requires Timeline(calls + [call]) && p.window > 0
    ensures forall i :: 0 <= i < |call.keys| ==> call.keys[i] in Store(p, calls + [call])
    ensures Allowed(p, Store(p, calls + [call]), call.keys) <==>
            forall i :: 0 <= i < |call.keys| ==> InWindow(p, calls + [call], call.keys[i]) <= LimitOf(p, call.keys[i])
  {
    forall i | 0 <= i < |call.keys|
      ensures call.keys[i] in Store(p, calls + [call])
      ensures InWindow(p, calls + [call], call.keys[i]) == Store(p, calls + [call])[call.keys[i]].count
    {
      KeyCounted(p, calls, call, call.keys[i]);
    }
  }

  lemma KeyCounted(p: Policy, calls: seq<Call>, call: Call, k: Key)
    requires Timeline(calls + [call]) && p.window > 0 && k in call.keys
    ensures k in Store(p, calls + [call]) && InWindow(p, calls + [call], k) == Store(p, calls + [call])[k].count
  {
    var all := calls + [call];
    assert all[..|all| - 1] == calls && all[|all| - 1] == call;
    StoreIsHistory(p, all, k);
    HistoryIsLimited(p, all, k);
    CounterCounts(HistoryOf(p, all, k), p.window);
  }

  // ---------- windows are not extended ----------

  /** Attempts within a window, let through or refused, do not move its start. */
  lemma {:induction false} WindowKeepsItsStart(p: Policy, calls: seq<Call>, more: seq<Call>, k: Key)
    requires Timeline(calls + more) && k in Store(p, calls)
    requires forall i :: 0 <= i < |more| ==> more[i].at < Store(p, calls)[k].start + p.window
    ensures k in Store(p, calls + more) && Store(p, calls + more)[k].start == Store(p, calls)[k].start
  {
    if more == [] {
      assert calls + more == calls;
    } else {
      var front, last := more[..|more| - 1], more[|more| - 1];
      var all := calls + more;
      assert all[..|all| - 1] == calls + front && all[|all| - 1] == last;
      TimelinePrefix(all, |all| - 1);
      WindowKeepsItsStart(p, calls, front, k);
      assert KeysOnce(all[|all| - 1].keys);
      CountedOnce(Store(p, calls + front), last.keys, last.at, p.window, k);
    }
  }

  lemma TimelinePrefix(calls: seq<Call>, n: nat)
    requires Timeline(calls) && n <= |calls|
    ensures Timeline(calls[..n])
  {
  }

  /** However often a key is tried meanwhile, its own counter lets it through once a full window has passed
      since that window began. */
  lemma AdmissibleAfterWindow(p: Policy, calls: seq<Call>, more: seq<Call>, k: Key, next: Call)
    requires Timeline(calls + more + [next]) && k in Store(p, calls) && k in next.keys && LimitOf(p, k) >= 1
    requires forall i :: 0 <= i < |more| ==> more[i].at < Store(p, calls)[k].start + p.window
    requires next.at >= Store(p, calls)[k].start + p.window
    ensures k in Store(p, calls + more + [next]) && Store(p, calls + more + [next])[k] == Counter(1, next.at)
    ensures Store(p, calls + more + [next])[k].count <= LimitOf(p, k)
  {
    var all := calls + more + [next];
    assert all[..|all| - 1] == calls + more && all[|all| - 1] == next;
    TimelinePrefix(all, |all| - 1);
    WindowKeepsItsStart(p, calls, more, k);
    assert KeysOnce(all[|all| - 1].keys);
    CountedOnce(Store(p, calls + more), next.keys, next.at, p.window, k);
  }

  // ---------- the limiter objects ----------

  /** `calls` are the attempts counted so far. */
  class Limiter {
    const policy: Policy
    var counters: Counters
    ghost var calls: seq<Call>

    /** The counters are those of the attempts so far, and an address always has a limit to keep. */
    ghost predicate Valid() reads this {
      counters == Store(policy, calls) && policy.window > 0 && policy.addressLimit > 0
    }

    constructor (policy: Policy)
      requires policy.window > 0 && policy.addressLimit > 0
      ensures Valid() && this.policy == policy && calls == []
    {
      this.policy := policy;
      counters := map[];
      calls := [];
    }

    /** RedisLoginLimiter.Allow: one script run, then both counts compared; a malformed digest or address is not counted. */
    method AllowLogin(identity: seq<Byte>, address: Option<seq<Byte>>, now: Time) returns (allowed: Option<bool>)
      requires Valid()
      modifies this
      ensures Valid()
      ensures |identity| != 32 || address.None? ==> allowed.None? && calls == old(calls)
      ensures |identity| == 32 && address.Some? ==>
                && calls == old(calls) + [LoginCall(identity, address.value, now)]
                && allowed == Some(Allowed(policy, Store(policy, calls), LoginCall(identity, address.value, now).keys))
    {
      if |identity| != 32 || address.None? { return None; }
      var call := LoginCall(identity, address.value, now);
      var first, second := call.keys[0], call.keys[1];
      var once := Increment(counters, first, now, policy.window);
      var twice := Increment(once, second, now, policy.window);
      LoginCounts(policy, calls, identity, address.value, now);
      counters := twice;
      calls := calls + [call];
      allowed := Some(once[first].count <= policy.identityLimit && twice[second].count <= policy.addressLimit);
    }

    /** RedisDirectRegistrationLimiter.Allow: the single-counter form. */
    method AllowRegistration(address: Option<seq<Byte>>, now: Time) returns (allowed: Option<bool>)
      requires Valid()
      modifies this
      ensures Valid()
      ensures address.None? ==> allowed.None? && calls == old(calls)
      ensures address.Some? ==>
                && calls == old(calls) + [RegistrationCall(address.value, now)]
                && allowed == Some(Allowed(policy, Store(policy, calls), RegistrationCall(address.value, now).keys))
    {
      if address.None? { return None; }
      var key := AddressKey(address.value);
      counters := Increment(counters, key, now, policy.window);
      CountedOne(old(counters), key, now, policy.window);
      assert RegistrationCall(address.value, now).keys == [key];
      allowed := Some(counters[key].count <= policy.addressLimit);
      StoreNext(policy, calls, RegistrationCall(address.value, now));
      calls := calls + [RegistrationCall(address.value, now)];
    }
  }

  /** The two counts the login script returns are the stored ones. */
  lemma LoginCounts(p: Policy, calls: seq<Call>, identity: seq<Byte>, address: seq<Byte>, now: Time)
    ensures var call := LoginCall(identity, address, now);
            var once := Increment(Store(p, calls), IdentityKey(identity), now, p.window);
            var twice := Increment(once, AddressKey(address), now, p.window);
            && Store(p, calls + [call]) == twice
            && (Allowed(p, twice, call.keys) <==>
                once[IdentityKey(identity)].count <= p.identityLimit && twice[AddressKey(address)].count <= p.addressLimit)
  {
    var call := LoginCall(identity, address, now);
    StoreNext(p, calls, call);
    CountedTwo(Store(p, calls), IdentityKey(identity), AddressKey(address), now, p.window);
    var keys := call.keys;
    assert keys[0] == IdentityKey(identity) && keys[1] == AddressKey(address) && |keys| == 2;
  }

  lemma StoreNext(p: Policy, calls: seq<Call>, call: Call)
    ensures Store(p, calls + [call]) == Counted(Store(p, calls), call.keys, call.at, p.window)
  {
    var more := calls + [call];
    assert more[..|more| - 1] == calls;
  }

  method NewLoginLimiter(identityLimit: int, addressLimit: int, window: int) returns (limiter: Option<Limiter>)
    ensures limiter.Some? <==> ValidPolicy(identityLimit, addressLimit, window)
    ensures limiter.Some? ==>
              && fresh(limiter.value) && limiter.value.Valid() && limiter.value.calls == []
              && limiter.value.policy == Policy(identityLimit, addressLimit, window) && identityLimit > 0
  {
    if !ValidPolicy(identityLimit, addressLimit, window) { return None; }
    var l := new Limiter(Policy(identityLimit, addressLimit, window));
    limiter := Some(l);
  }

  method NewRegistrationLimiter(addressLimit: int, window: int) returns (limiter: Option<Limiter>)
    ensures limiter.Some? <==> ValidAddressPolicy(addressLimit, window)
    ensures limiter.Some? ==>
              && fresh(limiter.value) && limiter.value.Valid() && limiter.value.calls == []
              && limiter.value.policy == Policy(0, addressLimit, window)
  {
    if !ValidAddressPolicy(addressLimit, window) { return None; }
    var l := new Limiter(Policy(0, addressLimit, window));
    limiter := Some(l);
  }
}
