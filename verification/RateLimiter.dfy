/**
 The gateway's fixed-window rate limiter (internal/gateway/adapters/http/router.go).
 Times count from Go's zero time, which is also the reset time of an entry that is
 not in the table yet.
 */
module RateLimiting {
  import opened Results

  datatype Entry = Entry(count: nat, reset: int)

  /** One request that reached the limiter, and what the limiter answered. */
  datatype Call = Call(key: string, at: nat, allowed: bool)

  datatype Request = Request(key: string, at: nat)

  datatype State = State(entries: map<string, Entry>, log: seq<Call>)

  function EntryOf(entries: map<string, Entry>, key: string): Entry {
    if key in entries then entries[key] else Entry(0, 0)
  }

  /** The counting entry that a request at time `now` leaves behind. */
  function Counted(entry: Entry, window: int, now: nat): Entry {
    if now >= entry.reset then Entry(1, now + window) else Entry(entry.count + 1, entry.reset)
  }

  function Serve(limit: int, window: int, st: State, r: Request): State {
    var entry := Counted(EntryOf(st.entries, r.key), window, r.at);
    State(st.entries[r.key := entry], st.log + [Call(r.key, r.at, entry.count <= limit)])
  }

  function Run(limit: int, window: int, requests: seq<Request>): State {
    if requests == [] then State(map[], [])
    else Serve(limit, window, Run(limit, window, requests[..|requests| - 1]), requests[|requests| - 1])
  }

  ghost predicate Clocked(requests: seq<Request>) {
    forall i, j :: 0 <= i < j < |requests| ==> requests[i].at <= requests[j].at
  }

  /** The number of allowed calls of one key in the half-open interval [lo, hi). */
  function Allowed(log: seq<Call>, key: string, lo: int, hi: int): nat {
    if log == [] then 0
    else
      var c := log[|log| - 1];
      Allowed(log[..|log| - 1], key, lo, hi) + (if c.key == key && c.allowed && lo <= c.at < hi then 1 else 0)
  }

  /** What one key gets through in the interval of one window's length that starts at `from`. */
  function AllowedFrom(log: seq<Call>, key: string, from: int, window: int): nat {
    Allowed(log, key, from, from + window)
  }

  function Max(a: int, b: int): int {
    if a < b then b else a
  }

  function Min(a: int, b: int): int {
    if a < b then a else b
  }

  lemma {:induction false} AllowedSplit(log: seq<Call>, key: string, lo: int, mid: int, hi: int)
    requires lo <= mid <= hi
    ensures Allowed(log, key, lo, hi) == Allowed(log, key, lo, mid) + Allowed(log, key, mid, hi)
  {
    if log != [] {
      AllowedSplit(log[..|log| - 1], key, lo, mid, hi);
    }
  }

  lemma {:induction false} AllowedNone(log: seq<Call>, key: string, lo: int, hi: int)
    requires forall c <- log :: c.key == key ==> !(lo <= c.at < hi)
    ensures Allowed(log, key, lo, hi) == 0
  {
    if log != [] {
      AllowedNone(log[..|log| - 1], key, lo, hi);
    }
  }

  /** Less than one window back from `start`, at most limit - 1 calls were let through up to it. */
  ghost predicate LowBefore(log: seq<Call>, key: string, start: int, window: int, limit: int) {
    forall a :: start - window < a <= start ==> Allowed(log, key, a, start) <= Max(limit - 1, 0)
  }

  /** The invariant of one key: what its current counting window has let through. */
  ghost predicate Bounded(limit: int, window: int, st: State, key: string) {
    && (forall a :: AllowedFrom(st.log, key, a, window) <= Max(2 * limit - 1, 0))
    && (key !in st.entries ==> forall c <- st.log :: c.key != key)
    && (key in st.entries ==>
          var e := st.entries[key];
          var start := e.reset - window;
          && st.log != [] && 0 <= start <= st.log[|st.log| - 1].at
          && (forall c <- st.log :: c.key == key ==> c.at < e.reset)
          && Allowed(st.log, key, start, e.reset) == Max(Min(e.count, limit), 0)
          && (1 <= limit ==> 1 <= Allowed(st.log, key, start, start + 1))
          && LowBefore(st.log, key, start, window, limit))
  }

  /** A call of another key, or a call outside the interval, leaves the count alone. */
  lemma AllowedAppend(log: seq<Call>, c: Call, key: string, lo: int, hi: int)
    ensures Allowed(log + [c], key, lo, hi)
         == Allowed(log, key, lo, hi) + (if c.key == key && c.allowed && lo <= c.at < hi then 1 else 0)
  {
    assert (log + [c])[..|log|] == log;
  }

  /**
   Up to the start of a new window, less than one window back, an earlier window let at most limit - 1 calls
   through.
   */
  lemma {:induction false} LowBeforeOpening(limit: int, window: int, st: State, key: string, at: int, a: int)
    requires 0 < window && Bounded(limit, window, st, key) && (forall c <- st.log :: c.at <= at)
    requires EntryOf(st.entries, key).reset <= at && at - window < a <= at
    ensures Allowed(st.log, key, a, at) <= Max(limit - 1, 0)
  {
    if key !in st.entries {
      AllowedNone(st.log, key, a, at);
    } else {
      var e := st.entries[key];
      var start := e.reset - window;
      AllowedSplit(st.log, key, start, start + 1, at);
      AllowedSplit(st.log, key, start + 1, a, at);
      AllowedSplit(st.log, key, start, e.reset, at);
      AllowedNone(st.log, key, e.reset, at);
    }
  }

  /** A call at or after an instant changes no count up to it. */
  lemma {:induction false} LowBeforeAppend(log: seq<Call>, c: Call, key: string, start: int, window: int, limit: int)
    requires start <= c.at && LowBefore(log, key, start, window, limit)
    ensures LowBefore(log + [c], key, start, window, limit)
  {
    forall a | start - window < a <= start
      ensures Allowed(log + [c], key, a, start) <= Max(limit - 1, 0)
    {
      AllowedAppend(log, c, key, a, start);
    }
  }

  lemma {:induction false} OpensWindow(limit: int, window: int, st: State, r: Request, st': State)
    requires 0 < window && Bounded(limit, window, st, r.key)
    requires forall c <- st.log :: c.at <= r.at
    requires st' == Serve(limit, window, st, r)
    requires r.at >= EntryOf(st.entries, r.key).reset
    ensures st'.entries[r.key] == Entry(1, r.at + window)
    ensures Allowed(st'.log, r.key, r.at, r.at + window) == Max(Min(1, limit), 0)
    ensures 1 <= limit ==> 1 <= Allowed(st'.log, r.key, r.at, r.at + 1)
    ensures LowBefore(st'.log, r.key, r.at, window, limit)
  {
    var c := Call(r.key, r.at, 1 <= limit);
    AllowedAppend(st.log, c, r.key, r.at, r.at + window);
    AllowedAppend(st.log, c, r.key, r.at, r.at + 1);
    NothingAllowedYet(limit, window, st, r, r.at + window);
    NothingAllowedYet(limit, window, st, r, r.at + 1);
    forall a | r.at - window < a <= r.at
      ensures Allowed(st.log, r.key, a, r.at) <= Max(limit - 1, 0)
    {
      LowBeforeOpening(limit, window, st, r.key, r.at, a);
    }
    LowBeforeAppend(st.log, c, r.key, r.at, window, limit);
  }

  lemma {:induction false} NothingAllowedYet(limit: int, window: int, st: State, r: Request, hi: int)
    requires Bounded(limit, window, st, r.key) && r.at >= EntryOf(st.entries, r.key).reset
    ensures Allowed(st.log, r.key, r.at, hi) == 0
  {
    AllowedNone(st.log, r.key, r.at, hi);
  }

  lemma {:induction false} JoinsWindow(limit: int, window: int, st: State, r: Request, st': State)
    requires 0 < window && Bounded(limit, window, st, r.key)
    requires forall c <- st.log :: c.at <= r.at
    requires st' == Serve(limit, window, st, r)
    requires r.at < EntryOf(st.entries, r.key).reset
    ensures r.key in st.entries
    ensures var e := st'.entries[r.key]; var start := e.reset - window;
            && Allowed(st'.log, r.key, start, e.reset) == Max(Min(e.count, limit), 0)
            && (1 <= limit ==> 1 <= Allowed(st'.log, r.key, start, start + 1))
            && LowBefore(st'.log, r.key, start, window, limit)
  {
    var e := st.entries[r.key];
    var start := e.reset - window;
    var c := Call(r.key, r.at, e.count + 1 <= limit);
    assert st.log[|st.log| - 1] in st.log;
    AllowedAppend(st.log, c, r.key, start, e.reset);
    AllowedAppend(st.log, c, r.key, start, start + 1);
    LowBeforeAppend(st.log, c, r.key, start, window, limit);
  }

  /** A call of another key changes nothing about this one. */
  lemma OtherKeyKeepsBound(limit: int, window: int, st: State, r: Request, key: string)
    requires 0 < window && Bounded(limit, window, st, key) && r.key != key
    requires forall c <- st.log :: c.at <= r.at
    ensures Bounded(limit, window, Serve(limit, window, st, r), key)
  {
    var st' := Serve(limit, window, st, r);
    var c := st'.log[|st.log|];
    forall a, b
      ensures Allowed(st'.log, key, a, b) == Allowed(st.log, key, a, b)
    {
      AllowedAppend(st.log, c, key, a, b);
    }
    forall a
      ensures AllowedFrom(st'.log, key, a, window) <= Max(2 * limit - 1, 0)
    {
      assert AllowedFrom(st.log, key, a, window) <= Max(2 * limit - 1, 0);
    }
  }

  /** The call opens a window or joins the one that is open; either way the new window is in order. */
  lemma {:induction false} WindowAfterCall(limit: int, window: int, st: State, r: Request)
    requires 0 < window && Bounded(limit, window, st, r.key)
    requires forall c <- st.log :: c.at <= r.at
    ensures var st' := Serve(limit, window, st, r);
            && r.key in st'.entries && (forall c <- st'.log :: c.key == r.key ==> c.at < st'.entries[r.key].reset)
            && var e := st'.entries[r.key]; var start := e.reset - window;
            && 0 <= start <= r.at
            && Allowed(st'.log, r.key, start, e.reset) == Max(Min(e.count, limit), 0)
            && (1 <= limit ==> 1 <= Allowed(st'.log, r.key, start, start + 1))
            && LowBefore(st'.log, r.key, start, window, limit)
  {
    var st' := Serve(limit, window, st, r);
    if r.at >= EntryOf(st.entries, r.key).reset {
      OpensWindow(limit, window, st, r, st');
    } else {
      assert st.log[|st.log| - 1] in st.log;
      JoinsWindow(limit, window, st, r, st');
    }
  }

  lemma {:induction false} IntervalAfterCall(limit: int, window: int, st: State, r: Request, a: int)
    requires 0 < window && Bounded(limit, window, st, r.key)
    requires forall c <- st.log :: c.at <= r.at
    ensures AllowedFrom(Serve(limit, window, st, r).log, r.key, a, window) <= Max(2 * limit - 1, 0)
  {
    var st' := Serve(limit, window, st, r);
    assert AllowedFrom(st.log, r.key, a, window) <= Max(2 * limit - 1, 0);
    if a <= r.at < a + window {
      WindowAfterCall(limit, window, st, r);
      WindowsOverlap(limit, window, st', r.key, a);
    } else {
      AllowedAppend(st.log, st'.log[|st.log|], r.key, a, a + window);
    }
  }

  lemma {:induction false} OwnKeyKeepsBound(limit: int, window: int, st: State, r: Request)
    requires 0 < window && Bounded(limit, window, st, r.key)
    requires forall c <- st.log :: c.at <= r.at
    ensures Bounded(limit, window, Serve(limit, window, st, r), r.key)
  {
    WindowAfterCall(limit, window, st, r);
    forall a
      ensures AllowedFrom(Serve(limit, window, st, r).log, r.key, a, window) <= Max(2 * limit - 1, 0)
    {
      IntervalAfterCall(limit, window, st, r, a);
    }
  }

  lemma ServeKeepsBound(limit: int, window: int, st: State, r: Request, key: string)
    requires 0 < window && Bounded(limit, window, st, key)
    requires forall c <- st.log :: c.at <= r.at
    ensures Bounded(limit, window, Serve(limit, window, st, r), key)
  {
    if r.key == key {
      OwnKeyKeepsBound(limit, window, st, r);
    } else {
      OtherKeyKeepsBound(limit, window, st, r, key);
    }
  }

  /** An interval that reaches the current window overlaps it and at most one window before it. */
  lemma WindowsOverlap(limit: int, window: int, st: State, key: string, a: int)
    requires 0 < window && key in st.entries
    requires var e := st.entries[key]; var start := e.reset - window;
             && (forall c <- st.log :: c.key == key ==> c.at < e.reset)
             && Allowed(st.log, key, start, e.reset) <= Max(limit, 0)
             && LowBefore(st.log, key, start, window, limit)
             && start < a + window
    ensures Allowed(st.log, key, a, a + window) <= Max(2 * limit - 1, 0)
  {
    var e := st.entries[key];
    var start := e.reset - window;
    var end := Max(a + window, e.reset);
    AllowedNone(st.log, key, e.reset, end);
    AllowedSplit(st.log, key, start, e.reset, end);
    if a <= start {
      AllowedSplit(st.log, key, a, start, a + window);
      AllowedSplit(st.log, key, start, a + window, end);
    } else {
      AllowedSplit(st.log, key, start, a, end);
    }
  }

  lemma {:induction false} RunKeepsBound(limit: int, window: int, requests: seq<Request>, key: string)
    requires 0 < window && Clocked(requests)
    ensures Bounded(limit, window, Run(limit, window, requests), key)
    ensures var log := Run(limit, window, requests).log;
            |log| == |requests| && forall i :: 0 <= i < |log| ==> log[i].key == requests[i].key && log[i].at == requests[i].at
  {
    if requests != [] {
      var before := requests[..|requests| - 1];
      RunKeepsBound(limit, window, before, key);
      ServeKeepsBound(limit, window, Run(limit, window, before), requests[|requests| - 1], key);
    }
  }

  /** The rate bound: no interval one window long lets more than 2 * limit - 1 calls of a key through. */
  lemma SlidingWindowBound(limit: int, window: int, requests: seq<Request>, key: string, from: int)
    requires Clocked(requests)
    ensures AllowedFrom(Run(limit, window, requests).log, key, from, window) <= Max(2 * limit - 1, 0)
  {
    if 0 < window {
      RunKeepsBound(limit, window, requests, key);
    } else {
      AllowedNone(Run(limit, window, requests).log, key, from, from + window);
    }
  }

  /**
   The window that is being counted lets exactly the smaller of its calls and `limit` through; an earlier
   window is the one counted at the end of the part of the run that it closes.
   */
  lemma CountingWindowBound(limit: int, window: int, requests: seq<Request>, key: string)
    requires Clocked(requests) && 0 < window && key in Run(limit, window, requests).entries
    ensures var st := Run(limit, window, requests); var e := st.entries[key];
            Allowed(st.log, key, e.reset - window, e.reset) == Max(Min(e.count, limit), 0)
  {
    RunKeepsBound(limit, window, requests, key);
  }

  function Burst(key: string, at: nat, n: nat): seq<Request> {
    seq(n, _ => Request(key, at))
  }

  lemma RunAppend(limit: int, window: int, before: seq<Request>, r: Request)
    ensures Run(limit, window, before + [r]) == Serve(limit, window, Run(limit, window, before), r)
  {
    assert (before + [r])[..|before|] == before;
  }

  /** `n` more calls of the key in its open window, all let through, all between `lo` and `hi`. */
  ghost predicate Fills(st: State, st': State, key: string, n: nat, lo: int, hi: int) {
    && EntryOf(st'.entries, key).reset == EntryOf(st.entries, key).reset
    && EntryOf(st'.entries, key).count == EntryOf(st.entries, key).count + n
    && Allowed(st'.log, key, lo, hi) == Allowed(st.log, key, lo, hi) + n
  }

  /** One more call inside an open window, within the limit, is let through. */
  lemma {:induction false} OneMoreAllowed(limit: int, window: int, before: seq<Request>, key: string, at: nat, lo: int, hi: int)
    requires var e := EntryOf(Run(limit, window, before).entries, key); at < e.reset && e.count + 1 <= limit
    requires lo <= at < hi
    ensures Fills(Run(limit, window, before), Run(limit, window, before + [Request(key, at)]), key, 1, lo, hi)
  {
    AllowedAppend(Run(limit, window, before).log, Call(key, at, true), key, lo, hi);
    RunAppend(limit, window, before, Request(key, at));
  }

  lemma {:induction false} FillsOn(a: State, b: State, c: State, key: string, n: nat, lo: int, hi: int)
    requires Fills(a, b, key, n, lo, hi) && Fills(b, c, key, 1, lo, hi)
    ensures Fills(a, c, key, n + 1, lo, hi)
  {
  }

  lemma {:induction false} BurstNext(before: seq<Request>, key: string, at: nat, n: nat)
    ensures before + Burst(key, at, n + 1) == before + Burst(key, at, n) + [Request(key, at)]
  {
  }

  /** A burst inside an open window is let through as long as the count stays within the limit. */
  lemma {:induction false} BurstAllowed(limit: int, window: int, before: seq<Request>, key: string, at: nat, n: nat, lo: int, hi: int)
    requires var e := EntryOf(Run(limit, window, before).entries, key); at < e.reset && e.count + n <= limit
    requires lo <= at < hi
    ensures Fills(Run(limit, window, before), Run(limit, window, before + Burst(key, at, n)), key, n, lo, hi)
  {
    if n == 0 {
      assert before + Burst(key, at, 0) == before;
    } else {
      var most := before + Burst(key, at, n - 1);
      BurstAllowed(limit, window, before, key, at, n - 1, lo, hi);
      OneMoreAllowed(limit, window, most, key, at, lo, hi);
      BurstNext(before, key, at, n - 1);
      FillsOn(Run(limit, window, before), Run(limit, window, most), Run(limit, window, most + [Request(key, at)]), key, n - 1, lo, hi);
    }
  }

  /** One call at time 0 opens a window and a burst at its last instant fills it. */
  function FilledWindow(key: string, limit: nat, window: nat): seq<Request>
    requires 1 <= limit && 2 <= window
  {
    [Request(key, 0)] + Burst(key, window - 1, limit - 1)
  }

  /** The request pattern that reaches the bound: one call opens a window, a burst ends it, a burst opens the next. */
  function Spike(key: string, limit: nat, window: nat): seq<Request>
    requires 1 <= limit && 2 <= window
  {
    FilledWindow(key, limit, window) + [Request(key, window)] + Burst(key, window, limit - 1)
  }

  lemma SpikeIsClocked(key: string, limit: nat, window: nat)
    requires 1 <= limit && 2 <= window
    ensures Clocked(Spike(key, limit, window))
  {
  }

  lemma OneCall(key: string, limit: nat, window: nat, lo: int, hi: int)
    requires 1 <= limit && 2 <= window && 0 < lo
    ensures var st := Run(limit, window, [Request(key, 0)]);
            && EntryOf(st.entries, key).reset == window && EntryOf(st.entries, key).count == 1
            && Allowed(st.log, key, lo, hi) == 0
  {
    assert [Request(key, 0)] == [] + [Request(key, 0)];
    RunAppend(limit, window, [], Request(key, 0));
    AllowedAppend([], Call(key, 0, true), key, lo, hi);
  }

  lemma {:induction false} BurstFillsWindow(key: string, limit: nat, window: nat, before: seq<Request>, lo: nat, hi: int)
    requires 1 <= limit && lo < window && lo < hi
    requires var st := Run(limit, window, before);
             EntryOf(st.entries, key).reset == window && EntryOf(st.entries, key).count == 1 && Allowed(st.log, key, lo, hi) == 0
    ensures var st := Run(limit, window, before + Burst(key, lo, limit - 1));
            EntryOf(st.entries, key).reset == window && Allowed(st.log, key, lo, hi) == limit - 1
  {
    BurstAllowed(limit, window, before, key, lo, limit - 1, lo, hi);
  }

  lemma {:induction false} FirstWindowFills(key: string, limit: nat, window: nat)
    requires 1 <= limit && 2 <= window
    ensures var st := Run(limit, window, FilledWindow(key, limit, window));
            && EntryOf(st.entries, key).reset == window
            && Allowed(st.log, key, window - 1, window - 1 + window) == limit - 1
  {
    OneCall(key, limit, window, window - 1, window - 1 + window);
    BurstFillsWindow(key, limit, window, [Request(key, 0)], window - 1, window - 1 + window);
  }

  lemma SecondWindowFills(key: string, limit: nat, window: nat, before: seq<Request>, lo: int, hi: int)
    requires 1 <= limit && 2 <= window && lo <= window < hi
    requires EntryOf(Run(limit, window, before).entries, key).reset == window
    ensures var log := Run(limit, window, before + [Request(key, window)] + Burst(key, window, limit - 1)).log;
            Allowed(log, key, lo, hi) == Allowed(Run(limit, window, before).log, key, lo, hi) + limit
  {
    RunAppend(limit, window, before, Request(key, window));
    AllowedAppend(Run(limit, window, before).log, Call(key, window, true), key, lo, hi);
    BurstAllowed(limit, window, before + [Request(key, window)], key, window, limit - 1, lo, hi);
  }

  /** The bound is sharp: for every limit some clocked run lets exactly 2 * limit - 1 calls through in one window. */
  lemma SlidingWindowBoundIsSharp(key: string, limit: nat, window: nat)
    requires 1 <= limit && 2 <= window
    ensures Clocked(Spike(key, limit, window))
    ensures AllowedFrom(Run(limit, window, Spike(key, limit, window)).log, key, window - 1, window) == 2 * limit - 1
  {
    SpikeIsClocked(key, limit, window);
    FirstWindowFills(key, limit, window);
    SecondWindowFills(key, limit, window, FilledWindow(key, limit, window), window - 1, window - 1 + window);
  }

  // ---- Which requests pass ------------------------------------------------------------------

  /** Request `i` opens a window of its key: none that an earlier request opened is still running. */
  ghost predicate Opens(requests: seq<Request>, window: int, i: nat)
    requires i < |requests|
  {
    forall j: nat :: j < i && requests[j].key == requests[i].key && Opens(requests, window, j) ==>
      requests[j].at + window <= requests[i].at
  }

  /** Among the first `n` requests, `j` is the last that opens a window of the key. */
  ghost predicate LastOpening(requests: seq<Request>, window: int, key: string, n: nat, j: nat)
    requires n <= |requests|
  {
    && j < n && requests[j].key == key && Opens(requests, window, j)
    && forall k: nat :: j < k < n && requests[k].key == key ==> !Opens(requests, window, k)
  }

  /** The requests of the key from number `j` on, among the first `n`. */
  function Asked(requests: seq<Request>, key: string, j: nat, n: nat): nat
    requires n <= |requests|
  {
    if n <= j then 0 else Asked(requests, key, j, n - 1) + if requests[n - 1].key == key then 1 else 0
  }

  /** The entry of a key counts what was asked since the last opening of a window. */
  ghost predicate Counts(requests: seq<Request>, window: int, key: string, n: nat, entries: map<string, Entry>)
    requires n <= |requests|
  {
    if key in entries
    then exists j: nat :: LastOpening(requests, window, key, n, j)
                          && entries[key] == Entry(Asked(requests, key, j, n), requests[j].at + window)
    else forall i: nat :: i < n ==> requests[i].key != key
  }

  lemma {:induction false} CountsNext(limit: int, window: int, requests: seq<Request>, n: nat, st: State, key: string)
    requires Clocked(requests) && n < |requests| && Counts(requests, window, key, n, st.entries)
    ensures Counts(requests, window, key, n + 1, Serve(limit, window, st, requests[n]).entries)
  {
    var next := Serve(limit, window, st, requests[n]);
    if key in st.entries {
      var j: nat :| LastOpening(requests, window, key, n, j)
                    && st.entries[key] == Entry(Asked(requests, key, j, n), requests[j].at + window);
      if requests[n].key == key && requests[j].at + window <= requests[n].at {
        assert Opens(requests, window, n);
        assert LastOpening(requests, window, key, n + 1, n);
      } else {
        assert LastOpening(requests, window, key, n + 1, j);
      }
    } else if requests[n].key == key {
      assert Opens(requests, window, n);
      assert LastOpening(requests, window, key, n + 1, n);
      assert Asked(requests, key, n, n + 1) == 1 && 0 <= requests[n].at;
    }
  }

  lemma {:induction false} RunCounts(limit: int, window: int, requests: seq<Request>, n: nat, key: string)
    requires Clocked(requests) && n <= |requests|
    ensures Counts(requests, window, key, n, Run(limit, window, requests[..n]).entries)
  {
    if n > 0 {
      RunCounts(limit, window, requests, n - 1, key);
      CountsNext(limit, window, requests, n - 1, Run(limit, window, requests[..n - 1]), key);
      assert requests[..n][..n - 1] == requests[..n - 1];
    }
  }

  lemma {:induction false} OneOpening(requests: seq<Request>, window: int, key: string, n: nat, i: nat, j: nat)
    requires n <= |requests| && LastOpening(requests, window, key, n, i) && LastOpening(requests, window, key, n, j)
    ensures i == j
  {
  }

  /** Every request has a window. */
  lemma {:induction false} WindowOf(limit: int, window: int, requests: seq<Request>, i: nat) returns (j: nat)
    requires Clocked(requests) && i < |requests|
    ensures LastOpening(requests, window, requests[i].key, i + 1, j)
    ensures Run(limit, window, requests[..i + 1]).entries[requests[i].key].count == Asked(requests, requests[i].key, j, i + 1)
  {
    var key := requests[i].key;
    RunCounts(limit, window, requests, i + 1, key);
    var st := Run(limit, window, requests[..i + 1]);
    var n := i + 1;
    j :| LastOpening(requests, window, key, n, j)
         && st.entries[key] == Entry(Asked(requests, key, j, n), requests[j].at + window);
  }

  /** A request passes exactly when at most `limit` were made since its window was opened, itself included. */
  lemma {:induction false} AllowedExactly(limit: int, window: int, requests: seq<Request>, i: nat, j: nat)
    requires Clocked(requests) && i < |requests| && LastOpening(requests, window, requests[i].key, i + 1, j)
    ensures var log := Run(limit, window, requests).log;
            && |log| == |requests|
            && log[i] == Call(requests[i].key, requests[i].at, Asked(requests, requests[i].key, j, i + 1) <= limit)
  {
    var opening := WindowOf(limit, window, requests, i);
    OneOpening(requests, window, requests[i].key, i + 1, j, opening);
    LogGrows(limit, window, requests, i + 1);
    LogGrows(limit, window, requests, i);
    assert requests[..i + 1][..i] == requests[..i];
    assert Run(limit, window, requests).log[i] == Run(limit, window, requests[..i + 1]).log[i];
  }

  lemma {:induction false} LogGrows(limit: int, window: int, requests: seq<Request>, n: nat)
    requires n <= |requests|
    ensures |Run(limit, window, requests[..n]).log| == n && |Run(limit, window, requests).log| == |requests|
    ensures Run(limit, window, requests[..n]).log == Run(limit, window, requests).log[..n]
  {
    if n == |requests| {
      assert requests[..n] == requests;
      if n > 0 {
        LogGrows(limit, window, requests[..n - 1], n - 1);
      }
    } else {
      var before := requests[..|requests| - 1];
      LogGrows(limit, window, before, n);
      assert before[..n] == requests[..n];
    }
  }

  /** The limiter object. The mutex makes each call of `Allow` one atomic step. */
  class RateLimiter {
    const limit: int
    const window: int
    var entries: map<string, Entry>
    ghost var log: seq<Call>

    ghost function View(): State
      reads this
    {
      State(entries, log)
    }

    constructor (limit: int, window: int)
      ensures this.limit == limit && this.window == window
      ensures View() == Run(limit, window, [])
    {
      this.limit, this.window := limit, window;
      entries, log := map[], [];
    }

    method Allow(key: string, now: nat) returns (allowed: bool)
      modifies this
      ensures View() == Serve(limit, window, old(View()), Request(key, now))
      ensures allowed == log[|log| - 1].allowed
    {
      var current := now;
      var entry := if key in entries then entries[key] else Entry(0, 0);
      if current >= entry.reset {
        entry := Entry(0, current + window);
      }
      entry := entry.(count := entry.count + 1);
      entries := entries[key := entry];
      allowed := entry.count <= limit;
      log := log + [Call(key, now, allowed)];
    }
  }
}
