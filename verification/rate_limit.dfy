/**
 * The per-address fixed-window rate limiter that runs before every request
 * to the contact endpoint (`checkRateLimit` in contact.php).
 *
 * Each client address owns one record `{first_request, count}` kept in its
 * own temporary file. Inside a window of WINDOW seconds at most LIMIT
 * requests are let through; a request after the window has elapsed starts a
 * new window. The clock is a parameter (`now`), and requests are taken one
 * after another: the read-then-write race between two simultaneous requests
 * is not modelled.
 */
module RateLimit {
  import opened Wrappers

  /** Maximum number of requests per window (`$limit`). */
  const LIMIT: int := 5
  /** Window length in seconds (`$window`). */
  const WINDOW: int := 3600

  /** The decoded content of a rate-limit file. */
  datatype Record = Record(firstRequest: int, count: int)

  /**
   * The name of an address's file, `contact_rate_<md5(ip)>.txt`. The hash is
   * taken to be injective, so the file is named by the address itself.
   */
  datatype Key = RateFile(address: string)

  function FileFor(ip: string): (k: Key)
    ensures k.address == ip
  {
    RateFile(ip)
  }

  /**
   * The temporary directory: a key that is absent has no file; `None` is a
   * file whose content does not decode to a truthy array.
   */
  type Store = map<Key, Option<Record>>

  datatype Decision = Allowed | Denied

  /** The record as the limiter sees it: a missing file and an unreadable one look alike. */
  function Usable(files: Store, k: Key): Option<Record>
  {
    if k in files then files[k] else None
  }

  /** True when `r` still governs a request made at `now`. */
  predicate InWindow(r: Record, now: int)
  {
    now - r.firstRequest < WINDOW
  }

  /**
   * One request from `ip` at `now`: the decision and the directory afterwards.
   * This is the value-level description that CheckRateLimit is proved against.
   */
  function Step(files: Store, ip: string, now: int): (r: (Decision, Store))
    ensures r.0 == Denied ==> r.1 == files
    ensures r.0 == Allowed ==> FileFor(ip) in r.1 && r.1[FileFor(ip)].Some?
  {
    var k := FileFor(ip);
    match Usable(files, k)
    case Some(r) =>
      if InWindow(r, now) then
        if r.count >= LIMIT then (Denied, files)
        else (Allowed, files[k := Some(r.(count := r.count + 1))])
      else (Allowed, files[k := Some(Record(now, 1))])
    case None => (Allowed, files[k := Some(Record(now, 1))])
  }

  /** Every record the limiter can read has a count in 1..LIMIT. */
  ghost predicate Bounded(files: Store)
  {
    forall k | k in files && files[k].Some? :: 1 <= files[k].value.count <= LIMIT
  }

  /** The record store of the contact endpoint. */
  class RateLimiter {
    var files: Store

    /** An empty temporary directory. */
    constructor ()
      ensures files == map[]
    {
      files := map[];
    }

    /**
     * `checkRateLimit()` for a request from `ip` at time `now`. A denial
     * leaves the store as it was, since the source exits before
     * `file_put_contents`.
     */
    method CheckRateLimit(ip: string, now: int) returns (d: Decision)
      modifies this
      ensures (d, files) == Step(old(files), ip, now)
      // reset: no usable record, or its window has elapsed
      ensures var prior := Usable(old(files), FileFor(ip));
        (prior.None? || !InWindow(prior.value, now)) ==>
          d == Allowed && files == old(files)[FileFor(ip) := Some(Record(now, 1))]
      // increment: inside the window and under the limit
      ensures var prior := Usable(old(files), FileFor(ip));
        (prior.Some? && InWindow(prior.value, now) && prior.value.count < LIMIT) ==>
          d == Allowed &&
          files == old(files)[FileFor(ip) := Some(Record(prior.value.firstRequest, prior.value.count + 1))]
      // deny: inside the window at the limit; nothing is written
      ensures var prior := Usable(old(files), FileFor(ip));
        (prior.Some? && InWindow(prior.value, now) && prior.value.count >= LIMIT) ==>
          d == Denied && files == old(files)
      // isolation: no other address's file changes
      ensures forall k :: k != FileFor(ip) ==>
        (k in files <==> k in old(files)) && (k in files ==> files[k] == old(files)[k])
      ensures old(Bounded(files)) ==> Bounded(files)
    {
      var limitFile := FileFor(ip);
      var data: Record;
      if limitFile in files {
        var decoded := files[limitFile];
        if decoded.Some? && now - decoded.value.firstRequest < WINDOW {
          if decoded.value.count >= LIMIT {
            d := Denied;
            return;
          }
          data := decoded.value.(count := decoded.value.count + 1);
        } else {
          data := Record(now, 1);
        }
      } else {
        data := Record(now, 1);
      }
      files := files[limitFile := Some(data)];
      d := Allowed;
    }
  }

  /** Requests from one address at the given times, one after another. */
  function Run(files: Store, ip: string, times: seq<int>): (r: (seq<Decision>, Store))
    ensures |r.0| == |times|
    decreases |times|
  {
    if times == [] then ([], files)
    else
      var (d, next) := Step(files, ip, times[0]);
      var (ds, last) := Run(next, ip, times[1..]);
      ([d] + ds, last)
  }

  /** How many of the decisions let the request through. */
  function AllowedCount(ds: seq<Decision>): (n: nat)
    ensures n <= |ds|
  {
    if ds == [] then 0 else (if ds[0] == Allowed then 1 else 0) + AllowedCount(ds[1..])
  }

  /** One request keeps every stored count within 1..LIMIT. */
  lemma StepKeepsBounded(files: Store, ip: string, now: int)
    requires Bounded(files)
    ensures Bounded(Step(files, ip, now).1)
  {
  }

  /** Any sequence of requests keeps every stored count within 1..LIMIT. */
  lemma {:induction false} RunKeepsBounded(files: Store, ip: string, times: seq<int>)
    requires Bounded(files)
    ensures Bounded(Run(files, ip, times).1)
    decreases |times|
  {
    if times != [] {
      StepKeepsBounded(files, ip, times[0]);
      RunKeepsBounded(Step(files, ip, times[0]).1, ip, times[1..]);
    }
  }

  /**
   * Inside the window of a live record with count `c`, at most LIMIT - c more
   * requests are let through, however many arrive.
   */
  lemma {:induction false} LiveWindowAdmits(files: Store, ip: string, first: int, c: int, times: seq<int>)
    requires 1 <= c <= LIMIT
    requires Usable(files, FileFor(ip)) == Some(Record(first, c))
    requires forall i :: 0 <= i < |times| ==> times[i] - first < WINDOW
    ensures AllowedCount(Run(files, ip, times).0) <= LIMIT - c
    decreases |times|
  {
    if times != [] {
      var (d, next) := Step(files, ip, times[0]);
      assert times[0] - first < WINDOW;
      if c == LIMIT {
        assert d == Denied && next == files;
        LiveWindowAdmits(next, ip, first, c, times[1..]);
      } else {
        assert d == Allowed && Usable(next, FileFor(ip)) == Some(Record(first, c + 1));
        LiveWindowAdmits(next, ip, first, c + 1, times[1..]);
      }
      assert Run(files, ip, times).0 == [d] + Run(next, ip, times[1..]).0;
      assert ([d] + Run(next, ip, times[1..]).0)[1..] == Run(next, ip, times[1..]).0;
    }
  }

  /**
   * An address with no live record gets at most LIMIT requests through during
   * the WINDOW seconds that start with its first request.
   */
  lemma FreshWindowAdmitsAtMostLimit(files: Store, ip: string, times: seq<int>)
    requires times != []
    requires var prior := Usable(files, FileFor(ip)); prior.None? || !InWindow(prior.value, times[0])
    requires forall i :: 0 <= i < |times| ==> times[i] < times[0] + WINDOW
    ensures AllowedCount(Run(files, ip, times).0) <= LIMIT
  {
    var (d, next) := Step(files, ip, times[0]);
    assert d == Allowed && Usable(next, FileFor(ip)) == Some(Record(times[0], 1));
    LiveWindowAdmits(next, ip, times[0], 1, times[1..]);
    assert Run(files, ip, times).0 == [d] + Run(next, ip, times[1..]).0;
    assert ([d] + Run(next, ip, times[1..]).0)[1..] == Run(next, ip, times[1..]).0;
  }

  /**
   * Inside the window of a live record with count `c`, whatever the
   * timestamps: the first LIMIT - c requests pass and every later one is refused.
   */
  lemma {:induction false} LiveWindowExact(files: Store, ip: string, first: int, c: int, times: seq<int>)
    requires 1 <= c <= LIMIT
    requires Usable(files, FileFor(ip)) == Some(Record(first, c))
    requires forall i :: 0 <= i < |times| ==> times[i] - first < WINDOW
    ensures forall i :: 0 <= i < |times| ==> (Run(files, ip, times).0[i] == Allowed <==> i < LIMIT - c)
    decreases |times|
  {
    if times != [] {
      var (d, next) := Step(files, ip, times[0]);
      var rest := times[1..];
      assert forall i :: 0 <= i < |rest| ==> rest[i] == times[i + 1];
      var c' := if c == LIMIT then c else c + 1;
      assert times[0] - first < WINDOW;
      if c == LIMIT {
        assert d == Denied && next == files;
      } else {
        assert d == Allowed && Usable(next, FileFor(ip)) == Some(Record(first, c + 1));
      }
      LiveWindowExact(next, ip, first, c', rest);
      var ds := Run(next, ip, rest).0;
      assert Run(files, ip, times).0 == [d] + ds;
      forall i | 0 <= i < |times|
        ensures Run(files, ip, times).0[i] == Allowed <==> i < LIMIT - c
      {
        if i > 0 {
          assert ([d] + ds)[i] == ds[i - 1];
        }
      }
    }
  }

  /**
   * Requests opening a fresh window, at any times within WINDOW seconds of
   * the first: exactly the first LIMIT pass.
   */
  lemma FreshWindowExact(files: Store, ip: string, times: seq<int>)
    requires times != []
    requires var prior := Usable(files, FileFor(ip)); prior.None? || !InWindow(prior.value, times[0])
    requires forall i :: 0 <= i < |times| ==> times[i] < times[0] + WINDOW
    ensures forall i :: 0 <= i < |times| ==> (Run(files, ip, times).0[i] == Allowed <==> i < LIMIT)
  {
    var (d, next) := Step(files, ip, times[0]);
    var rest := times[1..];
    assert forall i :: 0 <= i < |rest| ==> rest[i] == times[i + 1];
    assert d == Allowed && Usable(next, FileFor(ip)) == Some(Record(times[0], 1));
    LiveWindowExact(next, ip, times[0], 1, rest);
    var ds := Run(next, ip, rest).0;
    assert Run(files, ip, times).0 == [d] + ds;
    forall i | 0 <= i < |times|
      ensures Run(files, ip, times).0[i] == Allowed <==> i < LIMIT
    {
      if i > 0 {
        assert ([d] + ds)[i] == ds[i - 1];
      }
    }
  }

  /** One request followed by the rest: how Run takes its first step. */
  lemma RunFirst(files: Store, ip: string, t: int, rest: seq<int>)
    ensures Run(files, ip, [t] + rest) ==
      ([Step(files, ip, t).0] + Run(Step(files, ip, t).1, ip, rest).0, Run(Step(files, ip, t).1, ip, rest).1)
  {
    assert ([t] + rest)[1..] == rest;
  }

  /** A request against a directory holding only this address's record. */
  lemma StepOnSingleRecord(ip: string, first: int, c: int, now: int)
    ensures var k := FileFor(ip); var r := Record(first, c);
      Step(map[k := Some(r)], ip, now) ==
        if !InWindow(r, now) then (Allowed, map[k := Some(Record(now, 1))])
        else if c >= LIMIT then (Denied, map[k := Some(r)])
        else (Allowed, map[k := Some(Record(first, c + 1))])
  {
    var k := FileFor(ip);
    var r := Record(first, c);
    assert Usable(map[k := Some(r)], k) == Some(r);
    assert map[k := Some(r)][k := Some(Record(now, 1))] == map[k := Some(Record(now, 1))];
    assert map[k := Some(r)][k := Some(r.(count := c + 1))] == map[k := Some(Record(first, c + 1))];
  }

  /** Requests `a` and then requests `b` are the requests `a + b`. */
  lemma {:induction false} RunAppend(files: Store, ip: string, a: seq<int>, b: seq<int>)
    ensures var first := Run(files, ip, a); var second := Run(first.1, ip, b);
      Run(files, ip, a + b) == (first.0 + second.0, second.1)
    decreases |a|
  {
    if a == [] {
      assert a + b == b;
      assert Run(files, ip, a) == ([], files);
      assert [] + Run(files, ip, b).0 == Run(files, ip, b).0;
    } else {
      var (d, next) := Step(files, ip, a[0]);
      RunAppend(next, ip, a[1..], b);
      assert (a + b)[0] == a[0] && (a + b)[1..] == a[1..] + b;
      assert Run(files, ip, a + b) == ([d] + Run(next, ip, a[1..] + b).0, Run(next, ip, a[1..] + b).1);
      assert Run(files, ip, a) == ([d] + Run(next, ip, a[1..]).0, Run(next, ip, a[1..]).1);
      var rest := Run(next, ip, a[1..]);
      var second := Run(rest.1, ip, b);
      assert [d] + (rest.0 + second.0) == ([d] + rest.0) + second.0;
    }
  }

  /** Four more requests at the start of a window fill it up to LIMIT. */
  lemma WindowFromOne(ip: string, t: int)
    ensures var k := FileFor(ip);
      Run(map[k := Some(Record(t, 1))], ip, [t, t, t, t]) ==
        ([Allowed, Allowed, Allowed, Allowed], map[k := Some(Record(t, LIMIT))])
  {
    var k := FileFor(ip);
    var s1 := map[k := Some(Record(t, 1))];
    var s2 := map[k := Some(Record(t, 2))];
    var s3 := map[k := Some(Record(t, 3))];
    var s4 := map[k := Some(Record(t, 4))];
    var s5 := map[k := Some(Record(t, 5))];
    assert Run(s5, ip, []) == ([], s5);
    StepOnSingleRecord(ip, t, 4, t);
    RunFirst(s4, ip, t, []);
    assert [t] + [] == [t];
    assert [Allowed] + [] == [Allowed];
    assert Run(s4, ip, [t]) == ([Allowed], s5);
    StepOnSingleRecord(ip, t, 3, t);
    RunFirst(s3, ip, t, [t]);
    assert [t] + [t] == [t, t];
    assert [Allowed] + [Allowed] == [Allowed, Allowed];
    assert Run(s3, ip, [t, t]) == ([Allowed, Allowed], s5);
    StepOnSingleRecord(ip, t, 2, t);
    RunFirst(s2, ip, t, [t, t]);
    assert [t] + [t, t] == [t, t, t];
    assert [Allowed] + [Allowed, Allowed] == [Allowed, Allowed, Allowed];
    assert Run(s2, ip, [t, t, t]) == ([Allowed, Allowed, Allowed], s5);
    StepOnSingleRecord(ip, t, 1, t);
    RunFirst(s1, ip, t, [t, t, t]);
    assert [t] + [t, t, t] == [t, t, t, t];
    assert [Allowed] + [Allowed, Allowed, Allowed] == [Allowed, Allowed, Allowed, Allowed];
  }

  /** From an empty directory, five requests in the same second all pass and fill the window. */
  lemma FreshWindowFills(ip: string, t: int)
    ensures Run(map[], ip, [t, t, t, t, t]) ==
      ([Allowed, Allowed, Allowed, Allowed, Allowed], map[FileFor(ip) := Some(Record(t, LIMIT))])
  {
    var k := FileFor(ip);
    assert Step(map[], ip, t) == (Allowed, map[k := Some(Record(t, 1))]);
    WindowFromOne(ip, t);
    RunFirst(map[], ip, t, [t, t, t, t]);
    assert [t] + [t, t, t, t] == [t, t, t, t, t];
    assert [Allowed] + [Allowed, Allowed, Allowed, Allowed] == [Allowed, Allowed, Allowed, Allowed, Allowed];
  }

  /** From an empty directory, five requests in the same second pass and the sixth is refused. */
  lemma SixthRequestDenied(ip: string, t: int)
    ensures Run(map[], ip, [t, t, t, t, t, t]).0 == [Allowed, Allowed, Allowed, Allowed, Allowed, Denied]
  {
    var full := map[FileFor(ip) := Some(Record(t, LIMIT))];
    FreshWindowFills(ip, t);
    StepOnSingleRecord(ip, t, LIMIT, t);
    RunFirst(full, ip, t, []);
    RunAppend(map[], ip, [t, t, t, t, t], [t]);
    assert [t, t, t, t, t] + [t] == [t, t, t, t, t, t];
  }

  /** Once the window has elapsed, the next request passes and restarts the count at 1. */
  lemma WindowElapsedResets(ip: string, t: int, later: int)
    requires later - t >= WINDOW
    ensures var (ds, files) := Run(map[], ip, [t, t, t, t, t, later]);
      ds[5] == Allowed && FileFor(ip) in files && files[FileFor(ip)] == Some(Record(later, 1))
  {
    var full := map[FileFor(ip) := Some(Record(t, LIMIT))];
    FreshWindowFills(ip, t);
    StepOnSingleRecord(ip, t, LIMIT, later);
    RunFirst(full, ip, later, []);
    RunAppend(map[], ip, [t, t, t, t, t], [later]);
    assert [t, t, t, t, t] + [later] == [t, t, t, t, t, later];
  }

  /**
   * The window is fixed, not sliding: ten requests within one second more
   * than a window all pass when they straddle a window boundary.
   */
  lemma BoundaryBurst(ip: string, t: int)
    ensures var u := t + WINDOW;
      Run(map[], ip, [t, t, t, t, t, u, u, u, u, u]).0 == seq(2 * LIMIT, _ => Allowed)
  {
    var k := FileFor(ip);
    var u := t + WINDOW;
    var full := map[k := Some(Record(t, LIMIT))];
    FreshWindowFills(ip, t);
    StepOnSingleRecord(ip, t, LIMIT, u);
    WindowFromOne(ip, u);
    RunFirst(full, ip, u, [u, u, u, u]);
    RunAppend(map[], ip, [t, t, t, t, t], [u, u, u, u, u]);
    assert [t, t, t, t, t] + [u, u, u, u, u] == [t, t, t, t, t, u, u, u, u, u];
  }
}
