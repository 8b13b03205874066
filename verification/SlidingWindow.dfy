/** The sliding-window limiter: a trimmed, expiring log that decides like the full admission history. */
module SlidingWindow {
  import opened Common

  datatype Config = Config(limit: nat, windowMs: nat)

  /** The sorted set of one key, lowest score first, and the time its PEXPIRE runs out. */
  datatype Log = Log(scores: seq<nat>, expiresAt: nat)

  datatype Decision = Allowed(remaining: nat) | Blocked(retryAfterMs: int)

  /** rateLimitConfigFromEnv only lets positive integers through. */
  predicate Sound(c: Config) { c.limit >= 1 && c.windowMs >= 1 }

  /** ZREMRANGEBYSCORE key -inf cut: what is left of an ascending log. */
  function Since(scores: seq<nat>, cut: int): seq<nat> {
    if scores != [] && scores[0] <= cut then Since(scores[1..], cut) else scores
  }

  /** The whole script, at Redis time `now`. An expired key is an absent one. */
  function Hit(c: Config, log: Log, now: nat): (Log, Decision)
    requires Sound(c)
  {
    var live := if now > log.expiresAt then [] else log.scores;
    var kept := Since(live, now - c.windowMs);
    if |kept| < c.limit then (Log(kept + [now], now + c.windowMs), Allowed(c.limit - |kept| - 1))
    else (Log(kept, log.expiresAt), Blocked(kept[0] + c.windowMs - now))
  }

  /** The reference: nothing is ever trimmed or expired, admissions of the last window are counted afresh. */
  function Admit(c: Config, history: seq<nat>, now: nat): (seq<nat>, Decision)
    requires Sound(c)
  {
    var recent := Since(history, now - c.windowMs);
    if |recent| < c.limit then (history + [now], Allowed(c.limit - |recent| - 1))
    else (history, Blocked(recent[0] + c.windowMs - now))
  }

  ghost predicate Ascending(s: seq<nat>) {
    forall i, j :: 0 <= i < j < |s| ==> s[i] <= s[j]
  }

  /** A suffix of the log: everything after the cut and nothing before it. */
  lemma {:induction false} SinceIsSuffix(s: seq<nat>, cut: int) returns (k: nat)
    requires Ascending(s)
    ensures k <= |s| && Since(s, cut) == s[k..]
    ensures forall i :: 0 <= i < k ==> s[i] <= cut
    ensures forall i :: k <= i < |s| ==> s[i] > cut
  {
    if s != [] && s[0] <= cut {
      var rest := SinceIsSuffix(s[1..], cut);
      k := rest + 1;
      assert forall i :: 1 <= i < |s| ==> s[i] == s[1..][i - 1];
    } else {
      k := 0;
    }
  }

  /** Trimming twice is trimming at the later cut. */
  lemma {:induction false} SinceComposes(s: seq<nat>, early: int, late: int)
    requires early <= late
    ensures Since(Since(s, early), late) == Since(s, late)
    decreases |s|
  {
    if s != [] && s[0] <= early {
      SinceComposes(s[1..], early, late);
    }
  }

  lemma {:induction false} SinceAppends(s: seq<nat>, cut: int, x: nat)
    requires x > cut
    ensures Since(s + [x], cut) == Since(s, cut) + [x]
    decreases |s|
  {
    if s != [] {
      assert (s + [x])[1..] == s[1..] + [x];
      if s[0] <= cut {
        SinceAppends(s[1..], cut, x);
      }
    }
  }

  function Recent(s: seq<nat>, cut: int): set<nat> {
    set i | 0 <= i < |s| && s[i] > cut
  }

  lemma RecentAppends(s: seq<nat>, cut: int, x: nat)
    ensures |Recent(s + [x], cut)| == |Recent(s, cut)| + if x > cut then 1 else 0
  {
    if x > cut {
      assert Recent(s + [x], cut) == Recent(s, cut) + {|s|};
    } else {
      assert Recent(s + [x], cut) == Recent(s, cut);
    }
  }

  /** ZCARD of the trimmed log is the number of entries after the cut. */
  lemma {:induction false} SinceCounts(s: seq<nat>, cut: int)
    requires Ascending(s)
    ensures |Since(s, cut)| == |Recent(s, cut)|
    decreases |s|
  {
    if s == [] {
      assert Recent(s, cut) == {};
    } else {
      var init, last := s[..|s| - 1], s[|s| - 1];
      assert s == init + [last];
      SinceCounts(init, cut);
      RecentAppends(init, cut, last);
      if last > cut {
        SinceAppends(init, cut, last);
      } else {
        AllGone(s, cut);
        AllGone(init, cut);
      }
    }
  }

  /** At any time from `now` on, log and history agree on the current window. */
  ghost predicate Agrees(c: Config, log: Log, history: seq<nat>, now: nat) {
    forall t: nat :: t >= now ==> AgreesAt(c, log, history, t)
  }

  ghost predicate AgreesAt(c: Config, log: Log, history: seq<nat>, t: nat) {
    Since(if t > log.expiresAt then [] else log.scores, t - c.windowMs) == Since(history, t - c.windowMs)
  }

  /** Admissions are in order, none lies in the future, and limit + 1 consecutive ones span at least a window. */
  ghost predicate Spaced(c: Config, history: seq<nat>, now: nat) {
    && Ascending(history)
    && (forall i :: 0 <= i < |history| ==> history[i] <= now)
    && (forall i :: 0 <= i < |history| ==> SpacedAt(c, history, i))
  }

  predicate SpacedAt(c: Config, history: seq<nat>, i: nat)
    requires i < |history|
  {
    i + c.limit < |history| ==> history[i] + c.windowMs <= history[i + c.limit]
  }

  lemma HitRefinesAdmit(c: Config, log: Log, history: seq<nat>, last: nat, now: nat)
    requires Sound(c) && last <= now && Agrees(c, log, history, last)
    requires Spaced(c, history, last)
    ensures Hit(c, log, now).1 == Admit(c, history, now).1
    ensures Agrees(c, Hit(c, log, now).0, Admit(c, history, now).0, now)
  {
    assert AgreesAt(c, log, history, now);
    var (log', _) := Hit(c, log, now);
    var (history', _) := Admit(c, history, now);
    forall t: nat | t >= now ensures AgreesAt(c, log', history', t) {
      LaterAgreement(c, log, history, last, now, t);
    }
  }

  lemma LaterAgreement(c: Config, log: Log, history: seq<nat>, last: nat, now: nat, t: nat)
    requires Sound(c) && last <= now <= t && Agrees(c, log, history, last) && Spaced(c, history, last)
    ensures AgreesAt(c, Hit(c, log, now).0, Admit(c, history, now).0, t)
  {
    assert AgreesAt(c, log, history, now) && AgreesAt(c, log, history, t);
    var kept, cut := Since(history, now - c.windowMs), t - c.windowMs;
    SinceComposes(history, now - c.windowMs, cut);
    var k := SinceIsSuffix(history, now - c.windowMs);
    assert forall i :: 0 <= i < |kept| ==> kept[i] <= now;
    if |kept| < c.limit {
      AgreesAfterAdmission(history, kept, now, cut);
    }
  }

  lemma AgreesAfterAdmission(history: seq<nat>, kept: seq<nat>, now: nat, cut: int)
    requires Ascending(history) && (forall i :: 0 <= i < |history| ==> history[i] <= now)
    requires Since(kept, cut) == Since(history, cut)
    ensures cut < now ==> Since(kept + [now], cut) == Since(history + [now], cut)
    ensures cut >= now ==> Since(history + [now], cut) == []
    ensures cut == now && (forall i :: 0 <= i < |kept| ==> kept[i] <= now) ==> Since(kept + [now], cut) == []
  {
    if cut < now {
      SinceAppends(kept, cut, now);
      SinceAppends(history, cut, now);
    } else {
      AllGone(history + [now], cut);
      if cut == now && (forall i :: 0 <= i < |kept| ==> kept[i] <= now) {
        AllGone(kept + [now], cut);
      }
    }
  }

  lemma {:induction false} AllGone(s: seq<nat>, cut: int)
    requires forall i :: 0 <= i < |s| ==> s[i] <= cut
    ensures Since(s, cut) == []
  {
    if s != [] {
      AllGone(s[1..], cut);
    }
  }

  lemma AdmitKeepsSpacing(c: Config, history: seq<nat>, last: nat, now: nat)
    requires Sound(c) && last <= now && Spaced(c, history, last)
    ensures Spaced(c, Admit(c, history, now).0, now)
  {
    var k := SinceIsSuffix(history, now - c.windowMs);
    var history' := Admit(c, history, now).0;
    if history' == history + [now] {
      assert |history| - k < c.limit;
      forall i | 0 <= i < |history'| ensures SpacedAt(c, history', i) {
        if i < |history| {
          assert SpacedAt(c, history, i);
          if i + c.limit == |history| {
            assert i < k;
          }
        }
      }
    }
  }

  // ---- Whole runs ----

  function LogAfter(c: Config, start: Log, hits: seq<nat>): Log
    requires Sound(c)
    decreases |hits|
  {
    if hits == [] then start else Hit(c, LogAfter(c, start, hits[..|hits| - 1]), hits[|hits| - 1]).0
  }

  function HistoryAfter(c: Config, hits: seq<nat>): seq<nat>
    requires Sound(c)
    decreases |hits|
  {
    if hits == [] then [] else Admit(c, HistoryAfter(c, hits[..|hits| - 1]), hits[|hits| - 1]).0
  }

  lemma {:induction false} RunsAgree(c: Config, hits: seq<nat>, expiresAt: nat, now: nat)
    requires Sound(c) && Ascending(hits) && forall i :: 0 <= i < |hits| ==> hits[i] <= now
    ensures Agrees(c, LogAfter(c, Log([], expiresAt), hits), HistoryAfter(c, hits), now)
    ensures Spaced(c, HistoryAfter(c, hits), now)
    decreases |hits|
  {
    if hits != [] {
      var init, last := hits[..|hits| - 1], hits[|hits| - 1];
      RunsAgree(c, init, expiresAt, last);
      HitRefinesAdmit(c, LogAfter(c, Log([], expiresAt), init), HistoryAfter(c, init), last, last);
      AdmitKeepsSpacing(c, HistoryAfter(c, init), last, last);
    }
  }

  /** The trimmed log answers every hit of every run exactly as the full history would. */
  lemma DecidesLikeHistory(c: Config, hits: seq<nat>, expiresAt: nat, now: nat)
    requires Sound(c) && Ascending(hits) && forall i :: 0 <= i < |hits| ==> hits[i] <= now
    ensures Hit(c, LogAfter(c, Log([], expiresAt), hits), now).1 == Admit(c, HistoryAfter(c, hits), now).1
  {
    RunsAgree(c, hits, expiresAt, now);
    HitRefinesAdmit(c, LogAfter(c, Log([], expiresAt), hits), HistoryAfter(c, hits), now, now);
  }

  /** The times of the hits the script let through. */
  function Admissions(c: Config, start: Log, hits: seq<nat>): seq<nat>
    requires Sound(c)
    decreases |hits|
  {
    if hits == [] then []
    else
      var init, now := hits[..|hits| - 1], hits[|hits| - 1];
      Admissions(c, start, init) + if Hit(c, LogAfter(c, start, init), now).1.Allowed? then [now] else []
  }

  /** The script lets through exactly what the reference admits. */
  lemma {:induction false} AdmissionsAreHistory(c: Config, hits: seq<nat>, expiresAt: nat)
    requires Sound(c) && Ascending(hits)
    ensures Admissions(c, Log([], expiresAt), hits) == HistoryAfter(c, hits)
    decreases |hits|
  {
    if hits != [] {
      var init, now := hits[..|hits| - 1], hits[|hits| - 1];
      AdmissionsAreHistory(c, init, expiresAt);
      DecidesLikeHistory(c, init, expiresAt, now);
    }
  }

  /** The entries less than one window old at `now`. */
  function InWindow(times: seq<nat>, windowMs: nat, now: nat): set<nat> {
    set i | 0 <= i < |times| && now < times[i] + windowMs
  }

  lemma HistoryCounts(c: Config, history: seq<nat>, now: nat)
    requires Sound(c) && Ascending(history)
    ensures var used, answer := |InWindow(history, c.windowMs, now)|, Admit(c, history, now).1;
            && (answer.Allowed? <==> used < c.limit)
            && (answer.Allowed? ==> answer.remaining == c.limit - used - 1)
  {
    SinceCounts(history, now - c.windowMs);
    assert InWindow(history, c.windowMs, now) == Recent(history, now - c.windowMs);
  }

  /** A hit is let through exactly when fewer than `limit` of those let through before are less than a window old. */
  lemma AllowedIffRoom(c: Config, hits: seq<nat>, expiresAt: nat, now: nat)
    requires Sound(c) && Ascending(hits) && forall i :: 0 <= i < |hits| ==> hits[i] <= now
    ensures var used := |InWindow(Admissions(c, Log([], expiresAt), hits), c.windowMs, now)|;
            var answer := Hit(c, LogAfter(c, Log([], expiresAt), hits), now).1;
            && (answer.Allowed? <==> used < c.limit)
            && (answer.Allowed? ==> answer.remaining == c.limit - used - 1)
  {
    AdmissionsAreHistory(c, hits, expiresAt);
    DecidesLikeHistory(c, hits, expiresAt, now);
    assert Ascending(HistoryAfter(c, hits)) by {
      RunsAgree(c, hits, expiresAt, now);
    }
    HistoryCounts(c, HistoryAfter(c, hits), now);
  }

  function Within(times: seq<nat>, from: nat, until: nat): set<nat> {
    set i | 0 <= i < |times| && from <= times[i] < until
  }

  /** No half-open interval of one window's length ever sees the script admit more than `limit` hits. */
  lemma NeverOverLimit(c: Config, hits: seq<nat>, expiresAt: nat, from: nat)
    requires Sound(c) && Ascending(hits)
    ensures |Within(Admissions(c, Log([], expiresAt), hits), from, from + c.windowMs)| <= c.limit
  {
    AdmissionsAreHistory(c, hits, expiresAt);
    var last := if hits == [] then 0 else hits[|hits| - 1];
    RunsAgree(c, hits, expiresAt, last);
    SpacedFits(c, HistoryAfter(c, hits), last, from);
  }

  lemma SpacedFits(c: Config, history: seq<nat>, now: nat, from: nat)
    requires Spaced(c, history, now)
    ensures |Within(history, from, from + c.windowMs)| <= c.limit
  {
    var inside := Within(history, from, from + c.windowMs);
    if inside != {} {
      var first := LeastIndex(inside);
      if first + c.limit < |history| {
        assert SpacedAt(c, history, first);
        assert forall i :: first + c.limit <= i < |history| ==> history[first + c.limit] <= history[i];
      }
      RangeSize(inside, first, c.limit);
    }
  }

  lemma {:induction false} LeastIndex(s: set<nat>) returns (least: nat)
    requires s != {}
    ensures least in s && forall i :: i in s ==> least <= i
    decreases |s|
  {
    var first :| first in s;
    assert s == (s - {first}) + {first};
    least := first;
    if s - {first} != {} {
      var other := LeastIndex(s - {first});
      least := if other < first then other else first;
    }
  }

  lemma {:induction false} RangeSize(s: set<nat>, lo: nat, n: nat)
    requires forall i :: i in s ==> lo <= i < lo + n
    ensures |s| <= n
    decreases n
  {
    if n == 0 {
      assert s == {};
    } else {
      RangeSize(s - {lo + n - 1}, lo, n - 1);
    }
  }

  ghost predicate AllBefore(times: seq<nat>, until: int) {
    forall i :: 0 <= i < |times| ==> times[i] < until
  }

  lemma AscendingPrefix(s: seq<nat>, p: seq<nat>)
    requires Ascending(s) && p <= s
    ensures Ascending(p)
  {
  }

  lemma Pieces(hits: seq<nat>, now: nat, more: seq<nat>)
    requires Ascending(hits + [now] + more)
    ensures Ascending(hits) && forall i :: 0 <= i < |hits| ==> hits[i] <= now
    ensures forall i :: 0 <= i < |more| ==> now <= more[i]
  {
    var all := hits + [now] + more;
    assert all[|hits|] == now && forall i :: 0 <= i < |hits| ==> all[i] == hits[i];
    assert forall i :: 0 <= i < |more| ==> all[|hits| + 1 + i] == more[i];
  }

  /** However many hits follow before the retry time, the admission history stays what it was. */
  lemma {:induction false} BlockedHitsLeaveHistory(c: Config, hits: seq<nat>, now: nat, more: seq<nat>)
    requires Sound(c) && Ascending(hits + [now] + more) && Admit(c, HistoryAfter(c, hits), now).1.Blocked?
    requires AllBefore(more, now + Admit(c, HistoryAfter(c, hits), now).1.retryAfterMs)
    ensures HistoryAfter(c, hits + [now] + more) == HistoryAfter(c, hits)
    decreases |more|
  {
    var all := hits + [now] + more;
    Pieces(hits, now, more);
    if more == [] {
      assert all[..|all| - 1] == hits;
    } else {
      var init, last := more[..|more| - 1], more[|more| - 1];
      assert all[..|all| - 1] == hits + [now] + init && all[|all| - 1] == last;
      AscendingPrefix(all, hits + [now] + init);
      BlockedHitsLeaveHistory(c, hits, now, init);
      RunsAgree(c, hits, 0, now);
      BlockedUntil(c, HistoryAfter(c, hits), now, last);
    }
  }

  /** So the script answers a later hit as if the blocked ones had not happened. */
  lemma AnsweredAsBefore(c: Config, hits: seq<nat>, expiresAt: nat, now: nat, more: seq<nat>, t: nat)
    requires Sound(c) && Ascending(hits + [now] + more + [t]) && Admit(c, HistoryAfter(c, hits), now).1.Blocked?
    requires AllBefore(more, now + Admit(c, HistoryAfter(c, hits), now).1.retryAfterMs)
    ensures Hit(c, LogAfter(c, Log([], expiresAt), hits + [now] + more), t).1 == Admit(c, HistoryAfter(c, hits), t).1
  {
    var all := hits + [now] + more;
    assert (all + [t])[|all|] == t && forall i :: 0 <= i < |all| ==> (all + [t])[i] == all[i];
    AscendingPrefix(all + [t], all);
    BlockedHitsLeaveHistory(c, hits, now, more);
    DecidesLikeHistory(c, all, expiresAt, t);
  }

  /**
   * The retry hint of a blocked hit is between 1 ms and one window, and exact: of the hits that follow before that
   * time, however many, the script blocks each one, and it allows a hit at that very time.
   */
  lemma RetryAfterIsExact(c: Config, hits: seq<nat>, expiresAt: nat, now: nat, more: seq<nat>, t: nat)
    requires Sound(c) && Ascending(hits + [now] + more + [t])
    requires Hit(c, LogAfter(c, Log([], expiresAt), hits), now).1.Blocked?
    requires AllBefore(more, now + Hit(c, LogAfter(c, Log([], expiresAt), hits), now).1.retryAfterMs)
    ensures var start := Log([], expiresAt);
            var retry := Hit(c, LogAfter(c, start, hits), now).1.retryAfterMs;
            var answer := Hit(c, LogAfter(c, start, hits + [now] + more), t).1;
            && 1 <= retry <= c.windowMs
            && (t < now + retry ==> answer.Blocked?)
            && (t == now + retry ==> answer.Allowed?)
  {
    var all := hits + [now] + more + [t];
    assert all[|hits|] == now && all[|all| - 1] == t && forall i :: 0 <= i < |hits| ==> all[i] == hits[i];
    AscendingPrefix(all, hits);
    DecidesLikeHistory(c, hits, expiresAt, now);
    AnsweredAsBefore(c, hits, expiresAt, now, more, t);
    RunsAgree(c, hits, 0, now);
    BlockedUntil(c, HistoryAfter(c, hits), now, t);
  }

  lemma BlockedUntil(c: Config, history: seq<nat>, now: nat, later: nat)
    requires Sound(c) && Spaced(c, history, now) && Admit(c, history, now).1.Blocked?
    ensures var retry := Admit(c, history, now).1.retryAfterMs;
            && 1 <= retry <= c.windowMs
            && (now <= later < now + retry ==> Admit(c, history, later).1.Blocked?)
            && (later == now + retry ==> Admit(c, history, later).1.Allowed?)
  {
    var k := SinceIsSuffix(history, now - c.windowMs);
    var m := SinceIsSuffix(history, later - c.windowMs);
    assert history[k] == Since(history, now - c.windowMs)[0];
    assert SpacedAt(c, history, k);
  }

  class SlidingWindowLimiter {
    const config: Config
    var log: Log

    constructor (config: Config)
      requires Sound(config)
      ensures this.config == config && log == Log([], 0)
    {
      this.config := config;
      log := Log([], 0);
    }

    /** The script, command by command. */
    method HitKey(now: nat) returns (d: Decision)
      requires Sound(config)
      modifies this
      ensures (log, d) == Hit(config, old(log), now)
    {
      if now > log.expiresAt {
        log := log.(scores := []);
      }
      var kept := log.scores;
      while kept != [] && kept[0] <= now - config.windowMs
        invariant Since(kept, now - config.windowMs) == Since(log.scores, now - config.windowMs)
        decreases |kept|
      {
        kept := kept[1..];
      }
      var count := |kept|;
      if count < config.limit {
        log := Log(kept + [now], now + config.windowMs);
        return Allowed(config.limit - count - 1);
      }
      log := log.(scores := kept);
      return Blocked(kept[0] + config.windowMs - now);
    }
  }
}
