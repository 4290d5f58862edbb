/** The sliding-window analysis rate limiter. Times are Unix milliseconds on a clock that never runs
    backwards; one call is atomic. */
module RateLimiter {
  import opened Basics

  type User = nat

  /** A user's sorted set: the scores in order, and when the key itself expires. */
  datatype Window = Window(entries: seq<nat>, expires: nat)

  datatype Verdict = Allowed | Denied(retryAfter: nat)

  /** `ZREMRANGEBYSCORE 0 cutoff`: what is left is younger than the cutoff. */
  function Younger(entries: seq<nat>, cutoff: int): (r: seq<nat>)
    ensures |r| <= |entries|
  {
    if entries == [] then []
    else
      var n := |entries| - 1;
      Younger(entries[..n], cutoff) + if entries[n] > cutoff then [entries[n]] else []
  }

  /** The entries a call at `now` sees after trimming; an expired key is empty. */
  function Seen(w: Window, now: nat, window: nat): seq<nat> {
    if now < w.expires then Younger(w.entries, now - window) else []
  }

  function Judge(w: Window, now: nat, limit: nat, window: nat): Verdict {
    var seen := Seen(w, now, window);
    if |seen| < limit then Allowed
    else Denied(if seen == [] then 0 else Max(0, seen[0] + window - now))
  }

  function After(w: Window, now: nat, limit: nat, window: nat): Window {
    var seen := Seen(w, now, window);
    if |seen| < limit then Window(seen + [now], now + window) else Window(seen, w.expires)
  }

  // ---------------------------------------------------------------- whole runs

  /** The user's key and every accepted time, after calls at `times`. */
  datatype Trace = Trace(key: Window, accepted: seq<nat>)

  function Run(times: seq<nat>, limit: nat, window: nat): Trace
    decreases |times|
  {
    if times == [] then Trace(Window([], 0), [])
    else
      var now := times[|times| - 1];
      var t := Run(times[..|times| - 1], limit, window);
      Trace(After(t.key, now, limit, window),
            if Judge(t.key, now, limit, window) == Allowed then t.accepted + [now] else t.accepted)
  }

  predicate AtMost(xs: seq<nat>, top: int) {
    forall i :: 0 <= i < |xs| ==> xs[i] <= top
  }

  predicate NonDecreasing(times: seq<nat>) {
    forall i, j :: 0 <= i < j < |times| ==> times[i] <= times[j]
  }

  /** How many times lie in (after, upto]. */
  function CountIn(times: seq<nat>, after: int, upto: int): nat {
    if times == [] then 0
    else
      var n := |times| - 1;
      CountIn(times[..n], after, upto) + if after < times[n] <= upto then 1 else 0
  }

  lemma {:induction false} YoungerAppend(xs: seq<nat>, ys: seq<nat>, cutoff: int)
    ensures Younger(xs + ys, cutoff) == Younger(xs, cutoff) + Younger(ys, cutoff)
    decreases |ys|
  {
    if ys == [] {
      assert xs + ys == xs;
    } else {
      var n := |ys| - 1;
      assert (xs + ys)[..|xs + ys| - 1] == xs + ys[..n];
      YoungerAppend(xs, ys[..n], cutoff);
    }
  }

  /** Trimming twice is trimming to the later cutoff. */
  lemma {:induction false} YoungerTwice(xs: seq<nat>, early: int, late: int)
    requires early <= late
    ensures Younger(Younger(xs, early), late) == Younger(xs, late)
  {
    if xs != [] {
      var n := |xs| - 1;
      YoungerTwice(xs[..n], early, late);
      var last := if xs[n] > early then [xs[n]] else [];
      YoungerAppend(Younger(xs[..n], early), last, late);
      assert last != [] ==> last[..0] == [];
    }
  }

  lemma {:induction false} YoungerNone(xs: seq<nat>, cutoff: int)
    requires AtMost(xs, cutoff)
    ensures Younger(xs, cutoff) == []
  {
    if xs != [] {
      YoungerNone(xs[..|xs| - 1], cutoff);
    }
  }

  lemma {:induction false} YoungerAll(xs: seq<nat>, cutoff: int)
    requires forall i :: 0 <= i < |xs| ==> xs[i] > cutoff
    ensures Younger(xs, cutoff) == xs
  {
    if xs != [] {
      YoungerAll(xs[..|xs| - 1], cutoff);
    }
  }

  /** The key after a run stands for the log of accepted times: their youngest part, alive long enough. */
  ghost predicate Stands(key: Window, accepted: seq<nat>, window: nat, now: nat) {
    && (forall later: nat :: later >= now ==> Seen(key, later, window) == Younger(accepted, later - window))
    && AtMost(accepted, now)
  }

  lemma StandsAt(key: Window, accepted: seq<nat>, window: nat, now: nat, later: nat)
    requires Stands(key, accepted, window, now) && later >= now
    ensures Seen(key, later, window) == Younger(accepted, later - window) && AtMost(accepted, now)
  {
  }

  /** A recorded call, seen from any later time. */
  lemma AcceptSeenLater(seen: seq<nat>, accepted: seq<nat>, window: nat, now: nat, later: nat)
    requires seen == Younger(accepted, now - window) && AtMost(accepted, now) && later >= now
    ensures Seen(Window(seen + [now], now + window), later, window) == Younger(accepted + [now], later - window)
  {
    hide Younger;
    var cutoff := later - window;
    YoungerTwice(accepted, now - window, cutoff);
    YoungerAppend(seen, [now], cutoff);
    YoungerAppend(accepted, [now], cutoff);
    if later >= now + window {
      YoungerNone(accepted + [now], cutoff);
    }
  }

  /** A refused call only trims. */
  lemma DenySeenLater(key: Window, accepted: seq<nat>, window: nat, now: nat, later: nat)
    requires Seen(key, now, window) == Younger(accepted, now - window) && later >= now
    requires Seen(key, later, window) == Younger(accepted, later - window)
    ensures Seen(Window(Seen(key, now, window), key.expires), later, window) == Younger(accepted, later - window)
  {
    hide Younger;
    YoungerTwice(accepted, now - window, later - window);
  }

  lemma CallKeepsLog(key: Window, accepted: seq<nat>, limit: nat, window: nat, was: nat, now: nat)
    requires Stands(key, accepted, window, was) && was <= now
    ensures var logged := if Judge(key, now, limit, window) == Allowed then accepted + [now] else accepted;
            Stands(After(key, now, limit, window), logged, window, now)
  {
    hide Seen, Younger;
    StandsAt(key, accepted, window, was, now);
    var seen := Seen(key, now, window);
    var next := After(key, now, limit, window);
    var logged := if |seen| < limit then accepted + [now] else accepted;
    forall later: nat | later >= now ensures Seen(next, later, window) == Younger(logged, later - window) {
      StandsAt(key, accepted, window, was, later);
      if |seen| < limit {
        AcceptSeenLater(seen, accepted, window, now, later);
      } else {
        DenySeenLater(key, accepted, window, now, later);
      }
    }
    assert AtMost(logged, now);
    assert Judge(key, now, limit, window) == Allowed <==> |seen| < limit;
    assert Stands(next, logged, window, now);
  }

  /** The key holds exactly what a full log would: nothing in the window is ever forgotten, neither by
      trimming nor by the key expiring, and nothing older is counted. */
  lemma {:induction false} KeyIsTheLog(times: seq<nat>, limit: nat, window: nat)
    requires NonDecreasing(times)
    ensures Stands(Run(times, limit, window).key, Run(times, limit, window).accepted, window, LastOf(times))
    decreases |times|
  {
    hide After, Judge, Stands;
    if times == [] {
      assert Stands(Window([], 0), [], window, 0) by { EmptyStands(window); }
    } else {
      var n := |times| - 1;
      KeyIsTheLog(times[..n], limit, window);
      var t := Run(times[..n], limit, window);
      CallKeepsLog(t.key, t.accepted, limit, window, LastOf(times[..n]), times[n]);
    }
  }

  lemma EmptyStands(window: nat)
    ensures Stands(Window([], 0), [], window, 0)
  {
  }

  function LastOf(times: seq<nat>): nat {
    if times == [] then 0 else times[|times| - 1]
  }

  /** A call is allowed exactly when fewer than `limit` earlier calls were accepted within the window. */
  lemma AllowedExactly(times: seq<nat>, limit: nat, window: nat, now: nat)
    requires NonDecreasing(times) && LastOf(times) <= now
    ensures var t := Run(times, limit, window);
            Judge(t.key, now, limit, window) == Allowed <==> CountIn(t.accepted, now - window, now) < limit
  {
    hide Run, Younger, Stands;
    var t := Run(times, limit, window);
    KeyIsTheLog(times, limit, window);
    StandsAt(t.key, t.accepted, window, LastOf(times), now);
    CountYounger(t.accepted, now - window, now);
  }

  lemma {:induction false} CountYounger(xs: seq<nat>, cutoff: int, upto: int)
    requires AtMost(xs, upto)
    ensures CountIn(xs, cutoff, upto) == |Younger(xs, cutoff)|
  {
    if xs != [] {
      CountYounger(xs[..|xs| - 1], cutoff, upto);
    }
  }

  lemma {:induction false} CountMonotone(xs: seq<nat>, a: int, b: int, upto: int, top: int)
    requires a <= b && upto <= top
    ensures CountIn(xs, b, upto) <= CountIn(xs, a, top)
  {
    if xs != [] { CountMonotone(xs[..|xs| - 1], a, b, upto, top); }
  }

  /** Whatever the calls, no window of that length ever contains more than `limit` accepted ones. */
  lemma {:induction false} NeverOverLimit(times: seq<nat>, limit: nat, window: nat, t: int)
    requires NonDecreasing(times)
    ensures CountIn(Run(times, limit, window).accepted, t - window, t) <= limit
    decreases |times|
  {
    hide Judge, After;
    if times != [] {
      var n := |times| - 1;
      var now, before := times[n], Run(times[..n], limit, window);
      NeverOverLimit(times[..n], limit, window, t);
      AllowedExactly(times[..n], limit, window, now);
      if Judge(before.key, now, limit, window) == Allowed {
        assert (before.accepted + [now])[..|before.accepted|] == before.accepted;
        if t - window < now <= t {
          KeyIsTheLog(times[..n], limit, window);
          CountYounger(before.accepted, t - window, t);
          CountYounger(before.accepted, t - window, now);
          CountMonotone(before.accepted, now - window, t - window, now, now);
        }
      }
    }
  }

  /** Trimming keeps the order, so the first seen entry is the oldest. */
  lemma AppendInOrder(xs: seq<nat>, last: nat, x: nat)
    requires NonDecreasing(xs) && AtMost(xs, last) && last <= x
    ensures NonDecreasing(xs) && AtMost(xs, x) && NonDecreasing(xs + [x]) && AtMost(xs + [x], x) && xs + [] == xs
  {
  }

  lemma FrontInOrder(xs: seq<nat>)
    requires NonDecreasing(xs) && xs != []
    ensures NonDecreasing(xs[..|xs| - 1]) && LastOf(xs[..|xs| - 1]) <= LastOf(xs) == xs[|xs| - 1]
  {
  }

  lemma EmptyInOrder(top: int)
    ensures NonDecreasing([]) && AtMost([], top)
  {
  }

  lemma {:induction false} YoungerInOrder(xs: seq<nat>, cutoff: int)
    requires NonDecreasing(xs)
    ensures NonDecreasing(Younger(xs, cutoff)) && AtMost(Younger(xs, cutoff), LastOf(xs))
    ensures forall i :: 0 <= i < |Younger(xs, cutoff)| ==> Younger(xs, cutoff)[i] > cutoff
  {
    hide NonDecreasing, AtMost, LastOf;
    if xs == [] {
      EmptyInOrder(LastOf(xs));
    } else {
      var front := xs[..|xs| - 1];
      FrontInOrder(xs);
      YoungerInOrder(front, cutoff);
      AppendInOrder(Younger(front, cutoff), LastOf(front), LastOf(xs));
    }
  }

  lemma {:induction false} AcceptedInOrder(times: seq<nat>, limit: nat, window: nat)
    requires NonDecreasing(times)
    ensures NonDecreasing(Run(times, limit, window).accepted)
    ensures AtMost(Run(times, limit, window).accepted, LastOf(times))
    decreases |times|
  {
    hide Judge, After;
    if times != [] { AcceptedInOrder(times[..|times| - 1], limit, window); }
  }

  /** Dropping what is not younger than the first entry drops at least that entry. */
  lemma FirstDrops(seen: seq<nat>, cutoff: int)
    requires seen != [] && NonDecreasing(seen)
    ensures cutoff < seen[0] ==> Younger(seen, cutoff) == seen
    ensures cutoff >= seen[0] ==> |Younger(seen, cutoff)| < |seen|
  {
    if cutoff < seen[0] {
      YoungerAll(seen, cutoff);
    } else {
      assert seen == [seen[0]] + seen[1..];
      YoungerAppend([seen[0]], seen[1..], cutoff);
      assert [seen[0]][..0] == [];
    }
  }

  /** The advice given to a denied caller is exact: with no other accepted call, waiting any shorter is
      denied again and waiting exactly that long is allowed. */
  lemma RetryAfterIsExact(times: seq<nat>, limit: nat, window: nat, now: nat, wait: nat)
    requires NonDecreasing(times) && LastOf(times) <= now && limit > 0
    requires Judge(Run(times, limit, window).key, now, limit, window) != Allowed
    ensures var key := Run(times, limit, window).key;
            var retry := Judge(key, now, limit, window).retryAfter;
            && retry > 0
            && (wait < retry ==> Judge(After(key, now, limit, window), now + wait, limit, window) != Allowed)
            && Judge(After(key, now, limit, window), now + retry, limit, window) == Allowed
  {
    hide Run, Younger, After, Seen;
    DeniedSeesLimit(times, limit, window, now);
    DeniedSeenLater(times, limit, window, now, now + wait);
    var key := Run(times, limit, window).key;
    var seen := Seen(key, now, window);
    var retry := Judge(key, now, limit, window).retryAfter;
    assert retry == seen[0] + window - now;
    DeniedSeenLater(times, limit, window, now, now + retry);
    FirstDrops(seen, now + retry - window);
    if wait < retry { FirstDrops(seen, now + wait - window); }
  }

  /** A denied caller sees exactly `limit` entries, in order and all within the window. */
  lemma DeniedSeesLimit(times: seq<nat>, limit: nat, window: nat, now: nat)
    requires NonDecreasing(times) && LastOf(times) <= now && limit > 0
    requires Judge(Run(times, limit, window).key, now, limit, window) != Allowed
    ensures var seen := Seen(Run(times, limit, window).key, now, window);
            |seen| == limit && NonDecreasing(seen) && seen[0] > now - window
  {
    hide Run, Younger, Stands;
    var t := Run(times, limit, window);
    KeyIsTheLog(times, limit, window);
    StandsAt(t.key, t.accepted, window, LastOf(times), now);
    AcceptedInOrder(times, limit, window);
    YoungerInOrder(t.accepted, now - window);
    NeverOverLimit(times, limit, window, now);
    CountYounger(t.accepted, now - window, now);
  }

  lemma DeniedSeenLater(times: seq<nat>, limit: nat, window: nat, now: nat, later: nat)
    requires NonDecreasing(times) && LastOf(times) <= now <= later
    requires Judge(Run(times, limit, window).key, now, limit, window) != Allowed
    ensures var key := Run(times, limit, window).key;
            Seen(After(key, now, limit, window), later, window) == Younger(Seen(key, now, window), later - window)
  {
    hide Run, Younger, After, Stands, Seen;
    var t := Run(times, limit, window);
    KeyIsTheLog(times, limit, window);
    StandsAt(t.key, t.accepted, window, LastOf(times), now);
    CallKeepsLog(t.key, t.accepted, limit, window, LastOf(times), now);
    StandsAt(After(t.key, now, limit, window), t.accepted, window, now, later);
    YoungerTwice(t.accepted, now - window, later - window);
  }

  // ---------------------------------------------------------------- the limiter itself

  class AnalysisRateLimiter {
    var keys: map<User, Window>
    const limit: nat
    const window: nat

    constructor (limit: nat, window: nat)
      ensures this.limit == limit && this.window == window && keys == map[]
    {
      this.limit, this.window, keys := limit, window, map[];
    }

    function KeyOf(user: User): Window
      reads this
    {
      if user in keys then keys[user] else Window([], 0)
    }

    method Allow(user: User, now: nat) returns (r: Verdict)
      modifies this
      ensures r == Judge(old(KeyOf(user)), now, limit, window)
      ensures KeyOf(user) == After(old(KeyOf(user)), now, limit, window)
      ensures forall other :: other != user ==> KeyOf(other) == old(KeyOf(other))
    {
      var key := KeyOf(user);
      var entries := if now < key.expires then Younger(key.entries, now - window) else [];
      keys := keys[user := Window(entries, key.expires)];
      if |entries| >= limit {
        var retryAfter := 0;
        if entries != [] {
          var expiresAt := entries[0] + window;
          if expiresAt > now { retryAfter := expiresAt - now; }
        }
        return Denied(retryAfter);
      }
      keys := keys[user := Window(entries + [now], now + window)];
      return Allowed;
    }
  }
}
