/** What each step of the worker does to the rows, the songs and the streams, field by field, and how often a
    crashing job is tried. */
module Effects {
  import opened Basics
  import opened Statuses
  import opened Lifecycle
  import opened LifecycleTheorems
  import opened Cancellation
  import opened Scheduling

  // ---------------------------------------------------------------- analyses:run

  /** Only entry `x` left the stream and the pending list. */
  ghost predicate EntryGone(s: Stream, t: Stream, x: nat) {
    && t == s.(ids := t.ids, pel := t.pel)
    && (forall y :: y in t.ids <==> y in s.ids && y != x)
    && (forall y :: y in t.pel <==> y in s.pel && y != x)
  }

  lemma AckIsExact(s: Stream, x: nat)
    requires StreamOk(s)
    ensures EntryGone(s, AckAndRemove(s, x), x)
  {
    RemoveOk(s, x);
    WithoutIncreasing(s.ids, x);
    WithoutIncreasing(s.pel, x);
  }

  /** The oldest entry nobody was given yet. */
  ghost predicate IsOldestNew(s: Stream, x: nat) {
    x in s.ids && x > s.last && forall y :: y in s.ids && y > s.last ==> x <= y
  }

  lemma OldestNew(s: Stream, x: nat)
    requires StreamOk(s)
    ensures IsOldestNew(s, x) <==> Undelivered(s) != [] && x == Undelivered(s)[0]
  {
    var all := Undelivered(s);
    AfterIncreasing(s.ids, s.last);
    if all != [] {
      assert all[0] in all;
      forall y | y in s.ids && y > s.last ensures all[0] <= y { HeadIsLeast(all, y); }
    } else {
      assert forall y :: y !in all;
    }
  }

  lemma FirstDelivery(s: Stream)
    requires Undelivered(s) != []
    ensures var x := Undelivered(s)[0];
            Deliver(s, 1) == s.(pel := s.pel + [x], deliveries := s.deliveries[x := 1], last := x)
  {
    var x := Undelivered(s)[0];
    assert Undelivered(s)[..1] == [x];
    assert (map y | y in [x] :: 1) == map[x := 1];
    assert s.deliveries + map[x := 1] == s.deliveries[x := 1];
  }

  /** `read_next` hands out the oldest undelivered entry, for the first time, and nothing else changes. */
  lemma DeliverRunExactly(w: World, x: nat)
    requires Inv(w) && w.hand == None
    ensures var v := Step(w, DeliverRun);
            if IsOldestNew(w.run, x) then
              v == w.(hand := Some(x),
                      run := w.run.(pel := w.run.pel + [x], deliveries := w.run.deliveries[x := 1], last := x))
            else v.hand != Some(x)
    ensures (forall y :: !IsOldestNew(w.run, y)) ==> Step(w, DeliverRun) == w
  {
    InvStreams(w);
    hide Inv, StreamOk, Undelivered, Deliver, IsOldestNew;
    OldestNew(w.run, x);
    if Undelivered(w.run) != [] {
      OldestNew(w.run, Undelivered(w.run)[0]);
      FirstDelivery(w.run);
    }
  }

  /** What handling the entry in hand comes to: its row's status, and the entry's end iff the handler got through. */
  lemma HandleRunExactly(w: World, x: nat, ending: Ending)
    requires Inv(w) && w.hand == Some(x)
    ensures x in w.run.job && w.run.job[x] in w.analyses
    ensures var v, a := Step(w, HandleRun(x, ending)), w.run.job[x];
            && v == w.(hand := None, run := v.run, analyses := v.analyses)
            && v.analyses == w.analyses[a := w.analyses[a].(status := v.analyses[a].status)]
            && v.analyses[a].status == (match ending
                                        case Finished => Done
                                        case Refused => Failed
                                        case Crashed(marked) => if marked then Processing else w.analyses[a].status)
            && if ending.Crashed? then v.run == w.run else EntryGone(w.run, v.run, x)
  {
    InvFacts(w, x);
    InvStreams(w);
    AckIsExact(w.run, x);
    hide Inv, StreamOk, AckAndRemove, EntryGone;
  }

  /** Giving up fails the row of an entry that was delivered more than three times, if the entry still exists, and
      ends the entry; anything delivered less often is left alone. */
  lemma GiveUpRunExactly(w: World, x: nat)
    requires Inv(w) && w.hand == None
    ensures var v := Step(w, GiveUpRun(x));
            if x in w.run.pel && Deliveries(w.run, x) > 3 then
              && EntryGone(w.run, v.run, x) && v == w.(run := v.run, analyses := v.analyses)
              && (x in w.run.ids ==>
                    && x in w.run.job && w.run.job[x] in w.analyses
                    && v.analyses == w.analyses[w.run.job[x] := w.analyses[w.run.job[x]].(status := Failed)])
              && (x !in w.run.ids ==> v.analyses == w.analyses)
            else v == w
  {
    if x in w.run.ids { InvFacts(w, x); }
    InvStreams(w);
    AckIsExact(w.run, x);
    hide Inv, StreamOk, AckAndRemove, EntryGone, Deliveries;
  }

  // ---------------------------------------------------------------- songs:prep

  /** Every row waiting for the song is moved to `status`, and no row changes otherwise. */
  ghost predicate WaitersMoved(w: World, v: World, song: Id, status: Status) {
    && v.analyses.Keys == w.analyses.Keys
    && forall a :: a in w.analyses ==>
                     v.analyses[a] == if w.analyses[a].status == WaitingForReference && w.analyses[a].song == song
                                      then w.analyses[a].(status := status) else w.analyses[a]
  }

  lemma MoveIsExact(w: World, v: World, song: Id, status: Status)
    requires v.analyses == MoveWaiting(w, song, status)
    ensures WaitersMoved(w, v, song, status)
  {
  }

  /** What a preparation comes to. Finished: the song is ready with its reference cached, its waiting rows are queued,
      and exactly they get an entry each, behind all others. Refused: the song and its waiting rows fail. */
  lemma HandlePrepExactly(w: World, x: nat, ending: Ending, order: seq<Id>)
    requires Inv(w) && Held(w.prep, x) && w.prep.job[x] in w.songs
    requires Enumerates(order, WaitingFor(w, w.prep.job[x]))
    ensures var v, song := Step(w, HandlePrep(x, ending, order)), w.prep.job[x];
            && v == w.(songs := v.songs, analyses := v.analyses, run := v.run, prep := v.prep)
            && v.songs == w.songs[song := v.songs[song]]
            && match ending
               case Finished =>
                 && v.songs[song] == Song(PrepReady, true) && WaitersMoved(w, v, song, Queued)
                 && EntryGone(w.prep, v.prep, x) && GotEntries(w, v, song)
               case Refused =>
                 && v.songs[song] == Song(PrepFailed, w.songs[song].cached) && WaitersMoved(w, v, song, Failed)
                 && EntryGone(w.prep, v.prep, x) && v.run == w.run
               case Crashed(marked) =>
                 && v.songs[song] == (if marked then w.songs[song].(prep := PrepProcessing) else w.songs[song])
                 && v.analyses == w.analyses && v.run == w.run && v.prep == w.prep
  {
    var v, song := Step(w, HandlePrep(x, ending, order)), w.prep.job[x];
    InvStreams(w);
    AckIsExact(w.prep, x);
    hide Inv, StreamOk, AckAndRemove, EntryGone, WaitersMoved, MoveWaiting, XAddAll, GotEntries;
    match ending
    case Finished =>
      MoveIsExact(w, v, song, Queued);
      EntriesAreExact(w, v, song, order);
    case Refused => MoveIsExact(w, v, song, Failed);
    case Crashed(marked) =>
  }

  /** The new entries of analyses:run follow the old ones, one for each row waiting for the song and no other, and
      nobody was given them yet. */
  ghost predicate GotEntries(w: World, v: World, song: Id) {
    && w.run.ids <= v.run.ids && |v.run.ids| == |w.run.ids| + |WaitingFor(w, song)|
    && v.run.pel == w.run.pel && v.run.last == w.run.last
    && (forall x :: x in w.run.ids ==> x in v.run.job && x in w.run.job && v.run.job[x] == w.run.job[x])
    && (forall k :: |w.run.ids| <= k < |v.run.ids| ==>
                      && v.run.ids[k] in v.run.job && v.run.job[v.run.ids[k]] in WaitingFor(w, song)
                      && v.run.ids[k] > v.run.last)
    && (forall a :: a in WaitingFor(w, song) ==> HasJob(v.run, a))
  }

  function NewIds(next: nat, n: nat): (r: seq<nat>)
    ensures |r| == n && forall k :: 0 <= k < n ==> r[k] == next + k
  {
    seq(n, k requires 0 <= k < n => next + k)
  }

  /** The entries from `first` on carry the jobs, in order. */
  predicate Carries(t: Stream, first: nat, jobs: seq<Id>)
    decreases |jobs|
  {
    jobs == [] || (first in t.job && t.job[first] == jobs[0] && Carries(t, first + 1, jobs[1..]))
  }

  lemma {:induction false} CarriesAt(t: Stream, first: nat, jobs: seq<Id>, k: nat)
    requires Carries(t, first, jobs) && k < |jobs|
    ensures first + k in t.job && t.job[first + k] == jobs[k]
    decreases |jobs|
  {
    if k > 0 { CarriesAt(t, first + 1, jobs[1..], k - 1); }
  }

  lemma {:induction false} XAddAllExactly(s: Stream, jobs: seq<Id>)
    ensures var t := XAddAll(s, jobs);
            && t.ids == s.ids + NewIds(s.next, |jobs|) && Carries(t, s.next, jobs)
            && t == s.(ids := t.ids, job := t.job, next := s.next + |jobs|)
            && (forall x :: x in s.job && x < s.next ==> x in t.job && t.job[x] == s.job[x])
    decreases |jobs|
  {
    if jobs == [] {
      assert s.ids + NewIds(s.next, 0) == s.ids;
    } else {
      var u, t, later := XAdd(s, jobs[0]), XAddAll(s, jobs), jobs[1..];
      XAddAllExactly(u, later);
      assert u.ids + NewIds(u.next, |later|) == s.ids + NewIds(s.next, |jobs|);
      assert s.next in u.job && u.job[s.next] == jobs[0];
    }
  }

  lemma EntriesAreExact(w: World, v: World, song: Id, order: seq<Id>)
    requires Inv(w) && Enumerates(order, WaitingFor(w, song)) && v.run == XAddAll(w.run, order)
    ensures GotEntries(w, v, song)
  {
    StreamFacts(w);
    hide Inv, XAddAll, WaitingFor;
    var rows, s, t := WaitingFor(w, song), w.run, v.run;
    EnumerationSize(order, rows);
    hide Carries;
    XAddAllExactly(s, order);
    assert t.ids == s.ids + NewIds(s.next, |order|);
    NewEntriesOf(s, t, order);
    forall a | a in rows ensures HasJob(t, a) {
      assert a in order;
      NewEntryOf(s, t, order, a);
    }
    forall k | |s.ids| <= k < |t.ids| ensures t.ids[k] in t.job && t.job[t.ids[k]] in rows && t.ids[k] > t.last {
      assert t.job[t.ids[k]] == order[k - |s.ids|];
    }
    hide HasJob;
  }

  lemma NewEntriesOf(s: Stream, t: Stream, order: seq<Id>)
    requires t.ids == s.ids + NewIds(s.next, |order|)
    requires Carries(t, s.next, order)
    ensures forall k :: |s.ids| <= k < |t.ids| ==>
                          t.ids[k] >= s.next && t.ids[k] in t.job && t.job[t.ids[k]] == order[k - |s.ids|]
  {
    forall k | |s.ids| <= k < |t.ids|
      ensures t.ids[k] >= s.next && t.ids[k] in t.job && t.job[t.ids[k]] == order[k - |s.ids|]
    {
      CarriesAt(t, s.next, order, k - |s.ids|);
      assert t.ids[k] == s.next + (k - |s.ids|);
    }
  }

  lemma NewEntryOf(s: Stream, t: Stream, order: seq<Id>, a: Id)
    requires t.ids == s.ids + NewIds(s.next, |order|) && a in order && Carries(t, s.next, order)
    ensures HasJob(t, a)
  {
    var k :| 0 <= k < |order| && order[k] == a;
    CarriesAt(t, s.next, order, k);
    assert t.ids[|s.ids| + k] == s.next + k;
  }

  lemma StreamFacts(w: World)
    requires Inv(w)
    ensures forall x :: x in w.run.ids ==> x < w.run.next && x in w.run.job
    ensures w.run.last < w.run.next
  {
  }

  lemma GiveUpPrepExactly(w: World, x: nat)
    requires Inv(w)
    ensures var v := Step(w, GiveUpPrep(x));
            if x in w.prep.pel && Deliveries(w.prep, x) > 3 then
              && x in w.prep.job && w.prep.job[x] in w.songs
              && var song := w.prep.job[x];
                 && v == w.(songs := w.songs[song := w.songs[song].(prep := PrepFailed)],
                            analyses := v.analyses, prep := v.prep)
                 && WaitersMoved(w, v, song, Failed) && EntryGone(w.prep, v.prep, x)
            else v == w
  {
    var v := Step(w, GiveUpPrep(x));
    if x in w.prep.pel { PendingPrep(w, x); }
    InvStreams(w);
    AckIsExact(w.prep, x);
    hide Inv, StreamOk, AckAndRemove, EntryGone, WaitersMoved, MoveWaiting, Deliveries;
    if x in w.prep.pel && Deliveries(w.prep, x) > MAX_CLAIM_ATTEMPTS { MoveIsExact(w, v, w.prep.job[x], Failed); }
  }

  lemma PendingPrep(w: World, x: nat)
    requires Inv(w) && x in w.prep.pel
    ensures Held(w.prep, x) && w.prep.job[x] in w.songs
  {
  }

  // ---------------------------------------------------------------- how often a job is tried

  /** One round of startup reclaim on an entry that still exists: up to three deliveries it is claimed once more and
      handled; delivered more often than that, it is failed without being tried again. */
  lemma ReclaimExactly(w: World, x: nat, ending: Ending)
    requires Inv(w) && w.hand == None && Held(w.run, x)
    ensures var v, a := ReclaimRun(w, x, ending), w.run.job[x];
            && a in w.analyses && a in v.analyses
            && if Deliveries(w.run, x) > 3 then v.analyses[a].status == Failed && x !in v.run.ids
               else
                 && (ending == Finished ==> v.analyses[a].status == Done && x !in v.run.ids)
                 && (ending == Refused ==> v.analyses[a].status == Failed && x !in v.run.ids)
                 && (ending.Crashed? ==> Held(v.run, x) && v.run.job == w.run.job
                                         && Deliveries(v.run, x) == Deliveries(w.run, x) + 1)
  {
    InvFacts(w, x);
    if Deliveries(w.run, x) > MAX_CLAIM_ATTEMPTS || !ending.Crashed? {
      RoundCloses(w, x, w.run.job[x], ending);
    } else {
      RoundCounts(w, x, ending);
    }
    RoundStatus(w, x, ending);
  }

  lemma RoundStatus(w: World, x: nat, ending: Ending)
    requires Inv(w) && w.hand == None && Held(w.run, x)
    ensures var v, a := ReclaimRun(w, x, ending), w.run.job[x];
            && a in w.analyses && a in v.analyses
            && v.analyses[a].status == (if Deliveries(w.run, x) > 3 then Failed
                                        else match ending
                                          case Finished => Done
                                          case Refused => Failed
                                          case Crashed(marked) =>
                                            if marked then Processing else w.analyses[a].status)
  {
    RoundFacts(w, x);
    hide Inv, AckAndRemove, Deliveries;
  }

  /** A job whose worker dies every time is tried once when delivered and three times more: it is still there after
      `n` crashing reclaims of a fresh delivery iff `n` is at most three. */
  lemma {:induction false} TriedFourTimes(w: World, x: nat, a: Id, n: nat, count: nat, endings: seq<Ending>)
    requires Inv(w) && w.hand == None && Held(w.run, x) && w.run.job[x] == a
    requires Deliveries(w.run, x) == count && 1 <= count <= 4 && |endings| == n
    requires forall i :: 0 <= i < n ==> endings[i].Crashed?
    ensures x in ReclaimRounds(w, x, endings).run.ids <==> count + n <= 4
    decreases n
  {
    hide Inv, ReclaimRun, Deliveries;
    if n > 0 {
      var v := ReclaimRun(w, x, endings[0]);
      ReclaimExactly(w, x, endings[0]);
      ReclaimRunKeeps(w, x, endings[0]);
      if count > 3 {
        ClosedIs(w, x, a, endings[0]);
        GoneStaysGone(v, x, a, endings[1..]);
      } else {
        TriedFourTimes(v, x, a, n - 1, count + 1, endings[1..]);
      }
    }
  }

  lemma ClosedIs(w: World, x: nat, a: Id, ending: Ending)
    requires Inv(w) && w.hand == None && Held(w.run, x) && w.run.job[x] == a && Deliveries(w.run, x) > 3
    ensures IsClosed(ReclaimRun(w, x, ending), a)
  {
    RoundStatus(w, x, ending);
  }

  /** A preparation reclaimed at startup, likewise: up to three deliveries it is handled again, and otherwise failed. */
  lemma ReclaimPrepExactly(w: World, x: nat, ending: Ending, returning: set<Id> -> seq<Id>)
    requires Inv(w) && Held(w.prep, x) && IsReturning(returning)
    ensures var v := ReclaimPrep(w, x, ending, returning);
            && w.prep.job[x] in w.songs && w.prep.job[x] in v.songs
            && var song := v.songs[w.prep.job[x]];
               if Deliveries(w.prep, x) > 3 then song.prep == PrepFailed && x !in v.prep.ids
               else
                 && (ending == Finished ==> song == Song(PrepReady, true) && x !in v.prep.ids)
                 && (ending == Refused ==> song.prep == PrepFailed && x !in v.prep.ids)
                 && (ending.Crashed? ==> Held(v.prep, x) && Deliveries(v.prep, x) == Deliveries(w.prep, x) + 1)
  {
    hide Inv, Claim, GiveUpPrepStep, HandlePrepStep, WaitersMoved, GotEntries, WaitingFor, Deliveries, Enumerates;
    PendingPrep(w, x);
    if Deliveries(w.prep, x) > MAX_CLAIM_ATTEMPTS {
      GiveUpPrepExactly(w, x);
    } else {
      var u := w.(prep := Claim(w.prep, x));
      ClaimPrepKeeps(w, x);
      ClaimCounts(w.prep, x);
      HandlePrepExactly(u, x, ending, returning(WaitingFor(u, w.prep.job[x])));
    }
  }

  lemma ClaimCounts(s: Stream, x: nat)
    requires Held(s, x)
    ensures var t := Claim(s, x); Held(t, x) && t.job == s.job && Deliveries(t, x) == Deliveries(s, x) + 1
  {
  }
}
