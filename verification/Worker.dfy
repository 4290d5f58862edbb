/** The worker process: the scheduler's loop over the store, proved to perform exactly the steps of
    `Scheduling`. */
module Worker {
  import opened Basics
  import opened Statuses
  import opened Lifecycle
  import opened LifecycleTheorems
  import opened Cancellation
  import opened Backend
  import opened Scheduling

  class Scheduler {
    const store: Store
    var stopping: bool

    constructor (store: Store)
      ensures this.store == store && !stopping
    {
      this.store := store;
      stopping := false;
    }

    /** The signal handler. */
    method RequestStop()
      modifies this
      ensures stopping
    {
      stopping := true;
    }

    /** `read_next`: at most one undelivered entry of analyses:run, which the worker then has in hand. */
    method ReadNextRun() returns (entries: seq<nat>)
      requires store.hand == None
      modifies store`run, store`hand
      ensures store.State() == DeliverRunStep(old(store.State()))
      ensures entries == (if Undelivered(old(store.run)) == [] then [] else [Undelivered(old(store.run))[0]])
    {
      var undelivered := Undelivered(store.run);
      if undelivered == [] { return []; }
      entries := [undelivered[0]];
      store.run := Deliver(store.run, 1);
      store.hand := Some(undelivered[0]);
    }

    method ClaimNewPreps()
      modifies store`prep
      ensures store.prep == Deliver(old(store.prep), RECLAIM_BATCH_SIZE)
    {
      store.prep := Deliver(store.prep, RECLAIM_BATCH_SIZE);
    }

    /** `oldest_waiting_song_id`. */
    method OldestWaiting() returns (a: Option<Id>)
      ensures a.Some? ==> IsOldestWaiting(store.State(), a.value)
      ensures a.None? ==> !SomeoneWaits(store.State())
    {
      hide Inv, IsOldestOf;
      var rows := WaitingRows(store.State());
      var rest := rows;
      a := None;
      while rest != {}
        invariant rest <= rows && (a.None? <==> rest == rows)
        invariant a.Some? ==> a.value in rows - rest && IsOldestOf(store.analyses, rows - rest, a.value)
        decreases |rest|
      {
        var b :| b in rest;
        OldestNext(store.analyses, rows, rest, a, b);
        if a.None? || store.analyses[b].queueSeq < store.analyses[a.value].queueSeq { a := Some(b); }
        rest := rest - {b};
      }
      assert rows - rest == rows;
      assert forall b :: b in store.analyses && store.analyses[b].status == WaitingForReference ==> b in rows;
      if a.Some? { OldestOfAll(store.State(), a.value); }
    }

    /** The scan of the pending batch for the waiting song's entry. */
    method FindPending(song: Id) returns (x: Option<nat>)
      ensures x == FirstFor(store.prep, Pending(store.prep), song)
    {
      var pending := Pending(store.prep);
      var i := 0;
      while i < |pending|
        invariant i <= |pending|
        invariant FirstFor(store.prep, pending, song) == FirstFor(store.prep, pending[i..], song)
      {
        if pending[i] in store.prep.ids && pending[i] in store.prep.job && store.prep.job[pending[i]] == song {
          return Some(pending[i]);
        }
        assert pending[i..][1..] == pending[i + 1..];
        i := i + 1;
      }
      return None;
    }

    /** `reclaim_stuck_jobs` on analyses:run: `stuck` is what XPENDING listed, read once before the loop
        together with the delivery counts. */
    method ReclaimStuckRuns(stuck: seq<nat>, endings: nat -> Ending)
      requires Inv(store.State()) && store.hand == None
      requires Increasing(stuck) && forall x :: x in stuck ==> x in store.run.pel
      modifies store
      ensures store.State() == ReclaimAll(old(store.State()), stuck, endings)
      ensures Inv(store.State()) && store.hand == None
    {
      hide Inv, ReclaimAll, ReclaimRun, Deliveries, NoneCanceled, Stranded;
      ghost var w := store.State();
      var counts := map x | x in stuck :: Deliveries(store.run, x);
      var i := 0;
      assert store.State() == ReclaimAll(w, stuck[..0], endings) by { ReclaimNone(w, stuck[..0], endings); }
      while i < |stuck|
        invariant i <= |stuck|
        invariant store.State() == ReclaimAll(w, stuck[..i], endings)
        invariant Inv(store.State()) && store.hand == None
      {
        var id := stuck[i];
        ghost var u := store.State();
        ReclaimAllKeeps(w, stuck[..i], endings);
        assert id !in stuck[..i];
        ReclaimRunKeeps(u, id, endings(id));
        ReclaimAllNext(w, stuck, endings, i);
        ReclaimOne(id, counts[id], endings(id));
        i := i + 1;
      }
      assert stuck[..i] == stuck;
    }

    /** One round of the reclaim loop: give up, or claim and handle what the claim returned. */
    method ReclaimOne(id: nat, count: nat, ending: Ending)
      requires Inv(store.State()) && store.hand == None
      requires id in store.run.pel && count == Deliveries(store.run, id)
      modifies store
      ensures store.State() == ReclaimRun(old(store.State()), id, ending)
    {
      InvStreams(store.State());
      if id in store.run.ids { EntryFacts(store.run, id); }
      hide Inv, SetStatus, AckAndRemove, HasReference;
      if count > MAX_CLAIM_ATTEMPTS {
        store.GiveUpRun(id);
      } else {
        var claimed := id in store.run.ids;
        store.run := Claim(store.run, id);
        if claimed {
          store.hand := Some(id);
          var terminal := store.ProcessRunEntry(id, ending);
        }
      }
    }

    /** `reclaim_stuck_jobs` on songs:prep. */
    method ReclaimStuckPreps(stuck: seq<nat>, endings: nat -> Ending, returning: set<Id> -> seq<Id>)
      requires Inv(store.State()) && store.hand == None && IsReturning(returning)
      modifies store
      ensures store.State() == ReclaimAllPreps(old(store.State()), stuck, endings, returning)
      ensures Inv(store.State()) && Calm(old(store.State()), store.State())
    {
      hide Inv, Calm, ReclaimPrep, ReclaimAllPreps, IsReturning;
      ghost var w := store.State();
      assert Calm(w, w) by { SameRunSides(w, w); }
      PrepsNone(w, stuck[..0], endings, returning);
      for i := 0 to |stuck|
        invariant store.State() == ReclaimAllPreps(w, stuck[..i], endings, returning)
        invariant Inv(store.State()) && Calm(w, store.State())
      {
        PrepsNext(w, stuck, endings, returning, i);
        var id := stuck[i];
        ghost var u := store.State();
        CalmHand(w, u);
        ReclaimPrepIsCalm(u, id, endings(id), returning);
        ReclaimOnePrep(id, endings(id), returning);
        CalmChain(w, u, store.State());
      }
      assert stuck[..|stuck|] == stuck;
    }

    method ReclaimOnePrep(id: nat, ending: Ending, returning: set<Id> -> seq<Id>)
      requires Inv(store.State()) && IsReturning(returning)
      modifies store
      ensures store.State() == ReclaimPrep(old(store.State()), id, ending, returning)
    {
      ghost var w := store.State();
      ClaimPrepKeeps(w, id);
      hide Inv, PrepFailedStep, PrepReadyStep, AckAndRemove;
      if Deliveries(store.prep, id) > MAX_CLAIM_ATTEMPTS {
        if id in store.prep.pel {
          store.GiveUpPrep(id);
        }
      } else {
        store.prep := Claim(store.prep, id);
        if Held(store.prep, id) {
          RunPrep(id, ending, returning);
        }
      }
    }

    /** Runs one pending preparation that is known to exist. */
    method RunPrep(x: nat, ending: Ending, returning: set<Id> -> seq<Id>)
      requires Inv(store.State()) && IsReturning(returning) && Held(store.prep, x)
      modifies store
      ensures store.State() == HandlePrepStep(old(store.State()), x, ending,
                                              returning(WaitingFor(old(store.State()), old(store.prep).job[x])))
    {
      PrepEntryFacts(store.State(), x);
      var terminal := store.ProcessPrepEntry(x, ending, returning(WaitingFor(store.State(), store.prep.job[x])));
    }

    /** `_process_priority_prep`. */
    method ProcessPriorityPrep(song: Id, ending: Ending, returning: set<Id> -> seq<Id>) returns (x: Option<nat>)
      requires Inv(store.State()) && IsReturning(returning)
      modifies store
      ensures x == FirstFor(Claimed(old(store.State()), 1), Pending(Claimed(old(store.State()), 1)), song)
      ensures store.State() == if x.Some? then Perform(old(store.State()), PrepEntry(x.value), 1, ending, returning)
                               else Perform(old(store.State()), Nothing, 1, ending, returning)
    {
      hide HandlePrepStep, Inv, Enumerates, Deliver, Pending, Measure;
      ghost var w := store.State();
      ClaimChangesNothing(w, 1);
      ClaimedBasics(w, 1);
      ClaimNewPreps();
      x := FindPending(song);
      if x.Some? {
        assert WaitingFor(store.State(), song) == WaitingFor(w, song);
        RunPrep(x.value, ending, returning);
      }
    }

    /** `_process_next_prep`; `claims` counts the claims already made in this tick. */
    method ProcessNextPrep(ghost w: World, claims: nat, ending: Ending, returning: set<Id> -> seq<Id>)
      returns (worked: bool, ghost c: Choice)
      requires Inv(w) && IsReturning(returning) && claims <= 1
      requires store.State() == w.(prep := Claimed(w, claims))
      modifies store
      ensures var pending := Pending(Claimed(w, claims + 1));
              c == if pending == [] || pending[0] !in w.prep.ids then Nothing else PrepEntry(pending[0])
      ensures store.State() == Perform(w, c, claims + 1, ending, returning)
      ensures worked <==> c != Nothing
    {
      hide HandlePrepStep, Inv, Enumerates, Deliver, Measure;
      ClaimChangesNothing(w, claims + 1);
      ClaimedBasics(w, claims + 1);
      ClaimNewPreps();
      var pending := Pending(store.prep);
      worked, c := false, Nothing;
      if pending == [] { return; }
      if pending[0] !in store.prep.ids { return; }
      FrontIsHeld(w, claims + 1);
      assert WaitingFor(store.State(), store.prep.job[pending[0]]) == WaitingFor(w, store.prep.job[pending[0]]);
      RunPrep(pending[0], ending, returning);
      worked, c := true, PrepEntry(pending[0]);
    }

    /** `_tick`: one priority evaluation. */
    method Tick(ending: Ending, returning: set<Id> -> seq<Id>)
      returns (worked: bool, ghost c: Choice, ghost claims: nat)
      requires Inv(store.State()) && store.hand == None && IsReturning(returning)
      modifies store
      ensures stopping ==> !worked && store.State() == old(store.State())
      ensures !stopping ==>
                && Chooses(old(store.State()), c, claims)
                && store.State() == Perform(old(store.State()), c, claims, ending, returning)
                && (worked <==> c != Nothing)
    {
      hide Inv, HandleRunStep, AckAndRemove, Deliver;
      ghost var w := store.State();
      worked, c, claims := false, Nothing, 0;
      if stopping { return; }
      var entries := ReadNextRun();
      if entries != [] {
        DeliveredHead(w, entries[0]);
        var terminal := store.ProcessRunEntry(entries[0], ending);
        return true, RunEntry(entries[0]), 0;
      }
      assert store.State() == w;
      var oldest := OldestWaiting();
      hide Perform, Inv, Claimed, Pending, FirstFor, IsOldestWaiting;
      if oldest.Some? {
        assert forall b :: IsOldestWaiting(w, b) ==> b == oldest.value by { OldestOnly(w, oldest.value); }
        var x := ProcessPriorityPrep(store.analyses[oldest.value].song, ending, returning);
        if x.Some? {
          assert JumpsQueue(w, x.value);
          return true, PrepEntry(x.value), 1;
        }
        assert forall y :: !JumpsQueue(w, y);
        assert SomeoneWaits(w);
        NothingIsAClaim(w, 1, ending, returning);
        worked, c := ProcessNextPrep(w, 1, ending, returning);
        claims := 2;
      } else {
        assert forall y :: !JumpsQueue(w, y);
        NothingIsAClaim(w, 0, ending, returning);
        worked, c := ProcessNextPrep(w, 0, ending, returning);
        claims := 1;
      }
    }

    /** Ticks until one finds nothing or a stop is requested; `stops(i)` says whether a signal arrives before
        tick `i`. With terminal handlers and no new requests it takes at most as many ticks as there is work
        and loses nothing, and unless it is stopped it leaves only what was left behind or stranded before. */
    method Drain(stops: nat -> bool, endings: nat -> Ending, returning: set<Id> -> seq<Id>) returns (ticks: nat)
      requires Inv(store.State()) && store.hand == None && !stopping && IsReturning(returning)
      requires forall i :: !endings(i).Crashed?
      modifies this, store
      ensures Inv(store.State()) && Calm(old(store.State()), store.State())
      ensures !stopping ==> Idle(store.State())
      ensures stopping <==> exists i: nat :: i <= ticks && stops(i)
      ensures ticks <= Measure(old(store.State()))
    {
      hide Inv, Measure, Idle, Calm, Perform, Chooses;
      ghost var start := store.State();
      ticks := 0;
      var more := true;
      assert Calm(start, start) by { SameRunSides(start, start); }
      while more && !stopping
        invariant Inv(store.State()) && Calm(start, store.State()) && store.hand == None
        invariant ticks + Measure(store.State()) <= Measure(start)
        invariant !more ==> Idle(store.State())
        invariant stopping ==> stops(ticks)
        invariant (forall i: nat :: i < ticks ==> !stops(i)) && (!more ==> !stops(ticks))
        decreases Measure(store.State()), more, !stopping
      {
        if stops(ticks) {
          RequestStop();
          continue;
        }
        ghost var w := store.State();
        ghost var c, claims;
        more, c, claims := Tick(endings(ticks), returning);
        CalmTick(start, w, store.State(), more, c, claims, endings(ticks), returning);
        if more { ticks := ticks + 1; }
      }
    }

    /** `run_forever` on a worker that starts over anything earlier workers left: one startup reclaim of a
        batch of each pending list, of entries idle for long enough, then ticks until idle or stopped. With
        terminal handlers and no new requests nothing is lost, and unless it is stopped everything is over iff
        every entry that still exists was read by the reclaim and no row was stranded; and then every analysis
        that was not canceled ends done or failed. */
    method RunUntilIdle(aged: nat -> bool, agedPreps: nat -> bool, stops: nat -> bool, endings: nat -> Ending,
                        returning: set<Id> -> seq<Id>) returns (ticks: nat)
      requires Inv(store.State()) && store.hand == None && !stopping && IsReturning(returning)
      requires forall i :: !endings(i).Crashed?
      modifies this, store
      ensures Inv(store.State()) && NoneCanceled(old(store.State()), store.State())
      ensures forall x :: Behind(store.State(), x) <==> Leftover(old(store.State()), aged, x)
      ensures forall a :: Stranded(store.State(), a) <==> Stranded(old(store.State()), a)
      ensures stopping <==> exists i: nat :: i <= ticks && stops(i)
      ensures !stopping ==>
                && Idle(store.State())
                && (Drained(store.State()) <==>
                    && (forall x :: !Leftover(old(store.State()), aged, x))
                    && (forall a :: !Stranded(old(store.State()), a)))
    {
      ghost var w := store.State();
      BatchSplits(w, aged) by { InvRun(w); }
      ReclaimLeavesExactly(w, aged, endings);
      hide Inv, ReclaimAll, Idle, Drained, Behind, Leftover, Stranded, NoneCanceled, Increasing;
      ReclaimStuckRuns(Batch(store.run.pel, aged), endings);
      ghost var u := store.State();
      ReclaimStuckPreps(Batch(store.prep.pel, agedPreps), endings, returning);
      ghost var v := store.State();
      ticks := Drain(stops, endings, returning);
      CalmChain(u, v, store.State());
      NoneCanceledChain(w, u, store.State());
      if !stopping { DrainedExactly(store.State()); }
    }
  }

  /** One more tick after `w` loses nothing since `start`, and leaves less work or an idle state. */
  lemma CalmTick(start: World, w: World, v: World, worked: bool, c: Choice, claims: nat, ending: Ending,
                 returning: set<Id> -> seq<Id>)
    requires Inv(w) && w.hand == None && Calm(start, w) && IsReturning(returning) && !ending.Crashed?
    requires Chooses(w, c, claims) && v == Perform(w, c, claims, ending, returning) && (worked <==> c != Nothing)
    ensures Inv(v) && Calm(start, v) && v.hand == None
    ensures if worked then Measure(v) < Measure(w) else Measure(v) == Measure(w) && Idle(v)
  {
    hide Inv, Measure, Idle, Calm, Perform, Chooses, IsReturning;
    if worked {
      TickDrains(w, c, claims, ending, returning);
    } else {
      IdleIsAllThatIsLeft(w, claims);
      IdleChangesNothing(w, claims, ending, returning);
    }
    CalmHand(w, v);
    CalmChain(start, w, v);
  }

  predicate IsOldestOf(rows: map<Id, Analysis>, among: set<Id>, a: Id) {
    a in rows && forall b :: b in among ==> b in rows && rows[a].queueSeq <= rows[b].queueSeq
  }

  /** The older of the oldest so far and the next row is the oldest of both. */
  lemma OldestNext(table: map<Id, Analysis>, rows: set<Id>, rest: set<Id>, a: Option<Id>, b: Id)
    requires rest <= rows && b in rest && b in table && (a.None? <==> rest == rows)
    requires a.Some? ==> a.value in rows - rest && IsOldestOf(table, rows - rest, a.value)
    ensures var c := if a.None? || table[b].queueSeq < table[a.value].queueSeq then b else a.value;
            c in rows - (rest - {b}) && IsOldestOf(table, rows - (rest - {b}), c) && rest - {b} != rows
  {
    assert rows - (rest - {b}) == rows - rest + {b};
  }

  lemma OldestOfAll(w: World, a: Id)
    requires a in WaitingRows(w) && IsOldestOf(w.analyses, WaitingRows(w), a)
    ensures IsOldestWaiting(w, a)
  {
    assert forall b :: b in w.analyses && w.analyses[b].status == WaitingForReference ==> b in WaitingRows(w);
  }

  lemma ReclaimNone(w: World, stuck: seq<nat>, endings: nat -> Ending)
    requires stuck == []
    ensures ReclaimAll(w, stuck, endings) == w
  {
  }

  lemma ReclaimAllNext(w: World, stuck: seq<nat>, endings: nat -> Ending, i: nat)
    requires i < |stuck|
    ensures ReclaimAll(w, stuck[..i + 1], endings)
            == ReclaimRun(ReclaimAll(w, stuck[..i], endings), stuck[i], endings(stuck[i]))
  {
    assert stuck[..i + 1][..i] == stuck[..i];
  }

  lemma PrepsNone(w: World, stuck: seq<nat>, endings: nat -> Ending, returning: set<Id> -> seq<Id>)
    requires stuck == []
    ensures ReclaimAllPreps(w, stuck, endings, returning) == w
  {
  }

  lemma PrepsNext(w: World, stuck: seq<nat>, endings: nat -> Ending, returning: set<Id> -> seq<Id>, i: nat)
    requires i < |stuck|
    ensures ReclaimAllPreps(w, stuck[..i + 1], endings, returning)
            == ReclaimPrep(ReclaimAllPreps(w, stuck[..i], endings, returning), stuck[i], endings(stuck[i]), returning)
  {
    assert stuck[..i + 1][..i] == stuck[..i];
  }

  /** Every pending entry exists, and claiming changes no entry. */
  lemma ClaimedBasics(w: World, claims: nat)
    requires Inv(w) && claims > 0
    ensures Claimed(w, claims).ids == w.prep.ids && Claimed(w, claims).job == w.prep.job
    ensures forall x :: x in Pending(Claimed(w, claims)) ==> x in Claimed(w, claims).pel
  {
    PendingIsFront(w, claims);
    var s := Claimed(w, claims);
    hide Claimed;
    assert forall x :: x in Pending(s) ==> x in s.pel;
  }

  lemma OldestOnly(w: World, a: Id)
    requires Inv(w) && IsOldestWaiting(w, a)
    ensures forall b :: IsOldestWaiting(w, b) ==> b == a
  {
    forall b | IsOldestWaiting(w, b) ensures b == a { OldestIsUnique(w, a, b); }
  }

  lemma FrontIsHeld(w: World, claims: nat)
    requires Inv(w) && claims > 0 && Pending(Claimed(w, claims)) != []
    ensures Held(Claimed(w, claims), Pending(Claimed(w, claims))[0])
  {
    PendingIsFront(w, claims);
    var s := Claimed(w, claims);
    hide Claimed;
    assert Pending(s)[0] in Pending(s);
    assert Pending(s)[0] == s.pel[0];
  }

  lemma NothingIsAClaim(w: World, claims: nat, ending: Ending, returning: set<Id> -> seq<Id>)
    ensures Perform(w, Nothing, claims, ending, returning) == w.(prep := Claimed(w, claims))
    ensures claims == 0 ==> w.(prep := Claimed(w, claims)) == w
  {
  }

  lemma CalmHand(w: World, v: World)
    requires Calm(w, v)
    ensures v.hand == None
  {
  }

  lemma IdleChangesNothing(w: World, claims: nat, ending: Ending, returning: set<Id> -> seq<Id>)
    requires Inv(w) && w.hand == None && Idle(w)
    ensures var v := Perform(w, Nothing, claims, ending, returning);
            Inv(v) && Idle(v) && Measure(v) == Measure(w) && Calm(w, v)
  {
    ClaimChangesNothing(w, claims);
    SameRunSides(w, w.(prep := Claimed(w, claims)));
    ClaimKeepsIds(w.prep, claims);
    hide Inv, Measure, Calm, Deliver;
  }

  lemma ClaimKeepsIds(s: Stream, claims: nat)
    ensures Deliver(s, RECLAIM_BATCH_SIZE).ids == s.ids
    ensures Deliver(Deliver(s, RECLAIM_BATCH_SIZE), RECLAIM_BATCH_SIZE).ids == s.ids
  {
  }
}
