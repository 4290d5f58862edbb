/** The worker's main loop over both streams, as steps: which job a tick picks, what startup reclaim does, and
    why the queues drain. One worker process owns every pending entry. */
module Scheduling {
  import opened Basics
  import opened Statuses
  import opened Lifecycle
  import opened LifecycleTheorems
  import opened Cancellation

  const RECLAIM_BATCH_SIZE := 100

  datatype Choice = Nothing | RunEntry(id: nat) | PrepEntry(id: nat)

  // ---------------------------------------------------------------- what a tick picks

  ghost predicate IsOldestWaiting(w: World, a: Id) {
    && a in w.analyses && w.analyses[a].status == WaitingForReference
    && forall b :: b in w.analyses && w.analyses[b].status == WaitingForReference ==>
                     w.analyses[a].queueSeq <= w.analyses[b].queueSeq
  }

  /** The first entry of `pending` that still exists and carries `song`. */
  function FirstFor(s: Stream, pending: seq<nat>, song: Id): (r: Option<nat>)
    ensures r.Some? ==> r.value in pending && r.value in s.ids && r.value in s.job && s.job[r.value] == song
    ensures r.None? ==> forall x :: x in pending && x in s.ids && x in s.job ==> s.job[x] != song
  {
    if pending == [] then None
    else if pending[0] in s.ids && pending[0] in s.job && s.job[pending[0]] == song then Some(pending[0])
    else FirstFor(s, pending[1..], song)
  }

  /** songs:prep after `claim_new_entries` ran `claims` times. */
  function Claimed(w: World, claims: nat): Stream {
    if claims == 0 then w.prep
    else if claims == 1 then Deliver(w.prep, RECLAIM_BATCH_SIZE)
    else Deliver(Deliver(w.prep, RECLAIM_BATCH_SIZE), RECLAIM_BATCH_SIZE)
  }

  /** `pending_entries`: the oldest pending entries, at most one batch. */
  function Pending(s: Stream): seq<nat> {
    s.pel[..Min(RECLAIM_BATCH_SIZE, |s.pel|)]
  }

  ghost predicate JumpsQueue(w: World, x: nat) {
    exists a :: IsOldestWaiting(w, a) && FirstFor(Claimed(w, 1), Pending(Claimed(w, 1)), w.analyses[a].song) == Some(x)
  }

  ghost predicate SomeoneWaits(w: World) {
    exists a :: IsOldestWaiting(w, a)
  }

  /** The job one `_tick` processes, and how often it claims new entries of songs:prep. */
  ghost predicate Chooses(w: World, c: Choice, claims: nat) {
    if Undelivered(w.run) != [] then c == RunEntry(Undelivered(w.run)[0]) && claims == 0
    else if exists x :: JumpsQueue(w, x) then c.PrepEntry? && JumpsQueue(w, c.id) && claims == 1
    else
      && claims == (if SomeoneWaits(w) then 2 else 1)
      && var pending := Pending(Claimed(w, claims));
         if pending == [] || pending[0] !in w.prep.ids then c == Nothing else c == PrepEntry(pending[0])
  }

  /** The state after the tick; `returning` orders the rows an UPDATE touched. */
  function Perform(w: World, c: Choice, claims: nat, ending: Ending, returning: set<Id> -> seq<Id>): World {
    match c
    case Nothing => w.(prep := Claimed(w, claims))
    case RunEntry(x) => HandleRunStep(DeliverRunStep(w), x, ending)
    case PrepEntry(x) =>
      HandlePrepStep(w.(prep := Claimed(w, claims)), x, ending,
                     if x in w.prep.job then returning(WaitingFor(w, w.prep.job[x])) else [])
  }

  ghost predicate IsReturning(returning: set<Id> -> seq<Id>) {
    forall rows :: Enumerates(returning(rows), rows)
  }

  // ---------------------------------------------------------------- the pending list is a prefix

  lemma HeadIsLeast(ids: seq<nat>, x: nat)
    requires Increasing(ids) && x in ids
    ensures ids[0] <= x
  {
    var i :| 0 <= i < |ids| && ids[i] == x;
  }

  lemma HeadsAgree(ids: seq<nat>, pel: seq<nat>, last: nat)
    requires Increasing(ids) && Increasing(pel)
    requires forall x :: x in pel <==> x in ids && x <= last
    ensures pel == [] <==> ids == [] || ids[0] > last
    ensures pel != [] ==> pel[0] == ids[0]
  {
    if pel != [] {
      assert pel[0] in pel;
      HeadIsLeast(ids, pel[0]);
    }
    if ids != [] && ids[0] <= last {
      assert ids[0] in pel;
      HeadIsLeast(pel, ids[0]);
    }
  }

  lemma TailsAgree(ids: seq<nat>, pel: seq<nat>, last: nat)
    requires Increasing(ids) && Increasing(pel) && ids != [] && pel != [] && pel[0] == ids[0]
    requires forall x :: x in pel <==> x in ids && x <= last
    ensures Increasing(ids[1..]) && Increasing(pel[1..])
    ensures forall x :: x in pel[1..] <==> x in ids[1..] && x <= last
  {
    assert pel == [ids[0]] + pel[1..] && ids == [ids[0]] + ids[1..];
    assert ids[0] !in pel[1..] && ids[0] !in ids[1..];
    forall x ensures x in pel[1..] <==> x in ids[1..] && x <= last {
      assert x in pel[1..] <==> x in pel && x != ids[0];
      assert x in ids[1..] <==> x in ids && x != ids[0];
    }
  }

  lemma {:induction false} PrefixOf(ids: seq<nat>, pel: seq<nat>, last: nat)
    requires Increasing(ids) && Increasing(pel)
    requires forall x :: x in pel <==> x in ids && x <= last
    ensures pel <= ids && After(ids, last) == ids[|pel|..]
  {
    hide Increasing;
    HeadsAgree(ids, pel, last);
    if pel == [] {
      AllAfter(ids, last);
    } else {
      TailsAgree(ids, pel, last);
      PrefixOf(ids[1..], pel[1..], last);
      assert pel == [ids[0]] + pel[1..] && ids == [ids[0]] + ids[1..];
    }
  }

  lemma {:induction false} AllAfter(ids: seq<nat>, last: nat)
    requires Increasing(ids) && (ids != [] ==> ids[0] > last)
    ensures After(ids, last) == ids
  {
    if ids != [] {
      assert |ids| > 1 ==> ids[1] > ids[0];
      AllAfter(ids[1..], last);
    }
  }

  /** Claiming takes the next entries in stream order. */
  lemma ClaimTakesFront(s: Stream)
    requires StreamOk(s) && forall x :: x in s.pel ==> x in s.ids
    ensures var t := Deliver(s, RECLAIM_BATCH_SIZE);
            && StreamOk(t) && t.ids == s.ids && t.job == s.job && t.next == s.next
            && t.pel == s.ids[..Min(|s.pel| + RECLAIM_BATCH_SIZE, |s.ids|)]
            && (forall x :: x in t.pel ==> x in t.ids)
  {
    forall x ensures x in s.pel <==> x in s.ids && x <= s.last {}
    PrefixOf(s.ids, s.pel, s.last);
    DeliverOk(s, RECLAIM_BATCH_SIZE);
    hide Increasing;
    var rest := s.ids[|s.pel|..];
    var taken := rest[..Min(RECLAIM_BATCH_SIZE, |rest|)];
    assert Deliver(s, RECLAIM_BATCH_SIZE).pel == s.pel + taken;
    assert s.pel == s.ids[..|s.pel|];
    assert s.pel + taken == s.ids[..|s.pel| + |taken|];
  }

  /** After a claim, the pending batch is exactly the front of the stream. */
  lemma PendingIsFront(w: World, claims: nat)
    requires PrepOk(w) && claims > 0
    ensures Pending(Claimed(w, claims)) == w.prep.ids[..Min(RECLAIM_BATCH_SIZE, |w.prep.ids|)]
    ensures Claimed(w, claims).ids == w.prep.ids && Claimed(w, claims).job == w.prep.job
  {
    ClaimTakesFront(w.prep);
    ClaimTakesFront(Deliver(w.prep, RECLAIM_BATCH_SIZE));
  }

  // ---------------------------------------------------------------- priority

  /** A preparation runs only when no analysis is undelivered, and analyses run oldest first. */
  lemma AnalysesGoFirst(w: World, c: Choice, claims: nat)
    requires Inv(w) && Chooses(w, c, claims)
    ensures c.RunEntry? <==> exists x :: x in w.run.ids && x > w.run.last
    ensures c.RunEntry? ==> c.id in w.run.ids && forall x :: x in w.run.ids && x > w.run.last ==> c.id <= x
  {
    var undelivered := Undelivered(w.run);
    AfterIncreasing(w.run.ids, w.run.last);
    if undelivered != [] {
      assert undelivered[0] in undelivered;
      forall x | x in w.run.ids && x > w.run.last ensures undelivered[0] <= x {
        HeadIsLeast(undelivered, x);
      }
    } else {
      assert forall x :: x !in undelivered;
    }
  }

  lemma OldestIsUnique(w: World, a: Id, b: Id)
    requires RowsOk(w) && IsOldestWaiting(w, a) && IsOldestWaiting(w, b)
    ensures a == b
  {
  }

  /** The song of the longest-waiting analysis jumps the line, if its entry is among the first batch of
      songs:prep; otherwise the oldest entry runs. */
  lemma WaitingSongGoesFirst(w: World, c: Choice, claims: nat, a: Id, x: nat)
    requires Inv(w) && Chooses(w, c, claims) && Undelivered(w.run) == []
    requires IsOldestWaiting(w, a) && x in w.prep.ids && x in w.prep.job && w.prep.job[x] == w.analyses[a].song
    ensures c == PrepEntry(if x in w.prep.ids[..Min(RECLAIM_BATCH_SIZE, |w.prep.ids|)] then x else w.prep.ids[0])
  {
    hide HasJob, RunOk, SongsOk, RowOk;
    PendingIsFront(w, 1);
    PendingIsFront(w, 2);
    var s, pending := Claimed(w, 1), Pending(Claimed(w, 1));
    var first := FirstFor(s, pending, w.analyses[a].song);
    forall b | IsOldestWaiting(w, b) ensures b == a { OldestIsUnique(w, a, b); }
    assert w.prep.ids[0] in w.prep.ids;
    EntryFacts(w.prep, x);
    hide Claimed, Pending, FirstFor, StreamOk;
    if first.Some? {
      assert first.value == x;
      assert JumpsQueue(w, x);
    } else {
      assert x !in pending;
    }
  }

  /** With nobody waiting, preparations run in stream order. */
  lemma OtherwiseInStreamOrder(w: World, c: Choice, claims: nat)
    requires Inv(w) && Chooses(w, c, claims) && Undelivered(w.run) == []
    requires forall a :: a in w.analyses ==> w.analyses[a].status != WaitingForReference
    ensures c == if w.prep.ids == [] then Nothing else PrepEntry(w.prep.ids[0])
  {
    hide HasJob, RunOk, SongsOk, RowOk;
    PendingIsFront(w, 1);
    hide Claimed, Pending, FirstFor, StreamOk;
    assert forall a :: !IsOldestWaiting(w, a);
    assert w.prep.ids != [] ==> w.prep.ids[0] in w.prep.ids;
  }

  // ---------------------------------------------------------------- draining

  function WaitingRows(w: World): set<Id> {
    set a | a in w.analyses && w.analyses[a].status == WaitingForReference
  }

  /** Work left: every entry of either stream and every row not yet on one. */
  function Measure(w: World): nat {
    |w.run.ids| + |w.prep.ids| + |WaitingRows(w)|
  }

  /** Delivered, unfinished, and never read again by `read_next`. */
  predicate Behind(w: World, x: nat) {
    x in w.run.ids && x <= w.run.last
  }

  predicate IsOver(status: Status) {
    status in {Done, Failed, Canceled}
  }

  /** No row vanishes and none is canceled by the worker. */
  ghost predicate NoneCanceled(w: World, v: World) {
    forall a :: a in w.analyses ==>
                  a in v.analyses && (v.analyses[a].status == Canceled ==> w.analyses[a].status == Canceled)
  }

  /** The worker's hand is empty, and it lost nothing: it canceled, stranded and left behind no more than
      before. */
  ghost predicate Calm(w: World, v: World) {
    && v.hand == None && NoneCanceled(w, v)
    && (forall x :: Behind(v, x) <==> Behind(w, x))
    && (forall a :: Stranded(v, a) <==> Stranded(w, a))
  }

  lemma CalmChain(u: World, v: World, w: World)
    requires Calm(u, v) && Calm(v, w)
    ensures Calm(u, w)
  {
    hide Behind, Stranded;
  }

  /** No step but a death after the mark strands a row. */
  lemma SameStranded(w: World, action: Action)
    requires Inv(w) && !(action.HandleRun? && action.ending == Crashed(true))
    ensures Inv(Step(w, action)) && forall a :: Stranded(Step(w, action), a) <==> Stranded(w, a)
  {
    StepKeeps(w, action);
    hide Inv, Step, Stranded;
    forall a ensures Stranded(Step(w, action), a) <==> Stranded(w, a) { StrandsExactly(w, action, a); }
  }

  /** Delivering hands out the oldest undelivered entry, which belongs to a live row. */
  lemma DeliveredHead(w: World, x: nat)
    requires Inv(w) && w.hand == None && Undelivered(w.run) != [] && x == Undelivered(w.run)[0]
    ensures var u := DeliverRunStep(w);
            && u.hand == Some(x) && u.run.ids == w.run.ids && u.run.job == w.run.job && u.run.last == x
            && x in u.run.ids && x in u.run.job && x > w.run.last
    ensures forall y :: y in Without(w.run.ids, x) <==> y in w.run.ids && y != x
    ensures forall y :: y in w.run.ids && y > w.run.last ==> x <= y
    ensures |Without(w.run.ids, x)| == |w.run.ids| - 1
    ensures HasReference(w, w.run.job[x]) && w.analyses[w.run.job[x]].status != WaitingForReference
  {
    var all := Undelivered(w.run);
    InvStreams(w);
    AfterIncreasing(w.run.ids, w.run.last);
    assert x in all && x in w.run.ids;
    forall y | y in w.run.ids && y > w.run.last ensures x <= y { HeadIsLeast(all, y); }
    DeliversFirst(w.run);
    DeliverOk(w.run, 1);
    InvFacts(w, x);
    WithoutIncreasing(w.run.ids, x);
    EntryFacts(w.run, x);
    EntryIsLive(w, w.run.job[x]) by { InvRun(w); }
    hide Inv, After, Deliver, StreamOk;
  }

  lemma RunTickDrains(w: World, x: nat, ending: Ending)
    requires Inv(w) && w.hand == None && Undelivered(w.run) != [] && x == Undelivered(w.run)[0] && !ending.Crashed?
    ensures var v := HandleRunStep(DeliverRunStep(w), x, ending);
            && v.hand == None && Measure(v) == Measure(w) - 1 && NoneCanceled(w, v)
            && forall y :: Behind(v, y) <==> Behind(w, y)
  {
    hide Inv, After, Undelivered, Deliver, DeliverRunStep, HandleRunStep, WaitingRows, NoneCanceled;
    DeliveredHead(w, x);
    DeliverChangesNoRow(w);
    HandledHead(DeliverRunStep(w), x, ending);
    SameWaitingRows(w, DeliverRunStep(w));
  }

  lemma SameWaitingRows(w: World, u: World)
    requires u.analyses == w.analyses
    ensures WaitingRows(u) == WaitingRows(w)
    ensures forall v :: NoneCanceled(u, v) ==> NoneCanceled(w, v)
  {
  }

  /** A terminal handler closes its row and removes its entry. */
  lemma HandledHead(u: World, x: nat, ending: Ending)
    requires u.hand == Some(x) && x in u.run.job && HasReference(u, u.run.job[x]) && !ending.Crashed?
    requires u.analyses[u.run.job[x]].status != WaitingForReference
    ensures var v := HandleRunStep(u, x, ending);
            && v.hand == None && v.run == AckAndRemove(u.run, x) && v.prep == u.prep
            && WaitingRows(v) == WaitingRows(u) && NoneCanceled(u, v)
  {
    hide AckAndRemove;
  }

  lemma DeliverChangesNoRow(w: World)
    ensures var u := DeliverRunStep(w);
            u.songs == w.songs && u.analyses == w.analyses && u.prep == w.prep
  {
  }

  lemma {:induction false} EnumerationSize(order: seq<Id>, rows: set<Id>)
    requires Enumerates(order, rows)
    ensures |order| == |rows|
    decreases |order|
  {
    if order == [] {
      assert rows == {};
    } else {
      var a := order[0];
      assert forall b :: b in rows - {a} ==> b in order[1..];
      EnumerationSize(order[1..], rows - {a});
    }
  }

  lemma {:induction false} XAddAllLength(s: Stream, jobs: seq<Id>)
    ensures |XAddAll(s, jobs).ids| == |s.ids| + |jobs| && XAddAll(s, jobs).last == s.last
    decreases |jobs|
  {
    if jobs != [] { XAddAllLength(XAdd(s, jobs[0]), jobs[1..]); }
  }

  lemma MovedLeave(w: World, song: Id, status: Status)
    requires status in {Queued, Failed}
    ensures var v := w.(analyses := MoveWaiting(w, song, status));
            && |WaitingRows(v)| == |WaitingRows(w)| - |WaitingFor(w, song)|
            && NoneCanceled(w, v)
  {
    var v := w.(analyses := MoveWaiting(w, song, status));
    assert WaitingRows(v) == WaitingRows(w) - WaitingFor(w, song);
    assert WaitingFor(w, song) <= WaitingRows(w);
  }

  /** A terminal preparation takes its song's rows off the waiting list. */
  lemma WaitersLeave(w: World, x: nat, ending: Ending, order: seq<Id>)
    requires Inv(w) && Held(w.prep, x) && !ending.Crashed? && w.prep.job[x] in w.songs
    requires Enumerates(order, WaitingFor(w, w.prep.job[x]))
    ensures var v := HandlePrepStep(w, x, ending, order);
            && |WaitingRows(v)| == |WaitingRows(w)| - |WaitingFor(w, w.prep.job[x])|
            && NoneCanceled(w, v)
  {
    hide Inv, AckAndRemove, Enumerates, XAddAll, WaitingFor;
    var song := w.prep.job[x];
    var v := HandlePrepStep(w, x, ending, order);
    MovedLeave(w, song, if ending.Finished? then Queued else Failed);
    assert WaitingRows(v) == WaitingRows(w.(analyses := v.analyses));
  }

  /** Waking publishes each row once, behind everything delivered so far. */
  lemma WakeLeavesNothingBehind(w: World, song: Id, order: seq<Id>)
    requires Inv(w) && Enumerates(order, WaitingFor(w, song))
    ensures var run := XAddAll(w.run, order);
            && |run.ids| == |w.run.ids| + |WaitingFor(w, song)| && run.last == w.run.last
            && (forall x :: x in run.ids && x <= run.last <==> x in w.run.ids && x <= w.run.last)
  {
    InvRun(w);
    InvStreams(w);
    WaitersAreOff(w, song, order);
    EnumerationSize(order, WaitingFor(w, song));
    XAddAllLength(w.run, order);
    XAddAllOk(w.run, order);
    hide HasJob, Inv, RunOk, XAddAll, Enumerates;
  }

  lemma PrepTickDrains(w: World, x: nat, ending: Ending, order: seq<Id>)
    requires Inv(w) && Held(w.prep, x) && !ending.Crashed?
    requires Enumerates(order, WaitingFor(w, w.prep.job[x]))
    ensures var v := HandlePrepStep(w, x, ending, order);
            && v.hand == w.hand && Measure(v) < Measure(w) && NoneCanceled(w, v)
            && forall y :: Behind(v, y) <==> Behind(w, y)
  {
    PrepEntryFacts(w, x);
    WaitersLeave(w, x, ending, order);
    WakeLeavesNothingBehind(w, w.prep.job[x], order);
    hide Inv, WaitingFor, WaitingRows, MoveWaiting, XAddAll, NoneCanceled, Enumerates;
  }

  /** Every tick that finds work, with a terminal handler, leaves less of it, although finishing a
      preparation publishes new analyses; and nothing is lost. */
  lemma TickDrains(w: World, c: Choice, claims: nat, ending: Ending, returning: set<Id> -> seq<Id>)
    requires Inv(w) && w.hand == None && Chooses(w, c, claims) && c != Nothing
    requires !ending.Crashed? && IsReturning(returning)
    ensures var v := Perform(w, c, claims, ending, returning);
            Inv(v) && Measure(v) < Measure(w) && Calm(w, v)
  {
    match c
    case RunEntry(x) => RunTickIsCalm(w, x, ending);
    case PrepEntry(x) => PrepTickIsCalm(w, x, claims, ending, returning);
  }

  lemma RunTickIsCalm(w: World, x: nat, ending: Ending)
    requires Inv(w) && w.hand == None && Undelivered(w.run) != [] && x == Undelivered(w.run)[0] && !ending.Crashed?
    ensures var v := HandleRunStep(DeliverRunStep(w), x, ending);
            Inv(v) && Measure(v) < Measure(w) && Calm(w, v)
  {
    hide Inv, Measure, NoneCanceled, HandleRunStep, DeliverRunStep, Behind, Stranded;
    RunTickDrains(w, x, ending);
    SameStranded(w, DeliverRun);
    SameStranded(Step(w, DeliverRun), HandleRun(x, ending));
  }

  lemma PrepTickIsCalm(w: World, x: nat, claims: nat, ending: Ending, returning: set<Id> -> seq<Id>)
    requires Inv(w) && w.hand == None && Chooses(w, PrepEntry(x), claims)
    requires !ending.Crashed? && IsReturning(returning)
    ensures var v := Perform(w, PrepEntry(x), claims, ending, returning);
            Inv(v) && Measure(v) < Measure(w) && Calm(w, v)
  {
    hide Inv, Measure, HandlePrepStep, Claimed, Enumerates, WaitingFor, NoneCanceled, Behind, Stranded;
    var u := w.(prep := Claimed(w, claims));
    ClaimedIsHeld(w, x, claims);
    ClaimChangesNothing(w, claims);
    hide Chooses;
    SameWaiting(w, u);
    SameRunSides(w, u);
    TerminalPrepIsCalm(u, x, ending, returning(WaitingFor(u, w.prep.job[x])));
    CalmChain(w, u, HandlePrepStep(u, x, ending, returning(WaitingFor(u, w.prep.job[x]))));
  }

  lemma SameWaiting(w: World, u: World)
    requires u.analyses == w.analyses
    ensures forall song :: WaitingFor(u, song) == WaitingFor(w, song)
  {
  }

  /** Changing songs:prep alone is calm. */
  lemma SameRunSides(w: World, u: World)
    requires w.hand == None && u == w.(prep := u.prep)
    ensures Calm(w, u)
  {
  }

  lemma TerminalPrepIsCalm(w: World, x: nat, ending: Ending, order: seq<Id>)
    requires Inv(w) && w.hand == None && Held(w.prep, x) && !ending.Crashed?
    requires Enumerates(order, WaitingFor(w, w.prep.job[x]))
    ensures var v := HandlePrepStep(w, x, ending, order);
            Inv(v) && Measure(v) < Measure(w) && Calm(w, v)
  {
    hide Inv, Measure, HandlePrepStep, Enumerates, WaitingFor, NoneCanceled, Behind, Stranded;
    PrepTickDrains(w, x, ending, order);
    SameStranded(w, HandlePrep(x, ending, order));
  }

  lemma ClaimChangesNothing(w: World, claims: nat)
    requires Inv(w)
    ensures var u := w.(prep := Claimed(w, claims));
            Measure(u) == Measure(w) && Inv(u)
  {
    var u := w.(prep := Deliver(w.prep, RECLAIM_BATCH_SIZE));
    DeliverPrepKeeps(w, RECLAIM_BATCH_SIZE);
    DeliverPrepKeeps(u, RECLAIM_BATCH_SIZE);
    DeliverOk(w.prep, RECLAIM_BATCH_SIZE);
    DeliverOk(u.prep, RECLAIM_BATCH_SIZE);
    hide Deliver, Inv;
    assert WaitingRows(w.(prep := Claimed(w, claims))) == WaitingRows(w);
  }

  lemma ClaimedIsHeld(w: World, x: nat, claims: nat)
    requires Inv(w) && Chooses(w, PrepEntry(x), claims)
    ensures Held(Claimed(w, claims), x) && x in w.prep.job && Claimed(w, claims).job == w.prep.job
  {
    hide HasJob, RunOk, SongsOk, RowOk;
    PendingIsFront(w, claims);
    var s, pending := Claimed(w, claims), Pending(Claimed(w, claims));
    hide Claimed;
    assert forall y :: y in pending ==> y in s.pel;
    assert x in pending && x in w.prep.ids;
  }

  lemma HasMember(s: seq<nat>)
    ensures s == [] || exists x :: x in s
  {
    if s != [] { assert s[0] in s; }
  }

  /** What is left when a tick finds nothing: entries left behind, their rows, and stranded rows. */
  ghost predicate Idle(w: World) {
    && w.prep.ids == [] && (forall x :: x in w.run.ids ==> Behind(w, x))
    && (forall a :: a in w.analyses ==> IsOver(w.analyses[a].status) || Stranded(w, a) || HasJob(w.run, a))
    && (forall s :: s in w.songs ==> w.songs[s].prep in {PrepReady, PrepFailed})
  }

  lemma IdleIsAllThatIsLeft(w: World, claims: nat)
    requires Inv(w) && w.hand == None && Chooses(w, Nothing, claims)
    ensures Idle(w)
  {
    PendingIsFront(w, claims);
    HasMember(w.prep.ids);
    forall x | x in w.run.ids ensures x <= w.run.last {
      assert x > w.run.last ==> x in Undelivered(w.run);
    }
    forall a | a in w.analyses ensures IsOver(w.analyses[a].status) || Stranded(w, a) || HasJob(w.run, a) {
      assert RowOk(w, a);
    }
  }

  /** Everything admitted is over. */
  ghost predicate Drained(w: World) {
    && w.run.ids == [] && w.prep.ids == []
    && (forall a :: a in w.analyses ==> IsOver(w.analyses[a].status))
    && (forall s :: s in w.songs ==> w.songs[s].prep in {PrepReady, PrepFailed})
  }

  /** An idle state is drained iff no entry was left behind and no row is stranded. */
  lemma DrainedExactly(w: World)
    requires Idle(w)
    ensures Drained(w) <==> (forall x :: !Behind(w, x)) && (forall a :: !Stranded(w, a))
  {
    HasMember(w.run.ids);
    if Drained(w) {
      forall a ensures !Stranded(w, a) {}
    }
  }

  // ---------------------------------------------------------------- startup reclaim

  predicate IsClosed(w: World, a: Id) {
    a in w.analyses && w.analyses[a].status in {Done, Failed}
  }

  /** What startup reclaim does with one stuck entry of analyses:run. */
  function ReclaimRun(w: World, id: nat, ending: Ending): World {
    if Deliveries(w.run, id) > MAX_CLAIM_ATTEMPTS then GiveUpRunStep(w, id)
    else HandleRunStep(ClaimRunStep(w, id), id, ending)
  }

  /** One restart of the worker after another, the entry being stuck each time. */
  function ReclaimRounds(w: World, id: nat, endings: seq<Ending>): World
    decreases |endings|
  {
    if endings == [] then w else ReclaimRounds(ReclaimRun(w, id, endings[0]), id, endings[1..])
  }

  /** The entry is gone and its row closed, or it is still held with `n` deliveries. */
  ghost predicate Retrying(w: World, id: nat, a: Id, n: nat) {
    && Inv(w) && w.hand == None
    && ((id !in w.run.ids && IsClosed(w, a))
        || (Held(w.run, id) && w.run.job[id] == a && Deliveries(w.run, id) >= n))
  }

  lemma ReclaimRunKeeps(w: World, id: nat, ending: Ending)
    requires Inv(w) && w.hand == None
    ensures Inv(ReclaimRun(w, id, ending)) && ReclaimRun(w, id, ending).hand == None
    ensures ending != Crashed(true) ==> forall a :: Stranded(ReclaimRun(w, id, ending), a) <==> Stranded(w, a)
  {
    hide Inv, GiveUpRunStep, HandleRunStep, ClaimRunStep, Stranded, Deliveries;
    HandEmpties(w, id, ending);
    SameStranded(w, GiveUpRun(id));
    SameStranded(w, ClaimRun(id));
    HandleRunKeeps(ClaimRunStep(w, id), id, ending);
    if ending != Crashed(true) { SameStranded(Step(w, ClaimRun(id)), HandleRun(id, ending)); }
  }

  lemma HandEmpties(w: World, id: nat, ending: Ending)
    requires Inv(w) && w.hand == None
    ensures GiveUpRunStep(w, id).hand == None && HandleRunStep(ClaimRunStep(w, id), id, ending).hand == None
  {
    ClaimOk(w.run, id);
    if id in w.run.ids { InvFacts(w, id); }
    hide Inv, AckAndRemove, Claim;
  }

  lemma RoundFacts(w: World, id: nat)
    requires Inv(w)
    ensures id !in AckAndRemove(w.run, id).ids && id !in AckAndRemove(Claim(w.run, id), id).ids
    ensures id in w.run.ids ==> id in w.run.job && HasReference(w, w.run.job[id])
  {
    ClaimOk(w.run, id);
    WithoutIncreasing(w.run.ids, id);
    if id in w.run.ids { InvFacts(w, id); }
  }

  lemma RoundStep(w: World, id: nat, a: Id, ending: Ending, n: nat)
    requires Retrying(w, id, a, n)
    ensures Retrying(ReclaimRun(w, id, ending), id, a, n + 1)
    ensures n > MAX_CLAIM_ATTEMPTS ==> id !in ReclaimRun(w, id, ending).run.ids
  {
    hide Inv, ReclaimRun;
    ReclaimRunKeeps(w, id, ending);
    if id !in w.run.ids {
      GoneStays(w, id, a, ending);
    } else if Deliveries(w.run, id) > MAX_CLAIM_ATTEMPTS || !ending.Crashed? {
      RoundCloses(w, id, a, ending);
    } else {
      RoundCounts(w, id, ending);
    }
  }

  lemma RoundCloses(w: World, id: nat, a: Id, ending: Ending)
    requires Inv(w) && w.hand == None && Held(w.run, id) && w.run.job[id] == a
    requires Deliveries(w.run, id) > MAX_CLAIM_ATTEMPTS || !ending.Crashed?
    ensures id !in ReclaimRun(w, id, ending).run.ids && IsClosed(ReclaimRun(w, id, ending), a)
  {
    RoundFacts(w, id);
    hide Inv, AckAndRemove;
  }

  lemma RoundCounts(w: World, id: nat, ending: Ending)
    requires Inv(w) && w.hand == None && Held(w.run, id)
    requires Deliveries(w.run, id) <= MAX_CLAIM_ATTEMPTS && ending.Crashed?
    ensures var v := ReclaimRun(w, id, ending);
            Held(v.run, id) && v.run.job == w.run.job && Deliveries(v.run, id) == Deliveries(w.run, id) + 1
  {
    RoundFacts(w, id);
    hide Inv;
  }

  lemma GoneStays(w: World, id: nat, a: Id, ending: Ending)
    requires id !in w.run.ids && IsClosed(w, a) && w.hand == None
    ensures var v := ReclaimRun(w, id, ending);
            id !in v.run.ids && IsClosed(v, a)
  {
    WithoutAbsent(w.run.ids, id);
  }

  /** A job that keeps crashing the worker is closed after at most four reclaims of its entry: the
      retries are bounded whatever each attempt does. */
  lemma {:induction false} CrashingJobIsGivenUp(w: World, id: nat, a: Id, endings: seq<Ending>, n: nat)
    requires Retrying(w, id, a, n)
    requires n + |endings| > MAX_CLAIM_ATTEMPTS + 1 && endings != []
    ensures var v := ReclaimRounds(w, id, endings);
            Inv(v) && id !in v.run.ids && IsClosed(v, a)
    decreases |endings|
  {
    hide Inv, ReclaimRun, IsClosed, HasJob;
    RoundStep(w, id, a, endings[0], n);
    var u := ReclaimRun(w, id, endings[0]);
    if endings[1..] == [] {
      assert ReclaimRounds(u, id, endings[1..]) == u;
    } else if id !in u.run.ids {
      GoneStaysGone(u, id, a, endings[1..]);
    } else {
      CrashingJobIsGivenUp(u, id, a, endings[1..], n + 1);
    }
  }

  lemma {:induction false} GoneStaysGone(w: World, id: nat, a: Id, endings: seq<Ending>)
    requires Inv(w) && w.hand == None && id !in w.run.ids && IsClosed(w, a)
    ensures var v := ReclaimRounds(w, id, endings);
            Inv(v) && id !in v.run.ids && IsClosed(v, a)
    decreases |endings|
  {
    if endings != [] {
      hide Inv, ReclaimRun, IsClosed;
      ReclaimRunKeeps(w, id, endings[0]);
      GoneStays(w, id, a, endings[0]);
      GoneStaysGone(ReclaimRun(w, id, endings[0]), id, a, endings[1..]);
    }
  }

  /** Startup reclaim of every entry XPENDING lists, one after the other. */
  function ReclaimAll(w: World, stuck: seq<nat>, endings: nat -> Ending): World {
    if stuck == [] then w
    else
      var id := stuck[|stuck| - 1];
      ReclaimRun(ReclaimAll(w, stuck[..|stuck| - 1], endings), id, endings(id))
  }

  /** Only `id` may have lost its entry, its pending record or its delivery count. */
  ghost predicate TouchesOnly(s: Stream, t: Stream, id: nat) {
    && t.last == s.last
    && (forall x :: x in t.ids ==> x in s.ids)
    && (forall x :: x != id && x in s.ids ==> x in t.ids)
    && (forall x :: x != id ==> Deliveries(t, x) == Deliveries(s, x))
    && (forall x :: x != id && x in s.pel ==> x in t.pel)
  }

  lemma ClosingTouchesOne(s: Stream, id: nat)
    ensures TouchesOnly(s, s, id) && TouchesOnly(s, AckAndRemove(s, id), id) && TouchesOnly(s, Claim(s, id), id)
    ensures TouchesOnly(s, AckAndRemove(Claim(s, id), id), id)
  {
  }

  /** Reclaiming one entry touches no other. */
  lemma ReclaimTouchesOne(w: World, id: nat, ending: Ending)
    requires Inv(w) && w.hand == None
    ensures var v := ReclaimRun(w, id, ending);
            && TouchesOnly(w.run, v.run, id) && NoneCanceled(w, v)
            && (id in w.run.pel && !ending.Crashed? ==> id !in v.run.ids)
  {
    RoundFacts(w, id);
    ClosingTouchesOne(w.run, id);
    hide Inv, TouchesOnly, AckAndRemove, Claim, Deliveries, NoneCanceled;
    ReclaimCancelsNone(w, id, ending);
  }

  lemma ReclaimCancelsNone(w: World, id: nat, ending: Ending)
    ensures NoneCanceled(w, ReclaimRun(w, id, ending))
  {
    hide HandleRunStep, GiveUpRunStep, ClaimRunStep, Deliveries, NoneCanceled;
    GivingUpCancelsNone(w, id);
    HandlingCancelsNone(w, id, ending);
  }

  lemma GivingUpCancelsNone(w: World, id: nat)
    ensures NoneCanceled(w, GiveUpRunStep(w, id))
  {
    hide AckAndRemove, Deliveries;
  }

  lemma HandlingCancelsNone(w: World, id: nat, ending: Ending)
    ensures NoneCanceled(w, HandleRunStep(ClaimRunStep(w, id), id, ending))
  {
    hide AckAndRemove, Claim;
  }

  /** Reclaiming a list touches exactly its entries. */
  ghost predicate ReclaimedOf(w: World, v: World, stuck: seq<nat>, endings: nat -> Ending) {
    && Inv(v) && v.hand == None && v.run.last == w.run.last && NoneCanceled(w, v)
    && (forall x :: x in v.run.ids ==> x in w.run.ids)
    && (forall x :: x !in stuck && x in w.run.ids ==> x in v.run.ids)
    && (forall x :: x !in stuck ==> Deliveries(v.run, x) == Deliveries(w.run, x))
    && (forall x :: x !in stuck && x in w.run.pel ==> x in v.run.pel)
    && (forall x :: x in stuck && x in w.run.pel && !endings(x).Crashed? ==> x !in v.run.ids)
    && ((forall x :: x in stuck ==> endings(x) != Crashed(true)) ==> forall a :: Stranded(v, a) <==> Stranded(w, a))
  }

  lemma ReclaimedNext(w: World, u: World, rest: seq<nat>, id: nat, endings: nat -> Ending)
    requires ReclaimedOf(w, u, rest, endings) && id !in rest
    ensures ReclaimedOf(w, ReclaimRun(u, id, endings(id)), rest + [id], endings)
  {
    ReclaimTouchesOne(u, id, endings(id));
    ReclaimRunKeeps(u, id, endings(id));
    hide Inv, ReclaimRun, Deliveries, Stranded;
    NoneCanceledChain(w, u, ReclaimRun(u, id, endings(id)));
    hide NoneCanceled;
    assert forall x :: x in rest + [id] <==> x in rest || x == id;
  }

  lemma {:induction false} ReclaimAllKeeps(w: World, stuck: seq<nat>, endings: nat -> Ending)
    requires Inv(w) && w.hand == None && Increasing(stuck)
    ensures ReclaimedOf(w, ReclaimAll(w, stuck, endings), stuck, endings)
    decreases |stuck|
  {
    hide Inv, ReclaimRun;
    if stuck != [] {
      var id, rest := stuck[|stuck| - 1], stuck[..|stuck| - 1];
      ReclaimAllKeeps(w, rest, endings);
      assert stuck == rest + [id];
      assert id !in rest;
      hide ReclaimedOf;
      ReclaimedNext(w, ReclaimAll(w, rest, endings), rest, id, endings);
    }
  }

  /** The pending entries that have been idle for long enough, oldest first. */
  function Aged(pel: seq<nat>, aged: nat -> bool): (r: seq<nat>)
    ensures forall x :: x in r <==> x in pel && aged(x)
  {
    if pel == [] then [] else if aged(pel[0]) then [pel[0]] + Aged(pel[1..], aged) else Aged(pel[1..], aged)
  }

  lemma {:induction false} AgedIncreasing(pel: seq<nat>, aged: nat -> bool)
    requires Increasing(pel)
    ensures Increasing(Aged(pel, aged))
  {
    if pel != [] {
      AgedIncreasing(pel[1..], aged);
      var rest := Aged(pel[1..], aged);
      forall x | x in rest ensures pel[0] < x { assert x in pel[1..]; }
      forall i | 0 <= i < |rest| ensures pel[0] < rest[i] { assert rest[i] in rest; }
    }
  }

  /** What one startup reads of the pending list: the oldest entries idle for long enough, at most one batch. */
  function Batch(pel: seq<nat>, aged: nat -> bool): seq<nat> {
    Aged(pel, aged)[..Min(RECLAIM_BATCH_SIZE, |Aged(pel, aged)|)]
  }

  /** A pending entry that still exists and that one startup does not read: not idle for long enough, or behind
      a whole batch of entries that are. */
  predicate Leftover(w: World, aged: nat -> bool, x: nat) {
    && x in w.run.ids && x in w.run.pel
    && (!aged(x) || x in Aged(w.run.pel, aged)[Min(RECLAIM_BATCH_SIZE, |Aged(w.run.pel, aged)|)..])
  }

  lemma CutInTwo(pel: seq<nat>, k: nat)
    requires Increasing(pel) && k <= |pel|
    ensures Increasing(pel[..k])
    ensures forall x :: x in pel <==> x in pel[..k] || x in pel[k..]
    ensures forall x :: x in pel[..k] ==> x !in pel[k..]
  {
    assert pel == pel[..k] + pel[k..];
    forall x | x in pel[..k] ensures x !in pel[k..] {
      var i :| 0 <= i < k && pel[i] == x;
      forall j | 0 <= j < |pel[k..]| ensures pel[k..][j] != x { assert pel[k..][j] == pel[k + j]; }
    }
  }

  lemma PelFacts(w: World)
    requires RunOk(w)
    ensures Increasing(w.run.pel)
    ensures forall x :: x in w.run.ids && x <= w.run.last ==> x in w.run.pel
    ensures forall x :: x in w.run.pel ==> x <= w.run.last
  {
  }

  lemma BatchSplits(w: World, aged: nat -> bool)
    requires RunOk(w)
    ensures Increasing(Batch(w.run.pel, aged))
    ensures forall x :: x in Batch(w.run.pel, aged) ==> x in w.run.pel && !Leftover(w, aged, x)
    ensures forall x :: Behind(w, x) && x !in Batch(w.run.pel, aged) ==> Leftover(w, aged, x)
    ensures forall x :: Leftover(w, aged, x) ==> Behind(w, x) && x !in Batch(w.run.pel, aged)
  {
    PelFacts(w);
    AgedIncreasing(w.run.pel, aged);
    CutInTwo(Aged(w.run.pel, aged), Min(RECLAIM_BATCH_SIZE, |Aged(w.run.pel, aged)|));
    hide RunOk, Increasing;
  }

  /** After a startup reclaim with terminal handlers exactly the leftovers are still behind: one startup
      finishes everything delivered iff every entry that exists was idle for long enough and in its batch. */
  lemma ReclaimLeavesExactly(w: World, aged: nat -> bool, endings: nat -> Ending)
    requires Inv(w) && w.hand == None && forall x :: !endings(x).Crashed?
    ensures var u := ReclaimAll(w, Batch(w.run.pel, aged), endings);
            && Inv(u) && u.hand == None && NoneCanceled(w, u)
            && (forall x :: Behind(u, x) <==> Leftover(w, aged, x))
            && (forall a :: Stranded(u, a) <==> Stranded(w, a))
  {
    hide Inv, RunOk, ReclaimAll, Batch, Leftover, Stranded, NoneCanceled, Deliveries;
    InvRun(w);
    BatchSplits(w, aged);
    ReclaimAllKeeps(w, Batch(w.run.pel, aged), endings);
  }

  /** What startup reclaim does with one stuck entry of songs:prep. */
  function ReclaimPrep(w: World, id: nat, ending: Ending, returning: set<Id> -> seq<Id>): World {
    if Deliveries(w.prep, id) > MAX_CLAIM_ATTEMPTS then GiveUpPrepStep(w, id)
    else
      var u := w.(prep := Claim(w.prep, id));
      HandlePrepStep(u, id, ending, if id in w.prep.job then returning(WaitingFor(u, w.prep.job[id])) else [])
  }

  /** Startup reclaim of every entry of songs:prep that was listed, one after the other. */
  function ReclaimAllPreps(w: World, stuck: seq<nat>, endings: nat -> Ending, returning: set<Id> -> seq<Id>): World {
    if stuck == [] then w
    else
      var id := stuck[|stuck| - 1];
      ReclaimPrep(ReclaimAllPreps(w, stuck[..|stuck| - 1], endings, returning), id, endings(id), returning)
  }

  /** Reclaiming a preparation, however it ends, loses nothing. */
  lemma ReclaimPrepIsCalm(w: World, id: nat, ending: Ending, returning: set<Id> -> seq<Id>)
    requires Inv(w) && w.hand == None && IsReturning(returning)
    ensures var v := ReclaimPrep(w, id, ending, returning);
            Inv(v) && Calm(w, v)
  {
    hide Inv, HandlePrepStep, GiveUpPrepStep, Enumerates, Behind, NoneCanceled, Claim, WaitingFor, Stranded, Deliveries;
    var u := w.(prep := Claim(w.prep, id));
    var order := if id in w.prep.job then returning(WaitingFor(u, w.prep.job[id])) else [];
    GiveUpPrepIsCalm(w, id);
    ClaimPrepKeeps(w, id);
    SameRunSides(w, u);
    HandlePrepIsCalm(u, id, ending, order);
    CalmChain(w, u, HandlePrepStep(u, id, ending, order));
  }

  lemma GiveUpPrepIsCalm(w: World, id: nat)
    requires Inv(w) && w.hand == None
    ensures Inv(GiveUpPrepStep(w, id)) && Calm(w, GiveUpPrepStep(w, id))
  {
    hide Inv, AckAndRemove, Stranded;
    SameStranded(w, GiveUpPrep(id));
  }

  lemma HandlePrepIsCalm(w: World, id: nat, ending: Ending, order: seq<Id>)
    requires Inv(w) && w.hand == None
    ensures Inv(HandlePrepStep(w, id, ending, order)) && Calm(w, HandlePrepStep(w, id, ending, order))
  {
    hide Inv, Stranded, HandlePrepStep;
    SameStranded(w, HandlePrep(id, ending, order));
    HandlePrepBehind(w, id, ending, order);
  }

  lemma HandlePrepBehind(w: World, id: nat, ending: Ending, order: seq<Id>)
    requires Inv(w)
    ensures var v := HandlePrepStep(w, id, ending, order);
            v.hand == w.hand && NoneCanceled(w, v) && forall x :: Behind(v, x) <==> Behind(w, x)
  {
    hide Inv, AckAndRemove, XAddAll;
    if Held(w.prep, id) && Enumerates(order, WaitingFor(w, w.prep.job[id])) {
      WakeLeavesNothingBehind(w, w.prep.job[id], order);
    }
    hide Enumerates;
  }

  lemma NoneCanceledChain(u: World, v: World, w: World)
    requires NoneCanceled(u, v) && NoneCanceled(v, w)
    ensures NoneCanceled(u, w)
  {
  }
}
