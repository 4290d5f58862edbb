/** What a cancel is worth, and which rows are lost: the worker handles the entry in its hand whatever
    happened to the row and the stream since it was delivered. */
module Cancellation {
  import opened Basics
  import opened Statuses
  import opened Lifecycle
  import opened LifecycleTheorems

  // ---------------------------------------------------------------- rows no worker will touch

  /** No entry of the row is on analyses:run or in the worker's hand. */
  predicate OffStream(w: World, a: Id) {
    !HasJob(w.run, a) && !InHand(w, a)
  }

  /** A row out of the worker's reach, in a status no request moves on from. */
  predicate Settled(w: World, a: Id, status: Status) {
    && status in {Canceled, Processing, Done}
    && a in w.analyses && w.analyses[a].status == status && OffStream(w, a)
  }

  predicate IsRequest(action: Action) {
    action.AddSong? || action.Enqueue? || action.Cancel? || action.Retry? || action.RetryPrep?
  }

  lemma SettledUnderXAdd(w: World, v: World, b: Id, a: Id, status: Status)
    requires Inv(w) && Settled(w, a, status) && !HasJob(w.run, b) && a != b
    requires v.run == XAdd(w.run, b) && v.hand == w.hand && a in v.analyses && v.analyses[a] == w.analyses[a]
    ensures Settled(v, a, status)
  {
    InvStreams(w);
    XAddOk(w.run, b);
    if w.hand.Some? { HandIsOld(w); }
    hide HasJob, Inv;
  }

  lemma HandIsOld(w: World)
    requires Inv(w) && w.hand.Some?
    ensures w.hand.value in w.run.job && w.hand.value < w.run.next && w.hand.value in w.run.pel
  {
  }

  lemma SettledUnderRemove(w: World, v: World, id: nat, a: Id, status: Status)
    requires Inv(w) && Settled(w, a, status)
    requires v.run == XDel(w.run, id) || v.run == AckAndRemove(w.run, id)
    requires v.hand == w.hand || v.hand == None
    requires a in v.analyses && v.analyses[a].status == status
    ensures Settled(v, a, status)
  {
    InvStreams(w);
    RemoveOk(w.run, id);
    hide HasJob, Inv;
  }

  lemma SettledStaysRequest(w: World, action: Action, a: Id, status: Status)
    requires Inv(w) && Settled(w, a, status) && IsRequest(action)
    ensures Settled(Step(w, action), a, status)
  {
    hide XAdd, XDel, Inv;
    var v := Step(w, action);
    match action
    case Enqueue(b, song, seen) =>
      if v.run != w.run {
        NotOnStream(w, b);
        SettledUnderXAdd(w, v, b, a, status);
      }
    case Retry(b, seen) =>
      if v.run != w.run {
        NotOnStream(w, b);
        SettledUnderXAdd(w, v, b, a, status);
      }
    case Cancel(b) =>
      if v.run != w.run { SettledUnderRemove(w, v, w.analyses[b].streamId.value, a, status); }
    case AddSong(song) =>
    case RetryPrep(song, seen) =>
  }

  /** A row that does not exist, or failed, or waits, is on no stream. */
  lemma NotOnStream(w: World, b: Id)
    requires Inv(w) && (b in w.analyses ==> w.analyses[b].status in {Failed, WaitingForReference})
    ensures OffStream(w, b)
  {
    if HasJob(w.run, b) || InHand(w, b) { EntryIsLive(w, b); assert false; }
  }

  lemma SettledStaysPrep(w: World, action: Action, a: Id, status: Status)
    requires Inv(w) && Settled(w, a, status)
    requires action.DeliverPrep? || action.ClaimPrep? || action.HandlePrep? || action.GiveUpPrep?
    ensures Settled(Step(w, action), a, status)
  {
    hide HasJob, XAddAll, AckAndRemove, Enumerates, Inv;
    if action.HandlePrep? && Held(w.prep, action.id) && Enumerates(action.order, WaitingFor(w, w.prep.job[action.id])) {
      SettledAwake(w, w.prep.job[action.id], action.order, a, status);
    }
  }

  lemma SettledAwake(w: World, song: Id, order: seq<Id>, a: Id, status: Status)
    requires Inv(w) && Settled(w, a, status) && Enumerates(order, WaitingFor(w, song))
    ensures Settled(w.(run := XAddAll(w.run, order)), a, status)
  {
    InvStreams(w);
    WaitersAreOff(w, song, order);
    XAddAllOk(w.run, order);
    XAddAllKeeps(w.run, order);
    if w.hand.Some? { HandIsOld(w); }
    hide HasJob, Inv, XAddAll;
  }

  lemma SettledStaysRun(w: World, action: Action, a: Id, status: Status)
    requires Inv(w) && Settled(w, a, status)
    requires action.DeliverRun? || action.ClaimRun? || action.HandleRun? || action.GiveUpRun?
    ensures Settled(Step(w, action), a, status)
  {
    hide Inv, Settled, DeliverRunStep, ClaimRunStep, HandleRunStep, GiveUpRunStep;
    match action
    case DeliverRun => SettledUnderDelivery(w, a, status);
    case ClaimRun(id) => SettledUnderClaim(w, id, a, status);
    case HandleRun(id, ending) => SettledUnderHandling(w, id, ending, a, status);
    case GiveUpRun(id) => SettledUnderGivingUp(w, id, a, status);
  }

  lemma SettledUnderDelivery(w: World, a: Id, status: Status)
    requires Inv(w) && Settled(w, a, status)
    ensures Settled(DeliverRunStep(w), a, status)
  {
    if w.hand == None && Undelivered(w.run) != [] {
      var x := Undelivered(w.run)[0];
      assert x in Undelivered(w.run) && x in w.run.ids;
      DeliveryFacts(w);
      InvStreams(w);
      DeliverOk(w.run, 1);
      hide Inv, StreamOk, Deliver, DeliverRunStep, Undelivered;
    }
  }

  lemma SettledUnderClaim(w: World, id: nat, a: Id, status: Status)
    requires Inv(w) && Settled(w, a, status)
    ensures Settled(ClaimRunStep(w, id), a, status)
  {
    InvStreams(w);
    ClaimOk(w.run, id);
    hide Inv, StreamOk, Claim;
  }

  lemma SettledUnderGivingUp(w: World, id: nat, a: Id, status: Status)
    requires Inv(w) && Settled(w, a, status)
    ensures Settled(GiveUpRunStep(w, id), a, status)
  {
    var v := GiveUpRunStep(w, id);
    if v != w {
      if Held(w.run, id) { assert w.run.job[id] != a; }
      hide HasJob, AckAndRemove, Inv;
      SettledUnderRemove(w, v, id, a, status);
    }
  }

  lemma SettledUnderHandling(w: World, id: nat, ending: Ending, a: Id, status: Status)
    requires Inv(w) && Settled(w, a, status)
    ensures Settled(HandleRunStep(w, id, ending), a, status)
  {
    var v := HandleRunStep(w, id, ending);
    hide HasJob, AckAndRemove, Inv;
    if w.hand == Some(id) && id in w.run.job {
      assert w.run.job[id] != a;
      if v.run != w.run { SettledUnderRemove(w, v, id, a, status); }
    }
  }

  lemma {:induction false} SettledForever(w: World, actions: seq<Action>, a: Id, status: Status)
    requires Inv(w) && Settled(w, a, status)
    ensures Settled(Exec(w, actions), a, status)
    decreases |actions|
  {
    hide Inv, Step, Settled;
    if actions != [] {
      var action := actions[0];
      StepKeeps(w, action);
      if IsRequest(action) {
        SettledStaysRequest(w, action, a, status);
      } else if action.DeliverRun? || action.ClaimRun? || action.HandleRun? || action.GiveUpRun? {
        SettledStaysRun(w, action, a, status);
      } else {
        SettledStaysPrep(w, action, a, status);
      }
      SettledForever(Step(w, action), actions[1..], a, status);
    }
  }

  // ---------------------------------------------------------------- reviving a row that is within reach

  lemma {:induction false} ExecAppend(w: World, xs: seq<Action>, ys: seq<Action>)
    ensures Exec(w, xs + ys) == Exec(Exec(w, xs), ys)
    decreases |xs|
  {
    hide Step;
    if xs == [] {
      assert xs + ys == ys;
    } else {
      assert (xs + ys)[1..] == xs[1..] + ys;
      ExecAppend(Step(w, xs[0]), xs[1..], ys);
    }
  }

  lemma ExecTwo(w: World, a: Action, b: Action)
    ensures Exec(w, [a]) == Step(w, a) && Exec(w, [a, b]) == Step(Step(w, a), b)
  {
    hide Step;
    assert [a][1..] == [] && [a, b][1..] == [b] && [b][1..] == [];
    assert Exec(w, [a, b]) == Exec(Step(w, a), [b]);
  }

  /** The entry in hand is run to done, whatever its row's status and whether or not it still exists. */
  lemma HandFinishes(w: World, x: nat)
    requires Inv(w) && w.hand == Some(x)
    ensures x in w.run.job && w.run.job[x] in w.analyses
    ensures var v := Exec(w, [HandleRun(x, Finished)]);
            w.run.job[x] in v.analyses && v.analyses[w.run.job[x]].status == Done
  {
    InvFacts(w, x);
    ExecTwo(w, HandleRun(x, Finished), HandleRun(x, Finished));
    hide Exec, Inv, AckAndRemove;
  }

  lemma {:induction false} AfterShrinks(ids: seq<nat>, last: nat)
    requires Increasing(ids) && After(ids, last) != []
    ensures After(ids, After(ids, last)[0]) == After(ids, last)[1..]
  {
    var all := After(ids, last);
    if ids[0] > last {
      AfterIncreasing(ids[1..], last);
      AllBeyond(ids[1..], last, ids[0]);
    } else {
      AfterShrinks(ids[1..], last);
      assert all[0] in all && all[0] > last;
    }
  }

  lemma {:induction false} AllBeyond(ids: seq<nat>, last: nat, head: nat)
    requires last < head && forall i :: 0 <= i < |ids| ==> ids[i] > head
    ensures After(ids, last) == ids && After(ids, head) == ids
  {
    if ids != [] { AllBeyond(ids[1..], last, head); }
  }

  /** Only the deliveries changed: same rows, same songs, same entries. */
  predicate SameEntries(w: World, v: World) {
    && v.songs == w.songs && v.analyses == w.analyses && v.run.ids == w.run.ids && v.run.job == w.run.job
  }

  /** Deliveries that each die at once hand out every entry sooner or later. */
  lemma {:induction false} DeliverUpTo(w: World, x: nat) returns (actions: seq<Action>)
    requires Inv(w) && w.hand == None && x in w.run.ids
    ensures var v := Exec(w, actions);
            Inv(v) && v.hand == None && x in v.run.pel && SameEntries(w, v)
    decreases |Undelivered(w.run)|
  {
    actions := [];
    if x !in w.run.pel {
      assert x in Undelivered(w.run) by { InvUndelivered(w, x); }
      var y := Undelivered(w.run)[0];
      var u := Step(Step(w, DeliverRun), HandleRun(y, Crashed(false)));
      DeliverAndDrop(w, y);
      var rest := DeliverUpTo(u, x);
      hide Inv, Step;
      ExecTwo(w, DeliverRun, HandleRun(y, Crashed(false)));
      actions := [DeliverRun, HandleRun(y, Crashed(false))] + rest;
      ExecAppend(w, [DeliverRun, HandleRun(y, Crashed(false))], rest);
    }
  }

  lemma InvUndelivered(w: World, x: nat)
    requires Inv(w) && x in w.run.ids && x !in w.run.pel
    ensures x in Undelivered(w.run)
  {
  }

  lemma DeliverAndDrop(w: World, y: nat)
    requires Inv(w) && w.hand == None && Undelivered(w.run) != [] && y == Undelivered(w.run)[0]
    ensures var u := Step(Step(w, DeliverRun), HandleRun(y, Crashed(false)));
            Inv(u) && u.hand == None && SameEntries(w, u) && |Undelivered(u.run)| < |Undelivered(w.run)|
  {
    hide Inv, StreamOk, After, Deliver, Undelivered, HandleRunStep, DeliverRunStep;
    var v := Step(w, DeliverRun);
    StepKeeps(w, DeliverRun);
    StepKeeps(v, HandleRun(y, Crashed(false)));
    DeliveryFacts(w);
    DropChangesNothing(v, y);
    InvStreams(w);
    OneFewer(w.run);
  }

  lemma DeliveryFacts(w: World)
    requires w.hand == None && Undelivered(w.run) != []
    ensures DeliverRunStep(w) == w.(run := Deliver(w.run, 1), hand := Some(Undelivered(w.run)[0]))
  {
  }

  lemma DropChangesNothing(w: World, y: nat)
    requires Inv(w) && w.hand == Some(y)
    ensures HandleRunStep(w, y, Crashed(false)) == w.(hand := None)
  {
    InvFacts(w, y);
  }

  lemma OneFewer(s: Stream)
    requires StreamOk(s) && Undelivered(s) != []
    ensures var t := Deliver(s, 1);
            t.ids == s.ids && t.job == s.job && |Undelivered(t)| < |Undelivered(s)|
  {
    DeliverOk(s, 1);
    DeliversFirst(s);
    AfterShrinks(s.ids, s.last);
  }

  /** A row within reach can be run to done. */
  lemma ReachableFinishes(w: World, a: Id) returns (actions: seq<Action>)
    requires Inv(w) && !OffStream(w, a)
    ensures var v := Exec(w, actions);
            a in v.analyses && v.analyses[a].status == Done
  {
    if InHand(w, a) {
      actions := [HandleRun(w.hand.value, Finished)];
      HandFinishes(w, w.hand.value);
    } else {
      var x :| x in w.run.ids && x in w.run.job && w.run.job[x] == a;
      var free: seq<Action> := if w.hand.Some? then [HandleRun(w.hand.value, Crashed(false))] else [];
      var u := Exec(w, free);
      HandFrees(w);
      var up := DeliverUpTo(u, x);
      var v := Exec(u, up);
      ClaimFinishes(v, x);
      hide Inv, Exec;
      ExecAppend(w, free, up);
      ExecAppend(w, free + up, [ClaimRun(x), HandleRun(x, Finished)]);
      actions := free + up + [ClaimRun(x), HandleRun(x, Finished)];
    }
  }

  lemma HandFrees(w: World)
    requires Inv(w)
    ensures var u := Exec(w, if w.hand.Some? then [HandleRun(w.hand.value, Crashed(false))] else []);
            Inv(u) && u.hand == None && SameEntries(w, u)
  {
    hide Inv, Step, Exec;
    if w.hand.Some? {
      DropFrees(w, w.hand.value);
      ExecTwo(w, HandleRun(w.hand.value, Crashed(false)), HandleRun(w.hand.value, Crashed(false)));
    } else {
      ExecNone(w);
    }
  }

  lemma DropFrees(w: World, x: nat)
    requires Inv(w) && w.hand == Some(x)
    ensures var u := Step(w, HandleRun(x, Crashed(false)));
            Inv(u) && u.hand == None && SameEntries(w, u)
  {
    hide Inv, HandleRunStep;
    DropChangesNothing(w, x);
    StepKeeps(w, HandleRun(x, Crashed(false)));
  }

  lemma ExecNone(w: World)
    ensures Exec(w, []) == w
  {
  }

  lemma ClaimFinishes(w: World, x: nat)
    requires Inv(w) && w.hand == None && x in w.run.pel && x in w.run.ids && x in w.run.job
    ensures var v := Exec(w, [ClaimRun(x), HandleRun(x, Finished)]);
            w.run.job[x] in v.analyses && v.analyses[w.run.job[x]].status == Done
  {
    var u := Step(w, ClaimRun(x));
    StepKeeps(w, ClaimRun(x));
    HandFinishes(u, x);
    ExecTwo(w, ClaimRun(x), HandleRun(x, Finished));
    ExecTwo(u, HandleRun(x, Finished), HandleRun(x, Finished));
    hide Inv, Exec, HandleRunStep;
  }

  // ---------------------------------------------------------------- canceling

  predicate Stays(w: World, actions: seq<Action>, a: Id, status: Status) {
    var v := Exec(w, actions);
    a in v.analyses && v.analyses[a].status == status
  }

  /** A canceled or processing row keeps its status in every continuation iff no entry of it is on
      analyses:run or in the worker's hand. */
  lemma StaysExactly(w: World, a: Id, status: Status)
    requires Inv(w) && a in w.analyses && w.analyses[a].status == status && status in {Canceled, Processing}
    ensures (forall actions: seq<Action> :: Stays(w, actions, a, status)) <==> OffStream(w, a)
  {
    hide Inv, Exec;
    if OffStream(w, a) {
      forall actions: seq<Action> ensures Stays(w, actions, a, status) {
        SettledForever(w, actions, a, status);
      }
    } else {
      var actions := ReachableFinishes(w, a);
      assert !Stays(w, actions, a, status);
    }
  }

  /** In the caller's terms: a successful cancel is final iff the row was waiting, or its recorded entry was
      not in the worker's hand. It is not final for a row its song woke, which has no recorded id. */
  lemma CancelIsFinal(w: World, a: Id)
    requires Inv(w) && a in w.analyses && w.analyses[a].status in {Queued, WaitingForReference}
    ensures var row := w.analyses[a];
            (forall actions: seq<Action> :: Stays(CancelStep(w, a), actions, a, Canceled))
            <==> row.status == WaitingForReference || (row.streamId.Some? && w.hand != row.streamId)
  {
    CancelKeeps(w, a);
    CancelReach(w, a);
    StaysExactly(CancelStep(w, a), a, Canceled);
    hide Inv, Stays, OffStream;
  }

  lemma CancelReach(w: World, a: Id)
    requires Inv(w) && a in w.analyses && w.analyses[a].status in {Queued, WaitingForReference}
    ensures var row := w.analyses[a];
            OffStream(CancelStep(w, a), a)
            <==> row.status == WaitingForReference || (row.streamId.Some? && w.hand != row.streamId)
  {
    var row := w.analyses[a];
    assert RowOk(w, a);
    InvStreams(w);
    if row.status == WaitingForReference {
      NotOnStream(w, a);
    } else if row.streamId.Some? {
      var x := row.streamId.value;
      RecordFacts(w.run, a, row);
      EntryFacts(w.run, x);
      RemoveOk(w.run, x);
      if InHand(w, a) { HandOfQueued(w, a, x); }
    }
    hide Inv, StreamOk, HasJob, RecordOk;
  }

  lemma HandOfQueued(w: World, a: Id, x: nat)
    requires Inv(w) && InHand(w, a) && x in w.run.ids && x in w.run.job && w.run.job[x] == a
    ensures w.hand == Some(x)
  {
  }

  /** An entry that was not delivered yet is not in hand, so canceling its row is final. */
  lemma UndeliveredCancelIsFinal(w: World, a: Id)
    requires Inv(w) && a in w.analyses && w.analyses[a].status == Queued
    requires w.analyses[a].streamId.Some? && w.analyses[a].streamId.value > w.run.last
    ensures forall actions: seq<Action> :: Stays(CancelStep(w, a), actions, a, Canceled)
  {
    InvStreams(w);
    if w.hand.Some? { HandIsOld(w); }
    CancelIsFinal(w, a);
  }

  /** A row woken by its song has no stream id, so canceling it is never final. */
  lemma WokenIsNotFinal(w: World, id: nat, order: seq<Id>, a: Id)
    requires Inv(w) && Held(w.prep, id) && a in WaitingFor(w, w.prep.job[id])
    requires Enumerates(order, WaitingFor(w, w.prep.job[id]))
    ensures var v := HandlePrepStep(w, id, Finished, order);
            && a in v.analyses && v.analyses[a].status == Queued && v.analyses[a].streamId == None && Inv(v)
            && !(forall actions: seq<Action> :: Stays(CancelStep(v, a), actions, a, Canceled))
  {
    hide Stays, AckAndRemove, XAddAll, Enumerates, Inv;
    var v := HandlePrepStep(w, id, Finished, order);
    HandlePrepKeeps(w, id, Finished, order);
    WaitingFacts(w, id, a);
    CancelIsFinal(v, a);
  }

  lemma WaitingFacts(w: World, id: nat, a: Id)
    requires Inv(w) && Held(w.prep, id) && a in WaitingFor(w, w.prep.job[id])
    ensures w.prep.job[id] in w.songs && w.analyses[a].streamId == None
  {
    PrepEntryFacts(w, id);
    assert RowOk(w, a);
  }

  // ---------------------------------------------------------------- stranded rows

  /** A stranded row is processing for good: no request accepts it and no worker ever sees it again. */
  lemma StrandedForever(w: World, actions: seq<Action>, a: Id)
    requires Inv(w) && Stranded(w, a)
    ensures Stranded(Exec(w, actions), a)
  {
    StrandedIsOff(w, a);
    SettledForever(w, actions, a, Processing);
    hide Inv, Exec;
  }

  lemma StrandedIsOff(w: World, a: Id)
    requires Inv(w) && Stranded(w, a)
    ensures Settled(w, a, Processing)
  {
  }

  /** The one step that strands a row: the worker dies after marking the row of an entry that was deleted
      while it had it in hand. */
  predicate Strands(w: World, action: Action) {
    action.HandleRun? && action.ending == Crashed(true) && w.hand == Some(action.id) && action.id !in w.run.ids
  }

  lemma StrandsExactly(w: World, action: Action, a: Id)
    requires Inv(w)
    ensures Stranded(Step(w, action), a)
            <==> Stranded(w, a) || (Strands(w, action) && action.id in w.run.job && w.run.job[action.id] == a)
  {
    if Stranded(w, a) {
      StrandedForever(w, [action], a);
      ExecTwo(w, action, action);
    } else if Strands(w, action) && action.id in w.run.job && w.run.job[action.id] == a {
      StrandsItsRow(w, action);
    } else if Stranded(Step(w, action), a) {
      OnlyThatStrands(w, action, a);
      assert false;
    }
  }

  lemma StrandsItsRow(w: World, action: Action)
    requires Inv(w) && Strands(w, action)
    ensures action.id in w.run.job && Stranded(Step(w, action), w.run.job[action.id])
  {
    InvFacts(w, action.id);
  }

  /** Any other step that makes or keeps a row processing leaves it an entry. */
  lemma OnlyThatStrands(w: World, action: Action, a: Id)
    requires Inv(w) && !Stranded(w, a) && Stranded(Step(w, action), a)
    ensures Strands(w, action) && action.id in w.run.job && w.run.job[action.id] == a
  {
    var v := Step(w, action);
    StepKeeps(w, action);
    StrandedIsOff(v, a);
    if a !in w.analyses {
      NewIsNotProcessing(w, action, a);
    } else {
      StatusMachine(w, action, a);
      if w.analyses[a].status == Processing {
        ProcessingKeepsEntry(w, action, a);
      } else {
        MarksExactly(w, action, a);
      }
    }
  }

  /** A processing row with an entry keeps it as long as it stays processing. */
  lemma ProcessingKeepsEntry(w: World, action: Action, a: Id)
    requires Inv(w) && a in w.analyses && w.analyses[a].status == Processing && HasJob(w.run, a)
    requires a in Step(w, action).analyses && Step(w, action).analyses[a].status == Processing
    ensures HasJob(Step(w, action).run, a)
  {
    var x :| x in w.run.ids && x in w.run.job && w.run.job[x] == a;
    if action.Enqueue? || action.Retry? {
      RequestKeepsEntry(w, action, x);
    } else if action.HandleRun? || action.GiveUpRun? || action.Cancel? {
      RemovalKeepsEntry(w, action, a);
    } else {
      DeliveryKeepsEntry(w, action, a);
    }
    hide Inv, Step;
  }

  lemma CancelKeepsEntry(w: World, b: Id, a: Id)
    requires Inv(w) && a in w.analyses && w.analyses[a].status == Processing && HasJob(w.run, a)
    ensures HasJob(CancelStep(w, b).run, a)
  {
    InvStreams(w);
    if b in w.analyses && w.analyses[b].status in {Queued, WaitingForReference} && w.analyses[b].streamId.Some? {
      assert RowOk(w, b);
      RecordFacts(w.run, b, w.analyses[b]);
      OthersRemoved(w.run, w.analyses[b].streamId.value, a);
    }
    hide Inv, StreamOk, HasJob, RecordOk, XDel;
  }

  lemma RemovalKeepsEntry(w: World, action: Action, a: Id)
    requires Inv(w) && a in w.analyses && w.analyses[a].status == Processing && HasJob(w.run, a)
    requires a in Step(w, action).analyses && Step(w, action).analyses[a].status == Processing
    requires action.HandleRun? || action.GiveUpRun? || action.Cancel?
    ensures HasJob(Step(w, action).run, a)
  {
    hide Inv, HasJob, CancelStep, HandleRunStep, GiveUpRunStep;
    match action
    case Cancel(b) => CancelKeepsEntry(w, b, a);
    case HandleRun(id, ending) => HandlingKeepsEntry(w, id, ending, a);
    case GiveUpRun(id) => GivingUpKeepsEntry(w, id, a);
  }

  lemma HandlingKeepsEntry(w: World, id: nat, ending: Ending, a: Id)
    requires Inv(w) && a in w.analyses && HasJob(w.run, a)
    requires a in HandleRunStep(w, id, ending).analyses && HandleRunStep(w, id, ending).analyses[a].status == Processing
    ensures HasJob(HandleRunStep(w, id, ending).run, a)
  {
    InvStreams(w);
    if !(id in w.run.ids && id in w.run.job && w.run.job[id] == a) { OthersRemoved(w.run, id, a); }
    hide Inv, StreamOk, AckAndRemove, HasJob;
  }

  lemma GivingUpKeepsEntry(w: World, id: nat, a: Id)
    requires Inv(w) && a in w.analyses && HasJob(w.run, a)
    requires a in GiveUpRunStep(w, id).analyses && GiveUpRunStep(w, id).analyses[a].status == Processing
    ensures HasJob(GiveUpRunStep(w, id).run, a)
  {
    InvStreams(w);
    if !(id in w.run.ids && id in w.run.job && w.run.job[id] == a) { OthersRemoved(w.run, id, a); }
    hide Inv, StreamOk, AckAndRemove, HasJob;
  }

  lemma DeliveryKeepsEntry(w: World, action: Action, a: Id)
    requires Inv(w) && a in w.analyses && HasJob(w.run, a)
    requires !(action.HandleRun? || action.GiveUpRun? || action.Cancel? || action.Enqueue? || action.Retry?)
    ensures HasJob(Step(w, action).run, a)
  {
    InvStreams(w);
    DeliverOk(w.run, 1);
    if action.ClaimRun? { ClaimOk(w.run, action.id); }
    hide Inv, StreamOk, Deliver, Claim, HandlePrepStep;
    if action.HandlePrep? { WakingKeepsEntry(w, action.id, action.ending, action.order, a); }
  }

  lemma WakingKeepsEntry(w: World, id: nat, ending: Ending, order: seq<Id>, a: Id)
    requires Inv(w) && HasJob(w.run, a)
    ensures HasJob(HandlePrepStep(w, id, ending, order).run, a)
  {
    if Held(w.prep, id) && Enumerates(order, WaitingFor(w, w.prep.job[id])) {
      InvRun(w);
      InvStreams(w);
      WaitersAreOff(w, w.prep.job[id], order);
      XAddAllOk(w.run, order);
    }
    hide Inv, RunOk, StreamOk, AckAndRemove, XAddAll, Enumerates;
  }

  lemma InvRun(w: World)
    requires Inv(w)
    ensures RunOk(w)
  {
  }

  lemma RequestKeepsEntry(w: World, action: Action, x: nat)
    requires Inv(w) && (action.Enqueue? || action.Retry?) && x in w.run.ids && x in w.run.job
    ensures var v := Step(w, action);
            x in v.run.ids && x in v.run.job && v.run.job[x] == w.run.job[x]
  {
    EntryFactsIn(w, x);
    hide Inv;
  }

  lemma EntryFactsIn(w: World, x: nat)
    requires Inv(w) && x in w.run.ids
    ensures x < w.run.next && x in w.run.job && HasJob(w.run, w.run.job[x])
  {
  }

  /** Only dying after the mark makes a row processing, and it leaves the entry where it was. */
  lemma MarksExactly(w: World, action: Action, a: Id)
    requires Inv(w) && a in w.analyses && w.analyses[a].status != Processing && Stranded(Step(w, action), a)
    requires action.HandleRun? && action.ending.Crashed? && action.id in w.run.job && w.run.job[action.id] == a
    ensures Strands(w, action)
  {
    hide Inv;
  }

  lemma NewIsNotProcessing(w: World, action: Action, a: Id)
    requires a !in w.analyses
    ensures a in Step(w, action).analyses ==> Step(w, action).analyses[a].status != Processing
  {
    hide XAdd, XAddAll, AckAndRemove, Deliver, Claim, Enumerates;
  }

  /** None of the actions strands a row. */
  predicate NeverStrands(w: World, actions: seq<Action>)
    decreases |actions|
  {
    actions == [] || (!Strands(w, actions[0]) && NeverStrands(Step(w, actions[0]), actions[1..]))
  }

  lemma {:induction false} StrandedAfterExactly(w: World, actions: seq<Action>)
    requires Inv(w) && forall a :: !Stranded(w, a)
    ensures (forall a :: !Stranded(Exec(w, actions), a)) <==> NeverStrands(w, actions)
    decreases |actions|
  {
    if actions != [] {
      var action := actions[0];
      var v := Step(w, action);
      StepKeeps(w, action);
      hide Inv, Step, Strands, Stranded;
      assert Exec(w, actions) == Exec(v, actions[1..]);
      if Strands(w, action) {
        StrandsItsRow(w, action);
        StrandedForever(v, actions[1..], w.run.job[action.id]);
        assert Stranded(Exec(w, actions), w.run.job[action.id]);
        assert !NeverStrands(w, actions);
      } else {
        forall a ensures !Stranded(v, a) { StrandsExactly(w, action, a); }
        StrandedAfterExactly(v, actions[1..]);
      }
    }
  }

  /** Over every run: each queued or processing analysis still has an entry on analyses:run iff the worker
      never died after marking a row whose entry had been deleted while it had it in hand. */
  lemma EveryoneHasAnEntryExactly(runMax: nat, prepMax: nat, actions: seq<Action>)
    ensures var w := Exec(Start(runMax, prepMax), actions);
            (forall a :: a in w.analyses && w.analyses[a].status in {Queued, Processing} ==> HasJob(w.run, a))
            <==> NeverStrands(Start(runMax, prepMax), actions)
  {
    var w := Exec(Start(runMax, prepMax), actions);
    StartOk(runMax, prepMax);
    InvAlways(runMax, prepMax, actions);
    StrandedAfterExactly(Start(runMax, prepMax), actions);
    forall a | a in w.analyses && w.analyses[a].status == Queued ensures HasJob(w.run, a) {
      assert RowOk(w, a);
    }
    hide Inv, Exec, NeverStrands, HasJob;
    if forall a :: !Stranded(w, a) {
      forall a | a in w.analyses && w.analyses[a].status == Processing ensures HasJob(w.run, a) {
        assert !Stranded(w, a);
      }
    } else {
      var a :| Stranded(w, a);
    }
  }

  // ---------------------------------------------------------------- concrete runs

  lemma ExecFour(w: World, a: Action, b: Action, c: Action, d: Action)
    ensures Exec(w, [a, b, c, d]) == Step(Step(Step(Step(w, a), b), c), d)
  {
    hide Step;
    assert [a, b, c, d] == [a, b] + [c, d];
    ExecAppend(w, [a, b], [c, d]);
    ExecTwo(w, a, b);
    ExecTwo(Step(Step(w, a), b), c, d);
  }

  /** One analysis waits for its song, whose entry is not delivered yet. */
  lemma WaitingWorld(w0: World)
    requires w0 == Start(20, 20)
    ensures var w := Step(Step(w0, AddSong(0)), Enqueue(1, 0, 0));
            && w.prep == Stream([1], map[1 := 0], [], map[], 0, 2)
            && w.analyses == map[1 := Analysis(0, WaitingForReference, 0, None)]
  {
    var w1 := Step(w0, AddSong(0));
    assert w1.songs[0] == Song(PrepPending, false);
    assert w1.prep == Stream([1], map[1 := 0], [], map[], 0, 2);
  }

  lemma OneDelivered(s: Stream)
    requires s.ids == [1] && s.last == 0
    ensures Undelivered(s) == [1]
    ensures Deliver(s, 1) == s.(pel := s.pel + [1], deliveries := s.deliveries + map[1 := 1], last := 1)
  {
    assert s.ids[1..] == [] && s.ids[0] == 1;
    assert After(s.ids[1..], 0) == [];
    assert Undelivered(s) == [1] && Undelivered(s)[..1] == [1];
    assert (map x | x in [1] :: 1) == map[1 := 1];
  }

  lemma DeliveredWorld(w: World)
    requires w.prep == Stream([1], map[1 := 0], [], map[], 0, 2)
    requires w.analyses == map[1 := Analysis(0, WaitingForReference, 0, None)]
    ensures var v := Step(w, DeliverPrep(1));
            Held(v.prep, 1) && v.prep.job[1] == 0 && WaitingFor(v, 0) == {1}
  {
    OneDelivered(w.prep);
    hide Deliver;
    assert WaitingFor(w, 0) == {1};
    assert WaitingFor(Step(w, DeliverPrep(1)), 0) == WaitingFor(w, 0);
  }

  /** A woken row concretely: after these steps a cancel succeeds and is not final. */
  lemma CanceledCanReturn()
    ensures var w := Exec(Start(20, 20), [AddSong(0), Enqueue(1, 0, 0), DeliverPrep(1), HandlePrep(1, Finished, [1])]);
            && 1 in w.analyses && w.analyses[1].status == Queued && w.analyses[1].streamId == None
            && !(forall actions: seq<Action> :: Stays(CancelStep(w, 1), actions, 1, Canceled))
  {
    hide Inv, Exec, Stays, Held, WaitingFor, HandlePrepStep, AddSongStep, EnqueueStep, Deliver, CancelStep;
    var w0 := Start(20, 20);
    ExecFour(w0, AddSong(0), Enqueue(1, 0, 0), DeliverPrep(1), HandlePrep(1, Finished, [1]));
    StartOk(20, 20);
    StepKeeps(w0, AddSong(0));
    StepKeeps(Step(w0, AddSong(0)), Enqueue(1, 0, 0));
    var w2 := Step(Step(w0, AddSong(0)), Enqueue(1, 0, 0));
    StepKeeps(w2, DeliverPrep(1));
    WaitingWorld(w0);
    DeliveredWorld(w2);
    assert Enumerates([1], {1});
    WokenIsNotFinal(Step(w2, DeliverPrep(1)), 1, [1], 1);
  }

  lemma CancelOfHand(w: World, a: Id, x: nat)
    requires Inv(w) && w.hand == Some(x) && a in w.analyses
    requires w.analyses[a].status == Queued && w.analyses[a].streamId == Some(x)
    ensures var v := CancelStep(w, a);
            && v.hand == Some(x) && x !in v.run.ids && x in v.run.job && v.run.job[x] == a
            && a in v.analyses && v.analyses[a].status == Canceled && HasReference(v, a)
  {
    assert RowOk(w, a);
    RecordFacts(w.run, a, w.analyses[a]);
    InvFacts(w, x);
    InvStreams(w);
    WithoutIncreasing(w.run.ids, x);
    hide Inv, StreamOk, RecordOk, HasJob;
  }

  /** A row whose recorded entry the worker has in hand: a cancel succeeds and deletes the entry, and yet the
      row ends done, or, if the worker dies after marking it, processing for good. */
  lemma CanceledInHand(w: World, a: Id, x: nat)
    requires Inv(w) && w.hand == Some(x) && a in w.analyses
    requires w.analyses[a].status == Queued && w.analyses[a].streamId == Some(x)
    ensures var v := CancelStep(w, a);
            && a in v.analyses && v.analyses[a].status == Canceled && x !in v.run.ids
            && (var t := HandleRunStep(v, x, Finished); a in t.analyses && t.analyses[a].status == Done)
            && (var t := HandleRunStep(v, x, Crashed(true)); Inv(t) && Stranded(t, a))
  {
    hide Inv, AckAndRemove, CancelStep, Stranded;
    CancelOfHand(w, a, x);
    var v := CancelStep(w, a);
    CancelKeeps(w, a);
    StrandsItsRow(v, HandleRun(x, Crashed(true)));
    HandleRunKeeps(v, x, Crashed(true));
  }

  /** The song is prepared with nobody waiting. */
  lemma PreparedWorld(w0: World)
    requires w0 == Start(20, 20)
    ensures var w := Step(Step(Step(w0, AddSong(0)), DeliverPrep(1)), HandlePrep(1, Finished, []));
            && w.songs == map[0 := Song(PrepReady, true)] && w.analyses == map[]
            && w.run == EmptyStream() && w.hand == None && w.runMax == 20 && w.nextSeq == 0
  {
    var w1 := Step(w0, AddSong(0));
    assert w1.prep == Stream([1], map[1 := 0], [], map[], 0, 2);
    OneDelivered(w1.prep);
    hide Deliver;
    var w2 := Step(w1, DeliverPrep(1));
    assert Held(w2.prep, 1) && w2.prep.job[1] == 0;
    assert WaitingFor(w2, 0) == {};
    hide AckAndRemove;
    assert MoveWaiting(w2, 0, Queued) == map[];
  }

  lemma QueuedInHand(w: World)
    requires w.songs == map[0 := Song(PrepReady, true)] && w.analyses == map[]
    requires w.run == EmptyStream() && w.hand == None && w.runMax == 20 && w.nextSeq == 0
    ensures var v := Step(Step(w, Enqueue(1, 0, 0)), DeliverRun);
            && v.analyses == map[1 := Analysis(0, Queued, 0, Some(1))] && v.hand == Some(1)
  {
    var u := Step(w, Enqueue(1, 0, 0));
    assert u.run == Stream([1], map[1 := 1], [], map[], 0, 2);
    OneDelivered(u.run);
    hide Deliver;
  }

  const TO_THE_HAND: seq<Action> :=
    [AddSong(0), DeliverPrep(1), HandlePrep(1, Finished, []), Enqueue(1, 0, 0)] + [DeliverRun]

  /** The stuck row concretely: submit to a ready song, deliver, cancel, and the worker dies after marking
      the row. It is processing, has no entry, and no sequence of actions ever changes that. */
  lemma StuckRowIsReachable(actions: seq<Action>)
    ensures var w := Exec(Start(20, 20), TO_THE_HAND);
            && 1 in w.analyses && w.analyses[1].status == Queued && w.analyses[1].streamId == w.hand == Some(1)
            && !(forall more: seq<Action> :: Stays(CancelStep(w, 1), more, 1, Canceled))
            && Stranded(Exec(HandleRunStep(CancelStep(w, 1), 1, Crashed(true)), actions), 1)
  {
    hide Inv, Exec, Stays, AddSongStep, Deliver, HandlePrepStep, EnqueueStep;
    hide DeliverRunStep, CancelStep, HandleRunStep, Stranded;
    var w0 := Start(20, 20);
    var first := [AddSong(0), DeliverPrep(1), HandlePrep(1, Finished, []), Enqueue(1, 0, 0)];
    ExecFour(w0, AddSong(0), DeliverPrep(1), HandlePrep(1, Finished, []), Enqueue(1, 0, 0));
    ExecAppend(w0, first, [DeliverRun]);
    ExecTwo(Exec(w0, first), DeliverRun, DeliverRun);
    PreparedWorld(w0);
    QueuedInHand(Step(Step(Step(w0, AddSong(0)), DeliverPrep(1)), HandlePrep(1, Finished, [])));
    InvAlways(20, 20, TO_THE_HAND);
    var w := Exec(w0, TO_THE_HAND);
    CancelIsFinal(w, 1);
    CanceledInHand(w, 1, 1);
    StrandedForever(HandleRunStep(CancelStep(w, 1), 1, Crashed(true)), actions, 1);
  }
}
