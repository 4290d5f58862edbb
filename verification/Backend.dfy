/** The services, repositories and stream operations as the code runs them, statement by statement.
    Each is proved to be the matching step of the lifecycle. */
module Backend {
  import opened Basics
  import opened Statuses
  import opened Lifecycle
  import opened LifecycleTheorems

  datatype ApiError = NotFound | ReferencePrepFailed | QueueFull | NotQueued | NotFailed | PrepNotFailed

  /** `t` is `s` with one entry more, for `job`: it is the last, and nobody was given it yet. */
  ghost predicate Published(s: Stream, t: Stream, job: Id) {
    && t.ids == s.ids + [s.next] && t.job == s.job[s.next := job] && t.next == s.next + 1
    && t.pel == s.pel && t.deliveries == s.deliveries && t.last == s.last
  }

  /** The Postgres tables and the two Redis streams. */
  class Store {
    var songs: map<Id, Song>
    var analyses: map<Id, Analysis>
    var run: Stream
    var prep: Stream
    /** What the worker was given of analyses:run and has not finished with. */
    var hand: Option<nat>
    var nextSeq: nat
    const runMax: nat
    const prepMax: nat

    constructor (runMax: nat, prepMax: nat)
      ensures State() == Start(runMax, prepMax)
    {
      this.runMax, this.prepMax := runMax, prepMax;
      songs, analyses, run, prep, hand, nextSeq := map[], map[], EmptyStream(), EmptyStream(), None, 0;
    }

    function State(): World
      reads this
    {
      World(songs, analyses, run, prep, hand, nextSeq, runMax, prepMax)
    }

    // -------------------------------------------------------------- producer

    method EnqueueRun(job: Id) returns (entry: nat)
      modifies this`run
      ensures entry == old(run).next && run == XAdd(old(run), job)
    {
      entry := run.next;
      run := run.(ids := run.ids + [entry], job := run.job[entry := job], next := entry + 1);
    }

    method EnqueueRunIfUnderLimit(job: Id, maxLen: nat) returns (entry: nat, ok: bool)
      modifies this`run
      ensures ok <==> |old(run).ids| < maxLen
      ensures ok ==> entry == old(run).next && run == XAdd(old(run), job)
      ensures !ok ==> run == old(run)
    {
      entry, ok := 0, false;
      if |run.ids| < maxLen {
        entry := EnqueueRun(job);
        ok := true;
      }
    }

    method EnqueuePrep(job: Id)
      modifies this`prep
      ensures prep == XAdd(old(prep), job)
    {
      prep := prep.(ids := prep.ids + [prep.next], job := prep.job[prep.next := job], next := prep.next + 1);
    }

    // -------------------------------------------------------------- API services

    method Enqueue(a: Id, song: Id, seen: nat) returns (r: Result<Status, ApiError>)
      requires a !in analyses
      modifies this
      ensures State() == EnqueueStep(old(State()), a, song, seen)
      ensures prep == old(prep) && songs == old(songs) && hand == old(hand)
      ensures r.Ok? <==> song in songs && songs[song].prep != PrepFailed
                         && (songs[song].prep == PrepReady ==> seen < runMax && |old(run).ids| < runMax)
      ensures r == Err(NotFound) <==> song !in songs
      ensures r == Err(ReferencePrepFailed) <==> song in songs && songs[song].prep == PrepFailed
      ensures r.Err? ==> analyses == old(analyses) && run == old(run) && r.error != NotFailed
      ensures r.Ok? && songs[song].prep != PrepReady ==>
                && r.value == WaitingForReference && run == old(run) && nextSeq == old(nextSeq) + 1
                && analyses == old(analyses)[a := Analysis(song, WaitingForReference, old(nextSeq), None)]
      ensures r.Ok? && songs[song].prep == PrepReady ==>
                && r.value == Queued && Published(old(run), run, a) && nextSeq == old(nextSeq) + 1
                && analyses == old(analyses)[a := Analysis(song, Queued, old(nextSeq), Some(old(run).next))]
    {
      if song !in songs { return Err(NotFound); }
      if songs[song].prep == PrepFailed { return Err(ReferencePrepFailed); }
      var songReady := songs[song].prep == PrepReady;
      if songReady && seen >= runMax { return Err(QueueFull); }

      analyses := analyses[a := Analysis(song, if songReady then Queued else WaitingForReference, nextSeq, None)];
      nextSeq := nextSeq + 1;
      if !songReady { return Ok(WaitingForReference); }

      var entry, ok := EnqueueRunIfUnderLimit(a, runMax);
      if !ok {
        analyses := analyses - {a};
        assert analyses == old(analyses);
        return Err(QueueFull);
      }
      analyses := analyses[a := analyses[a].(streamId := Some(entry))];
      return Ok(Queued);
    }

    method Retry(a: Id, seen: nat) returns (r: Result<Status, ApiError>)
      modifies this
      ensures State() == RetryStep(old(State()), a, seen)
      ensures r.Err? ==> State() == old(State())
      ensures prep == old(prep) && songs == old(songs) && hand == old(hand)
      ensures r == Err(NotFound) <==> a !in old(analyses) || old(analyses)[a].song !in songs
      ensures r != Err(NotFound) ==>
                var row := old(analyses)[a];
                var preparation := songs[row.song].prep;
                && (r == Err(ReferencePrepFailed) <==> preparation == PrepFailed)
                && (r == Err(QueueFull) <==> preparation == PrepReady && seen >= runMax)
                && (r.Ok? <==> row.status == Failed && preparation != PrepFailed
                               && (preparation == PrepReady ==> seen < runMax))
                && (r.Err? ==> r.error in {ReferencePrepFailed, QueueFull, NotFailed})
      ensures r.Ok? ==>
                var row := old(analyses)[a];
                && nextSeq == old(nextSeq) + 1
                && if songs[row.song].prep != PrepReady then
                     && r.value == WaitingForReference && run == old(run)
                     && analyses == old(analyses)[a := Analysis(row.song, WaitingForReference, old(nextSeq), None)]
                   else
                     && r.value == Queued && Published(old(run), run, a)
                     && analyses == old(analyses)[a := Analysis(row.song, Queued, old(nextSeq), Some(old(run).next))]
    {
      if a !in analyses { return Err(NotFound); }
      var song := analyses[a].song;
      if song !in songs { return Err(NotFound); }
      if songs[song].prep == PrepFailed { return Err(ReferencePrepFailed); }
      if songs[song].prep != PrepReady {
        if analyses[a].status != Failed { return Err(NotFailed); }
        analyses := analyses[a := analyses[a].(status := WaitingForReference, streamId := None, queueSeq := nextSeq)];
        nextSeq := nextSeq + 1;
        return Ok(WaitingForReference);
      }
      if seen >= runMax { return Err(QueueFull); }
      if analyses[a].status != Failed { return Err(NotFailed); }
      analyses := analyses[a := analyses[a].(status := Queued, streamId := None, queueSeq := nextSeq)];
      nextSeq := nextSeq + 1;
      var entry := EnqueueRun(a);
      analyses := analyses[a := analyses[a].(streamId := Some(entry))];
      return Ok(Queued);
    }

    method Cancel(a: Id) returns (r: Result<Status, ApiError>)
      modifies this
      ensures State() == CancelStep(old(State()), a)
      ensures r.Ok? <==> a in old(analyses) && old(analyses)[a].status in {Queued, WaitingForReference}
      ensures r.Err? ==> State() == old(State()) && r.error == if a in analyses then NotQueued else NotFound
      ensures r.Ok? ==>
                var row := old(analyses)[a];
                && r.value == Canceled
                && analyses == old(analyses)[a := Analysis(row.song, Canceled, row.queueSeq, row.streamId)]
                && (row.streamId == None ==> run == old(run))
                && (row.streamId.Some? ==>
                      && run == old(run).(ids := run.ids)
                      && (Increasing(old(run).ids) ==>
                            forall x :: x in run.ids <==> x in old(run).ids && x != row.streamId.value))
    {
      if a !in analyses { return Err(NotFound); }
      if analyses[a].status !in {Queued, WaitingForReference} { return Err(NotQueued); }
      analyses := analyses[a := analyses[a].(status := Canceled)];
      if analyses[a].streamId.Some? {
        if Increasing(run.ids) { WithoutIncreasing(run.ids, analyses[a].streamId.value); }
        run := run.(ids := Without(run.ids, analyses[a].streamId.value));
      }
      return Ok(Canceled);
    }

    method AddSong(song: Id) returns (r: Result<PrepStatus, ApiError>)
      modifies this
      ensures State() == AddSongStep(old(State()), song)
      ensures run == old(run) && analyses == old(analyses) && hand == old(hand) && nextSeq == old(nextSeq)
      ensures r.Ok? <==> song in old(songs) || |old(prep).ids| < prepMax
      ensures r.Err? ==> State() == old(State()) && r.error == QueueFull
      ensures song in old(songs) ==> State() == old(State()) && r == Ok(songs[song].prep)
      ensures r.Ok? && song !in old(songs) ==>
                && r.value == PrepPending && songs == old(songs)[song := Song(PrepPending, false)]
                && Published(old(prep), prep, song)
    {
      if song in songs { return Ok(songs[song].prep); }
      songs := songs[song := Song(PrepPending, false)];
      if |prep.ids| >= prepMax {
        songs := songs - {song};
        assert songs == old(songs);
        return Err(QueueFull);
      }
      EnqueuePrep(song);
      return Ok(PrepPending);
    }

    method RetryPrep(song: Id, seen: nat) returns (r: Result<PrepStatus, ApiError>)
      modifies this
      ensures State() == RetryPrepStep(old(State()), song, seen)
      ensures run == old(run) && analyses == old(analyses) && hand == old(hand) && nextSeq == old(nextSeq)
      ensures r.Ok? <==> seen < prepMax && song in old(songs) && old(songs)[song].prep == PrepFailed
      ensures r == Err(QueueFull) <==> seen >= prepMax
      ensures r == Err(NotFound) <==> seen < prepMax && song !in old(songs)
      ensures r.Err? ==> State() == old(State()) && r.error in {QueueFull, NotFound, PrepNotFailed}
      ensures r.Ok? ==>
                && r.value == PrepPending && songs == old(songs)[song := Song(PrepPending, old(songs)[song].cached)]
                && Published(old(prep), prep, song)
    {
      if seen >= prepMax { return Err(QueueFull); }
      if song !in songs { return Err(NotFound); }
      if songs[song].prep != PrepFailed { return Err(PrepNotFailed); }
      songs := songs[song := songs[song].(prep := PrepPending)];
      EnqueuePrep(song);
      return Ok(PrepPending);
    }

    // -------------------------------------------------------------- worker

    method AckAndRemoveRun(id: nat)
      modifies this`run
      ensures run == AckAndRemove(old(run), id)
    {
      run := run.(pel := Without(run.pel, id));
      run := run.(ids := Without(run.ids, id));
    }

    method AckAndRemovePrep(id: nat)
      modifies this`prep
      ensures prep == AckAndRemove(old(prep), id)
    {
      prep := prep.(pel := Without(prep.pel, id));
      prep := prep.(ids := Without(prep.ids, id));
    }

    /** `AnalysisJobHandler.handle`; `ending` is what the pipeline run came to. A missing row or
        reference raises before anything is written. */
    method HandleAnalysis(a: Id, ending: Ending) returns (terminal: bool)
      modifies this`analyses
      ensures terminal <==> HasReference(old(State()), a) && !ending.Crashed?
      ensures !HasReference(old(State()), a) ==> analyses == old(analyses)
      ensures HasReference(old(State()), a) ==>
                State() == (match ending
                            case Finished => SetStatus(old(State()), a, Done)
                            case Refused => SetStatus(old(State()), a, Failed)
                            case Crashed(marked) =>
                              if marked then SetStatus(old(State()), a, Processing) else old(State()))
    {
      terminal := false;
      if a in analyses && analyses[a].song in songs && songs[analyses[a].song].cached {
        if ending.Crashed? && !ending.marked { return; }
        if ending.Crashed? {
          analyses := analyses[a := analyses[a].(status := Processing)];
          return;
        }
        analyses := analyses[a := analyses[a].(status := if ending == Finished then Done else Failed)];
        terminal := true;
      }
    }

    /** `Consumer.process_entry` on analyses:run, from the fields it was handed: whether the entry still exists
        is not looked at. */
    method ProcessRunEntry(id: nat, ending: Ending) returns (terminal: bool)
      requires hand == Some(id) && id in run.job
      modifies this
      ensures State() == HandleRunStep(old(State()), id, ending)
      ensures terminal <==> HasReference(old(State()), old(run).job[id]) && !ending.Crashed?
    {
      var a := run.job[id];
      hand := None;
      terminal := HandleAnalysis(a, ending);
      if terminal {
        AckAndRemoveRun(id);
      }
    }

    method MoveWaitingRows(song: Id, status: Status)
      modifies this`analyses
      ensures analyses == MoveWaiting(old(State()), song, status)
    {
      analyses := map a | a in analyses ::
        if analyses[a].status == WaitingForReference && analyses[a].song == song then analyses[a].(status := status)
        else analyses[a];
    }

    /** `_wake_ready`: one statement moves the rows, then each is published. */
    method WakeReady(song: Id, order: seq<Id>)
      requires Enumerates(order, WaitingFor(State(), song))
      modifies this`analyses, this`run
      ensures analyses == MoveWaiting(old(State()), song, Queued)
      ensures run == XAddAll(old(run), order)
    {
      MoveWaitingRows(song, Queued);
      var i := 0;
      assert order[..0] == [];
      while i < |order|
        invariant i <= |order|
        invariant run == XAddAll(old(run), order[..i])
        invariant analyses == MoveWaiting(old(State()), song, Queued)
      {
        XAddAllAppend(old(run), order[..i], order[i]);
        assert order[..i + 1] == order[..i] + [order[i]];
        var entry := EnqueueRun(order[i]);
        i := i + 1;
      }
      assert order[..i] == order;
    }

    /** `SongPrepJobHandler.handle`; `order` is the order in which the waking UPDATE returns its rows. */
    method HandleSongPrep(song: Id, ending: Ending, order: seq<Id>) returns (terminal: bool)
      requires song in songs && Enumerates(order, WaitingFor(State(), song))
      modifies this`songs, this`analyses, this`run
      ensures terminal <==> !ending.Crashed?
      ensures State() == (match ending
                          case Finished => PrepReadyStep(old(State()), song, order)
                          case Refused => PrepFailedStep(old(State()), song)
                          case Crashed(marked) =>
                            if marked then SetPrep(old(State()), song, PrepProcessing) else old(State()))
    {
      match ending
      case Finished =>
        songs := songs[song := Song(PrepReady, true)];
        assert WaitingFor(State(), song) == WaitingFor(old(State()), song);
        WakeReady(song, order);
        terminal := true;
      case Refused =>
        songs := songs[song := songs[song].(prep := PrepFailed)];
        MoveWaitingRows(song, Failed);
        terminal := true;
      case Crashed(marked) =>
        if marked { songs := songs[song := songs[song].(prep := PrepProcessing)]; }
        terminal := false;
    }

    /** `Consumer.process_entry` on songs:prep. */
    method ProcessPrepEntry(id: nat, ending: Ending, order: seq<Id>) returns (terminal: bool)
      requires Held(prep, id) && prep.job[id] in songs && Enumerates(order, WaitingFor(State(), prep.job[id]))
      modifies this
      ensures State() == HandlePrepStep(old(State()), id, ending, order)
      ensures terminal <==> !ending.Crashed?
    {
      terminal := HandleSongPrep(prep.job[id], ending, order);
      if terminal {
        AckAndRemovePrep(id);
      }
    }

    /** `Consumer._give_up` on analyses:run. */
    method GiveUpRun(id: nat)
      requires hand == None && id in run.pel && Deliveries(run, id) > MAX_CLAIM_ATTEMPTS
      modifies this
      ensures State() == GiveUpRunStep(old(State()), id)
    {
      if id in run.ids && id in run.job && run.job[id] in analyses {
        var a := run.job[id];
        analyses := analyses[a := analyses[a].(status := Failed)];
      }
      AckAndRemoveRun(id);
    }

    method GiveUpPrep(id: nat)
      requires id in prep.pel && Deliveries(prep, id) > MAX_CLAIM_ATTEMPTS
      modifies this
      ensures State() == GiveUpPrepStep(old(State()), id)
    {
      if id in prep.ids && id in prep.job {
        var song := prep.job[id];
        if song in songs { songs := songs[song := songs[song].(prep := PrepFailed)]; }
        MoveWaitingRows(song, Failed);
      }
      AckAndRemovePrep(id);
    }
  }

  lemma {:induction false} XAddAllAppend(s: Stream, jobs: seq<Id>, job: Id)
    ensures XAddAll(s, jobs + [job]) == XAdd(XAddAll(s, jobs), job)
    decreases |jobs|
  {
    if jobs == [] {
      assert [job][1..] == [];
    } else {
      assert (jobs + [job])[1..] == jobs[1..] + [job];
      XAddAllAppend(XAdd(s, jobs[0]), jobs[1..], job);
    }
  }
}
