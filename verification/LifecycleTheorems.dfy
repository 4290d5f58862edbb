/** What every reachable state of the two-stream lifecycle keeps. */
module LifecycleTheorems {
  import opened Basics
  import opened Statuses
  import opened Lifecycle

  // ---------------------------------------------------------------- streams

  lemma {:induction false} WithoutIncreasing(s: seq<nat>, id: nat)
    requires Increasing(s)
    ensures Increasing(Without(s, id)) && id !in Without(s, id)
  {
    if s != [] {
      if s[0] == id {
        assert forall i :: 0 <= i < |s[1..]| ==> s[1..][i] > s[0];
      } else {
        WithoutIncreasing(s[1..], id);
        var r := Without(s[1..], id);
        forall j | 0 <= j < |r| ensures s[0] < r[j] {
          assert r[j] in s[1..];
        }
      }
    }
  }

  lemma {:induction false} AfterIncreasing(ids: seq<nat>, last: nat)
    requires Increasing(ids)
    ensures Increasing(After(ids, last))
  {
    if ids != [] {
      AfterIncreasing(ids[1..], last);
      var r := After(ids[1..], last);
      forall j | 0 <= j < |r| ensures ids[0] < r[j] {
        assert r[j] in ids[1..];
      }
    }
  }

  lemma XAddOk(s: Stream, job: Id)
    requires StreamOk(s) && !HasJob(s, job)
    ensures StreamOk(XAdd(s, job)) && HasJob(XAdd(s, job), job)
    ensures forall x :: x in XAdd(s, job).ids <==> x in s.ids || x == s.next
    ensures forall x :: x in s.ids ==> XAdd(s, job).job[x] == s.job[x]
    ensures forall j :: HasJob(XAdd(s, job), j) <==> HasJob(s, j) || j == job
  {
    var t := XAdd(s, job);
    forall i | 0 <= i < |s.ids| ensures s.ids[i] < s.next {
      assert s.ids[i] in s.ids;
    }
    assert t.ids[|s.ids|] == s.next;
    assert forall x :: x in t.ids <==> x in s.ids || x == s.next;
    forall j | HasJob(s, j) ensures HasJob(t, j) {
      var x :| x in s.ids && x in s.job && s.job[x] == j;
      assert x in t.ids && t.job[x] == j;
    }
    assert s.next in t.ids && t.job[s.next] == job;
    forall j | HasJob(t, j) && j != job ensures HasJob(s, j) {
      var x :| x in t.ids && x in t.job && t.job[x] == j;
      assert x in s.ids && x in s.job && s.job[x] == j;
    }
    forall j ensures HasJob(t, j) <==> HasJob(s, j) || j == job {
      assert HasJob(s, j) ==> HasJob(t, j);
    }
  }

  lemma XAddAllOk(s: Stream, jobs: seq<Id>)
    requires StreamOk(s)
    requires forall i :: 0 <= i < |jobs| ==> !HasJob(s, jobs[i])
    requires forall i, j :: 0 <= i < j < |jobs| ==> jobs[i] != jobs[j]
    ensures var t := XAddAll(s, jobs);
            && StreamOk(t) && s.next <= t.next
            && (forall x :: x in s.ids ==> x in s.job && x in t.ids && t.job[x] == s.job[x])
            && (forall x :: x in t.ids ==> x in s.ids || (x >= s.next && t.job[x] in jobs))
            && (forall j :: HasJob(t, j) <==> HasJob(s, j) || j in jobs)
    decreases |jobs|
  {
    if jobs != [] {
      XAddOk(s, jobs[0]);
      XAddAllOk(XAdd(s, jobs[0]), jobs[1..]);
      assert forall j :: j in jobs <==> j == jobs[0] || j in jobs[1..];
    }
  }

  lemma RemoveOk(s: Stream, id: nat)
    requires StreamOk(s)
    ensures StreamOk(AckAndRemove(s, id)) && StreamOk(XDel(s, id))
    ensures forall x :: x in AckAndRemove(s, id).ids <==> x in s.ids && x != id
    ensures id in s.ids ==> id in s.job
    ensures forall j :: HasJob(AckAndRemove(s, id), j) <==> HasJob(s, j) && !(id in s.ids && s.job[id] == j)
    ensures forall j :: HasJob(XDel(s, id), j) <==> HasJob(s, j) && !(id in s.ids && s.job[id] == j)
    ensures forall x :: x in AckAndRemove(s, id).pel <==> x in s.pel && x != id
  {
    var t := AckAndRemove(s, id);
    WithoutIncreasing(s.ids, id);
    WithoutIncreasing(s.pel, id);
    forall j | HasJob(s, j) && !(id in s.ids && s.job[id] == j) ensures HasJob(t, j) {
      var x :| x in s.ids && x in s.job && s.job[x] == j;
      assert x in t.ids;
    }
    forall j | HasJob(t, j) ensures HasJob(s, j) && !(id in s.ids && s.job[id] == j) {
      var x :| x in t.ids && x in t.job && t.job[x] == j;
      assert x in s.ids;
    }
    forall j ensures HasJob(XDel(s, id), j) <==> HasJob(t, j) {
      assert t.ids == XDel(s, id).ids && t.job == XDel(s, id).job;
    }
  }

  /** Removing an entry keeps every other job on the stream. */
  lemma OthersRemoved(s: Stream, id: nat, a: Id)
    requires StreamOk(s) && HasJob(s, a) && (id in s.ids && id in s.job ==> s.job[id] != a)
    ensures HasJob(AckAndRemove(s, id), a) && HasJob(XDel(s, id), a)
  {
    RemoveOk(s, id);
    hide HasJob, StreamOk;
  }

  lemma AfterPrefix(ids: seq<nat>, last: nat, k: nat)
    requires Increasing(ids) && k <= |After(ids, last)|
    ensures var t := After(ids, last)[..k];
            k > 0 ==> forall x :: x in ids && last < x <= t[k - 1] ==> x in t
  {
    var all := After(ids, last);
    AfterIncreasing(ids, last);
    if k > 0 {
      forall x | x in ids && last < x <= all[k - 1] ensures x in all[..k] {
        assert x in all;
        var i :| 0 <= i < |all| && all[i] == x;
        assert i < k;
        assert all[..k][i] == x;
      }
    }
  }

  lemma TakenOk(s: Stream, k: nat)
    requires StreamOk(s) && 0 < k <= |Undelivered(s)|
    ensures var taken := Undelivered(s)[..k];
            && Increasing(s.pel + taken)
            && (forall x :: x in taken ==> x in s.ids && s.last < x <= taken[k - 1])
            && (forall x :: x in s.ids && x <= taken[k - 1] ==> x in s.pel + taken)
  {
    var all := Undelivered(s);
    var taken := all[..k];
    AfterIncreasing(s.ids, s.last);
    AfterPrefix(s.ids, s.last, k);
    forall x | x in taken ensures x in s.ids && s.last < x <= taken[k - 1] {
      assert x in all;
    }
    forall i, j | 0 <= i < j < |s.pel + taken| ensures (s.pel + taken)[i] < (s.pel + taken)[j] {
      if i < |s.pel| <= j {
        assert s.pel[i] in s.pel;
        assert taken[j - |s.pel|] in taken;
      }
    }
  }

  lemma DeliverOk(s: Stream, count: nat)
    requires StreamOk(s)
    ensures StreamOk(Deliver(s, count)) && Deliver(s, count).ids == s.ids && Deliver(s, count).job == s.job
    ensures Deliver(s, count).next == s.next
    ensures forall x :: x in Deliver(s, count).pel ==> x in s.pel || x in s.ids
  {
    hide Undelivered;
    var k := Min(count, |Undelivered(s)|);
    if k > 0 {
      TakenOk(s, k);
      var taken := Undelivered(s)[..k];
      assert taken[k - 1] in taken;
    }
  }

  lemma ClaimOk(s: Stream, id: nat)
    requires StreamOk(s)
    ensures StreamOk(Claim(s, id)) && Claim(s, id).ids == s.ids && Claim(s, id).job == s.job
    ensures Claim(s, id).next == s.next
    ensures forall x :: x in Claim(s, id).pel ==> x in s.pel
    ensures forall x :: x in s.pel && x in s.ids ==> x in Claim(s, id).pel
  {
    WithoutIncreasing(s.pel, id);
  }

  // ---------------------------------------------------------------- one row against the stream

  lemma RecordUnderXAdd(s: Stream, job: Id, a: Id, row: Analysis)
    requires StreamOk(s) && !HasJob(s, job) && a != job && RecordOk(s, a, row)
    ensures RecordOk(XAdd(s, job), a, row)
  {
    XAddOk(s, job);
    hide HasJob, StreamOk;
  }

  lemma RecordOfXAdd(s: Stream, a: Id, row: Analysis)
    requires StreamOk(s) && !HasJob(s, a) && row.streamId == Some(s.next)
    ensures RecordOk(XAdd(s, a), a, row)
  {
    XAddOk(s, a);
    assert forall x :: x in s.ids && x in s.job ==> s.job[x] != a;
    hide HasJob, StreamOk;
  }

  lemma RecordUnderXAddAll(s: Stream, jobs: seq<Id>, a: Id, row: Analysis)
    requires StreamOk(s) && (forall i :: 0 <= i < |jobs| ==> !HasJob(s, jobs[i]))
    requires forall i, j :: 0 <= i < j < |jobs| ==> jobs[i] != jobs[j]
    requires a !in jobs && RecordOk(s, a, row)
    ensures RecordOk(XAddAll(s, jobs), a, row)
  {
    XAddAllOk(s, jobs);
    hide HasJob, StreamOk, XAddAll;
  }

  /** Deleting an entry of another row, or none. */
  lemma RecordUnderRemove(s: Stream, id: nat, a: Id, row: Analysis)
    requires StreamOk(s) && RecordOk(s, a, row) && (id in s.ids && id in s.job ==> s.job[id] != a)
    ensures RecordOk(AckAndRemove(s, id), a, row) && RecordOk(XDel(s, id), a, row)
  {
    RemoveOk(s, id);
    hide HasJob, StreamOk;
  }

  /** Deleting any entry, for a row that needs none. */
  lemma RecordAfterRemove(s: Stream, id: nat, a: Id, row: Analysis, status: Status)
    requires StreamOk(s) && RecordOk(s, a, row) && status in {Done, Failed, Canceled}
    ensures RecordOk(AckAndRemove(s, id), a, row.(status := status)) && RecordOk(XDel(s, id), a, row.(status := status))
    ensures RecordOk(s, a, row.(status := status))
  {
    RemoveOk(s, id);
    hide HasJob, StreamOk;
  }

  // ---------------------------------------------------------------- steps keep the invariant

  /** The worker has an entry of the row in hand. */
  predicate InHand(w: World, a: Id) {
    w.hand.Some? && w.hand.value in w.run.job && w.run.job[w.hand.value] == a
  }

  /** Only a queued, processing or canceled row has an entry on analyses:run or in hand. */
  lemma EntryIsLive(w: World, a: Id)
    requires RunOk(w) && (HasJob(w.run, a) || InHand(w, a))
    ensures a in w.analyses && w.analyses[a].status in {Queued, Processing, Canceled}
    ensures w.analyses[a].song in w.songs && w.songs[w.analyses[a].song].prep == PrepReady
  {
  }

  /** A song that is not on songs:prep goes there: the preparation side. */
  lemma PublishPrepKeeps(w: World, song: Id, record: Song, v: World)
    requires PrepOk(w) && SongsOk(w) && !HasJob(w.prep, song) && record.prep == PrepPending
    requires v.songs == w.songs[song := record] && v.prep == XAdd(w.prep, song)
    ensures PrepOk(v) && SongsOk(v)
  {
    XAddOk(w.prep, song);
    hide HasJob, StreamOk;
  }

  /** The other sides, when a song that is not ready and that nobody waits for changes. */
  lemma SongChangeKeepsRows(w: World, song: Id, record: Song, v: World)
    requires RunOk(w) && RowsOk(w) && (song in w.songs ==> w.songs[song].prep == PrepFailed)
    requires v == w.(songs := w.songs[song := record], prep := v.prep)
    ensures RunOk(v) && RowsOk(v)
  {
    hide RecordOk, StreamOk;
    forall b | b in v.analyses ensures RowOk(v, b) { assert RowOk(w, b); }
    forall x | LiveEntry(w, x) ensures LiveEntry(v, x) {}
  }

  lemma NotOnPrep(w: World, song: Id)
    requires PrepOk(w) && (song in w.songs ==> w.songs[song].prep !in {PrepPending, PrepProcessing})
    ensures !HasJob(w.prep, song)
  {
  }

  lemma AddSongKeeps(w: World, song: Id)
    requires Inv(w)
    ensures Inv(AddSongStep(w, song))
  {
    hide RunOk, PrepOk, SongsOk, RowsOk, HasJob;
    var v := AddSongStep(w, song);
    if v != w {
      NotOnPrep(w, song);
      PublishPrepKeeps(w, song, Song(PrepPending, false), v);
      SongChangeKeepsRows(w, song, Song(PrepPending, false), v);
    }
  }

  lemma RetryPrepKeeps(w: World, song: Id, seen: nat)
    requires Inv(w)
    ensures Inv(RetryPrepStep(w, song, seen))
  {
    hide RunOk, PrepOk, SongsOk, RowsOk, HasJob;
    var v := RetryPrepStep(w, song, seen);
    if v != w {
      NotOnPrep(w, song);
      PublishPrepKeeps(w, song, v.songs[song], v);
      SongChangeKeepsRows(w, song, v.songs[song], v);
    }
  }

  lemma EnqueueKeeps(w: World, a: Id, song: Id, seen: nat)
    requires Inv(w)
    ensures Inv(EnqueueStep(w, a, song, seen))
  {
    hide Inv;
    if a !in w.analyses && song in w.songs && w.songs[song].prep != PrepFailed {
      if !IsReady(w, song) {
        WaitingRowKeeps(w, a, song);
      } else if |w.run.ids| < w.runMax {
        QueuedRowKeeps(w, a, song);
      } else {
        SkippedSeqKeeps(w);
      }
    }
  }

  lemma SkippedSeqKeeps(w: World)
    requires Inv(w)
    ensures Inv(w.(nextSeq := w.nextSeq + 1))
  {
    hide RecordOk, StreamOk;
    var v := w.(nextSeq := w.nextSeq + 1);
    forall b | b in v.analyses ensures RowOk(v, b) { assert RowOk(w, b); }
  }

  lemma WaitingRowKeeps(w: World, a: Id, song: Id)
    requires Inv(w) && a !in w.analyses && song in w.songs && w.songs[song].prep in {PrepPending, PrepProcessing}
    ensures Inv(w.(analyses := w.analyses[a := Analysis(song, WaitingForReference, w.nextSeq, None)],
                   nextSeq := w.nextSeq + 1))
  {
    hide RunOk, PrepOk, SongsOk, RowsOk;
    var row := Analysis(song, WaitingForReference, w.nextSeq, None);
    WaitingRowKeepsRun(w, a, row);
    WaitingRowKeepsRows(w, a, row);
    PrepSidesSame(w, w.(analyses := w.analyses[a := row], nextSeq := w.nextSeq + 1));
  }

  /** A row on no stream comes to wait, or comes back to wait: the stream side. */
  lemma WaitingRowKeepsRun(w: World, a: Id, row: Analysis)
    requires RunOk(w) && (a in w.analyses ==> w.analyses[a].status == Failed)
    ensures RunOk(w.(analyses := w.analyses[a := row], nextSeq := w.nextSeq + 1))
  {
    if HasJob(w.run, a) || InHand(w, a) { EntryIsLive(w, a); assert false; }
    hide StreamOk, HasJob;
    var v := w.(analyses := w.analyses[a := row], nextSeq := w.nextSeq + 1);
    forall x | x in v.run.ids ensures LiveEntry(v, x) {
      assert LiveEntry(w, x);
      assert w.run.job[x] != a by { NotItsEntry(w.run, x, a); }
    }
  }

  /** And the row side. */
  lemma WaitingRowKeepsRows(w: World, a: Id, row: Analysis)
    requires RowsOk(w) && row.status == WaitingForReference && row.queueSeq == w.nextSeq && row.streamId == None
    requires row.song in w.songs && w.songs[row.song].prep in {PrepPending, PrepProcessing}
    ensures RowsOk(w.(analyses := w.analyses[a := row], nextSeq := w.nextSeq + 1))
  {
    assert RecordOk(w.run, a, row);
    hide RecordOk;
    var v := w.(analyses := w.analyses[a := row], nextSeq := w.nextSeq + 1);
    forall b | b in v.analyses ensures RowOk(v, b) {
      assert b != a ==> RowOk(w, b);
    }
  }

  /** A row that is on no stream gets an entry: the stream side. */
  lemma PublishKeepsRun(w: World, a: Id, row: Analysis, v: World)
    requires RunOk(w) && !HasJob(w.run, a) && !InHand(w, a)
    requires v.run == XAdd(w.run, a) && v.hand == w.hand && v.songs == w.songs && v.analyses == w.analyses[a := row]
    requires row.status == Queued && IsReady(w, row.song)
    ensures RunOk(v)
  {
    XAddOk(w.run, a);
    hide HasJob, StreamOk;
    forall x | x in v.run.ids ensures LiveEntry(v, x) {
      if x in w.run.ids { assert LiveEntry(w, x); }
    }
  }

  /** And the row side. */
  lemma PublishKeepsRows(w: World, a: Id, row: Analysis, v: World)
    requires StreamOk(w.run) && RowsOk(w) && !HasJob(w.run, a)
    requires v.run == XAdd(w.run, a) && v.songs == w.songs && v.analyses == w.analyses[a := row]
    requires v.nextSeq == w.nextSeq + 1
    requires row.status == Queued && row.streamId == Some(w.run.next)
    requires row.queueSeq == w.nextSeq && row.song in w.songs
    ensures RowsOk(v)
  {
    hide RecordOk, StreamOk, HasJob;
    RecordOfXAdd(w.run, a, row);
    forall b | b in v.analyses ensures RowOk(v, b) {
      if b != a {
        assert RowOk(w, b);
        RecordUnderXAdd(w.run, a, b, w.analyses[b]);
      }
    }
  }

  lemma QueuedRowKeeps(w: World, a: Id, song: Id)
    requires Inv(w) && a !in w.analyses && IsReady(w, song)
    ensures Inv(w.(analyses := w.analyses[a := Analysis(song, Queued, w.nextSeq, Some(w.run.next))],
                   nextSeq := w.nextSeq + 1, run := XAdd(w.run, a)))
  {
    var row := Analysis(song, Queued, w.nextSeq, Some(w.run.next));
    var v := w.(analyses := w.analyses[a := row], nextSeq := w.nextSeq + 1, run := XAdd(w.run, a));
    if HasJob(w.run, a) || InHand(w, a) { EntryIsLive(w, a); assert false; }
    PublishKeepsRun(w, a, row, v);
    PublishKeepsRows(w, a, row, v);
    hide RunOk, RowsOk, HasJob, StreamOk;
  }

  lemma RetryKeeps(w: World, a: Id, seen: nat)
    requires Inv(w)
    ensures Inv(RetryStep(w, a, seen))
  {
    hide StreamOk, HasJob, RecordOk, RowsOk, RunOk;
    if a in w.analyses && w.analyses[a].status == Failed {
      assert w.analyses[a].song in w.songs by { RowFacts(w, a); }
      var v := RetryStep(w, a, seen);
      if !IsReady(w, w.analyses[a].song) {
        if v != w { RetryWaitingKeeps(w, a); }
      } else if v != w {
        if HasJob(w.run, a) || InHand(w, a) { EntryIsLive(w, a); assert false; }
        assert StreamOk(w.run) by { InvStreams(w); }
        var row := v.analyses[a];
        PublishKeepsRun(w, a, row, v);
        PublishKeepsRows(w, a, row, v);
      }
    }
  }

  lemma RowFacts(w: World, a: Id)
    requires RowsOk(w) && a in w.analyses
    ensures w.analyses[a].song in w.songs && RowOk(w, a)
  {
  }

  lemma RetryWaitingKeeps(w: World, a: Id)
    requires Inv(w) && a in w.analyses && w.analyses[a].status == Failed
    requires w.songs[w.analyses[a].song].prep in {PrepPending, PrepProcessing}
    ensures var row := w.analyses[a].(status := WaitingForReference, queueSeq := w.nextSeq, streamId := None);
            Inv(w.(analyses := w.analyses[a := row], nextSeq := w.nextSeq + 1))
  {
    hide RunOk, PrepOk, SongsOk;
    var row := w.analyses[a].(status := WaitingForReference, queueSeq := w.nextSeq, streamId := None);
    RowFacts(w, a);
    WaitingRowKeepsRun(w, a, row);
    WaitingRowKeepsRows(w, a, row);
    hide RowsOk;
    PrepSidesSame(w, w.(analyses := w.analyses[a := row], nextSeq := w.nextSeq + 1));
  }

  lemma NotItsEntry(s: Stream, x: nat, a: Id)
    requires x in s.ids && x in s.job && !HasJob(s, a)
    ensures s.job[x] != a
  {
  }

  /** Canceling deletes the recorded entry and no other; the worker may still have it in hand. */
  lemma CancelKeepsRun(w: World, a: Id)
    requires Inv(w) && a in w.analyses && w.analyses[a].status in {Queued, WaitingForReference}
    ensures RunOk(CancelStep(w, a))
  {
    assert RowOk(w, a);
    if w.hand.Some? { CancelKeepsHand(w, a); }
    CancelKeepsEntries(w, a);
    hide HasJob, StreamOk, PrepOk, SongsOk, RowsOk, HandOk, RecordOk, XDel, LiveEntry;
    if w.analyses[a].streamId.Some? { RemoveOk(w.run, w.analyses[a].streamId.value); }
  }

  lemma CancelKeepsEntries(w: World, a: Id)
    requires RunOk(w) && a in w.analyses
    ensures forall x :: x in CancelStep(w, a).run.ids ==> LiveEntry(CancelStep(w, a), x)
  {
    hide StreamOk, HandOk;
    var v := CancelStep(w, a);
    forall x | x in v.run.ids ensures LiveEntry(v, x) { assert x in w.run.ids && LiveEntry(w, x); }
  }

  lemma CancelKeepsHand(w: World, a: Id)
    requires RunOk(w) && w.hand.Some? && a in w.analyses && RowOk(w, a)
    requires w.analyses[a].status in {Queued, WaitingForReference}
    ensures HandOk(CancelStep(w, a), w.hand.value)
  {
    hide HasJob;
    if w.analyses[a].streamId.Some? {
      RemoveOk(w.run, w.analyses[a].streamId.value);
      hide StreamOk;
    }
  }

  lemma CancelKeeps(w: World, a: Id)
    requires Inv(w)
    ensures Inv(CancelStep(w, a))
  {
    hide HasJob, StreamOk, RunOk, RecordOk;
    if a in w.analyses && w.analyses[a].status in {Queued, WaitingForReference} {
      CancelKeepsRun(w, a);
      assert StreamOk(w.run) by { InvStreams(w); }
      var row := w.analyses[a];
      var v := CancelStep(w, a);
      assert RowOk(w, a);
      forall b | b in v.analyses ensures RowOk(v, b) {
        assert RowOk(w, b);
        if b == a {
          RecordAfterRemove(w.run, if row.streamId.Some? then row.streamId.value else 0, a, row, Canceled);
        } else if row.streamId.Some? {
          assert row.streamId.value in w.run.ids && row.streamId.value in w.run.job ==>
              w.run.job[row.streamId.value] == a
          by { RecordFacts(w.run, a, row); }
          RecordUnderRemove(w.run, row.streamId.value, b, w.analyses[b]);
        }
      }
    }
  }

  lemma RecordFacts(s: Stream, a: Id, row: Analysis)
    requires RecordOk(s, a, row) && row.streamId.Some?
    ensures var x := row.streamId.value;
            && (x in s.ids && x in s.job ==> s.job[x] == a)
            && (forall y :: y in s.ids && y in s.job && s.job[y] == a ==> y == x)
            && (row.status == Queued ==> x in s.ids)
  {
  }

  /** Changing only the pending list, the delivery counts and the hand. */
  lemma RunSidesKeep(w: World, run: Stream, hand: Option<nat>)
    requires Inv(w) && StreamOk(run) && run.ids == w.run.ids && run.job == w.run.job && run.next == w.run.next
    requires hand.Some? ==> hand.value in run.pel && hand.value in run.ids
    ensures Inv(w.(run := run, hand := hand))
  {
    var v := w.(run := run, hand := hand);
    forall b | b in v.analyses ensures RowOk(v, b) {
      assert RowOk(w, b);
      assert HasJob(w.run, b) <==> HasJob(run, b);
    }
    if hand.Some? {
      assert LiveEntry(w, hand.value);
      EntryFacts(run, hand.value);
    }
  }

  lemma PrepSidesKeep(w: World, prep: Stream)
    requires Inv(w) && StreamOk(prep) && prep.ids == w.prep.ids && prep.job == w.prep.job
    requires forall x :: x in prep.pel ==> x in prep.ids
    ensures Inv(w.(prep := prep))
  {
    hide RowOk;
    var v := w.(prep := prep);
    forall b | b in v.analyses ensures RowOk(v, b) {
      assert RowOk(w, b);
      SameRow(w, v, b);
    }
    forall s | s in v.songs && v.songs[s].prep in {PrepPending, PrepProcessing} ensures HasJob(prep, s) {
      assert HasJob(w.prep, s);
    }
  }

  lemma SameRow(w: World, v: World, a: Id)
    requires a in w.analyses && RowOk(w, a) && v.songs == w.songs && v.analyses == w.analyses && v.run == w.run
    ensures RowOk(v, a)
  {
  }

  /** Emptying the hand changes nothing else. */
  lemma LetGoKeeps(w: World)
    requires Inv(w)
    ensures Inv(w.(hand := None))
  {
    hide RecordOk, StreamOk;
    var v := w.(hand := None);
    forall b | b in v.analyses ensures RowOk(v, b) { assert RowOk(w, b); }
  }

  lemma HandleRunKeeps(w: World, id: nat, ending: Ending)
    requires Inv(w)
    ensures Inv(HandleRunStep(w, id, ending))
  {
    LetGoKeeps(w);
    hide HasJob, StreamOk, SetStatus, AckAndRemove, Inv;
    if w.hand == Some(id) && id in w.run.job && HasReference(w, w.run.job[id]) {
      match ending
      case Finished => ClosingKeeps(w, id, Done);
      case Refused => ClosingKeeps(w, id, Failed);
      case Crashed(marked) => if marked { MarkingKeeps(w, id); }
    }
  }

  lemma MarkingKeeps(w: World, id: nat)
    requires Inv(w) && w.hand == Some(id)
    ensures Inv(SetStatus(w.(hand := None), w.run.job[id], Processing))
  {
    hide RunOk, PrepOk, SongsOk, RowsOk;
    InvFacts(w, id);
    var a := w.run.job[id];
    MarkingKeepsRun(w, a);
    MarkingKeepsRows(w, id);
    PrepSidesSame(w, SetStatus(w.(hand := None), a, Processing));
  }

  lemma MarkingKeepsRun(w: World, a: Id)
    requires RunOk(w) && a in w.analyses
    ensures RunOk(SetStatus(w.(hand := None), a, Processing))
  {
    hide StreamOk;
    var v := SetStatus(w.(hand := None), a, Processing);
    forall x | x in v.run.ids ensures LiveEntry(v, x) { assert LiveEntry(w, x); }
  }

  lemma MarkingKeepsRows(w: World, id: nat)
    requires RunOk(w) && RowsOk(w) && w.hand == Some(id)
    ensures RowsOk(SetStatus(w.(hand := None), w.run.job[id], Processing))
  {
    MarkedRecord(w, id);
    var a := w.run.job[id];
    hide RecordOk, RunOk, HasJob;
    var v := SetStatus(w.(hand := None), a, Processing);
    forall b | b in v.analyses ensures RowOk(v, b) { assert RowOk(w, b); }
  }

  /** The marked row has an entry unless it was canceled by its recorded id. */
  lemma MarkedRecord(w: World, id: nat)
    requires RunOk(w) && RowsOk(w) && w.hand == Some(id)
    ensures id in w.run.job && w.run.job[id] in w.analyses
    ensures RecordOk(w.run, w.run.job[id], w.analyses[w.run.job[id]].(status := Processing))
  {
    hide HasJob;
    if id in w.run.ids { EntryFacts(w.run, id); }
    assert RowOk(w, w.run.job[id]);
  }

  /** The entry concerns the row alone: it is the one in hand, or the hand is empty and it exists. */
  predicate Closable(w: World, id: nat) {
    id in w.run.job && (w.hand == Some(id) || (w.hand == None && id in w.run.ids))
  }

  lemma ClosingKeepsRun(w: World, id: nat, status: Status)
    requires Inv(w) && Closable(w, id) && status in {Done, Failed}
    ensures RunOk(SetStatus(w.(hand := None), w.run.job[id], status).(run := AckAndRemove(w.run, id)))
  {
    hide HasJob, StreamOk, PrepOk, SongsOk, RowsOk;
    if id in w.run.ids { EntryFacts(w.run, id); }
    RemoveOk(w.run, id);
  }

  lemma ClosingKeepsRows(w: World, id: nat, status: Status)
    requires StreamOk(w.run) && RowsOk(w) && id in w.run.job && status in {Done, Failed}
    ensures RowsOk(SetStatus(w.(hand := None), w.run.job[id], status).(run := AckAndRemove(w.run, id)))
  {
    hide HasJob, StreamOk, RecordOk, AckAndRemove;
    var a := w.run.job[id];
    var v := SetStatus(w.(hand := None), a, status).(run := AckAndRemove(w.run, id));
    forall b | b in v.analyses ensures RowOk(v, b) {
      assert RowOk(w, b);
      if b == a {
        RecordAfterRemove(w.run, id, a, w.analyses[a], status);
      } else {
        RecordUnderRemove(w.run, id, b, w.analyses[b]);
      }
    }
  }

  /** The preparation side looks at songs and songs:prep only. */
  lemma PrepSidesSame(w: World, v: World)
    requires PrepOk(w) && SongsOk(w) && v.songs == w.songs && v.prep == w.prep
    ensures PrepOk(v) && SongsOk(v)
  {
  }

  lemma ClosingKeeps(w: World, id: nat, status: Status)
    requires Inv(w) && Closable(w, id) && status in {Done, Failed}
    ensures Inv(SetStatus(w.(hand := None), w.run.job[id], status).(run := AckAndRemove(w.run, id)))
  {
    InvStreams(w);
    ClosingKeepsRun(w, id, status);
    hide RunOk, PrepOk, SongsOk, RowsOk, AckAndRemove, StreamOk;
    ClosingKeepsRows(w, id, status);
    PrepSidesSame(w, SetStatus(w.(hand := None), w.run.job[id], status).(run := AckAndRemove(w.run, id)));
  }

  lemma EntryFacts(s: Stream, id: nat)
    requires StreamOk(s) && id in s.ids
    ensures id in s.job && id < s.next && HasJob(s, s.job[id])
    ensures forall x :: x in s.ids && x in s.job && s.job[x] == s.job[id] ==> x == id
  {
  }

  lemma GiveUpRunKeeps(w: World, id: nat)
    requires Inv(w)
    ensures Inv(GiveUpRunStep(w, id))
  {
    hide HasJob, StreamOk, SetStatus;
    if w.hand == None && id in w.run.pel && Deliveries(w.run, id) > MAX_CLAIM_ATTEMPTS {
      assert w.(hand := None) == w;
      if Held(w.run, id) {
        ClosingKeeps(w, id, Failed);
      } else {
        OrphanAckKeeps(w, id);
      }
    }
  }

  /** Acking a pending id whose entry was deleted changes no entry. */
  lemma OrphanAckKeeps(w: World, id: nat)
    requires Inv(w) && !Held(w.run, id) && id in w.run.pel && w.hand == None
    ensures Inv(w.(run := AckAndRemove(w.run, id)))
  {
    assert id !in w.run.ids;
    RemoveOk(w.run, id);
    WithoutAbsent(w.run.ids, id);
    RunSidesKeep(w, AckAndRemove(w.run, id), None);
    assert w.(run := AckAndRemove(w.run, id), hand := None) == w.(run := AckAndRemove(w.run, id));
  }

  lemma {:induction false} WithoutAbsent(s: seq<nat>, id: nat)
    requires id !in s
    ensures Without(s, id) == s
  {
    if s != [] {
      WithoutAbsent(s[1..], id);
    }
  }

  /** The entry of songs:prep being handled: its song is being prepared and no other entry names it. */
  lemma PrepEntryFacts(w: World, id: nat)
    requires PrepOk(w) && id in w.prep.ids
    ensures id in w.prep.job && w.prep.job[id] in w.songs
    ensures w.songs[w.prep.job[id]].prep in {PrepPending, PrepProcessing}
    ensures forall x :: x in w.prep.ids && x in w.prep.job && w.prep.job[x] == w.prep.job[id] ==> x == id
  {
  }

  /** A song whose preparation is over leaves songs:prep: the preparation side. */
  lemma ClosePrepKeeps(w: World, id: nat, record: Song, v: World)
    requires PrepOk(w) && SongsOk(w) && Held(w.prep, id)
    requires record.prep == PrepFailed || (record.prep == PrepReady && record.cached)
    requires v.songs == w.songs[w.prep.job[id] := record] && v.prep == AckAndRemove(w.prep, id)
    ensures PrepOk(v) && SongsOk(v)
  {
    hide PrepOk, SongsOk, AckAndRemove, HasJob;
    ClosePrepKeepsStream(w, id, record, v);
    ClosePrepKeepsSongs(w, id, record, v);
  }

  lemma ClosePrepKeepsStream(w: World, id: nat, record: Song, v: World)
    requires PrepOk(w) && Held(w.prep, id)
    requires v.songs == w.songs[w.prep.job[id] := record] && v.prep == AckAndRemove(w.prep, id)
    ensures PrepOk(v)
  {
    PrepEntryFacts(w, id);
    RemoveOk(w.prep, id);
    WithoutIncreasing(w.prep.ids, id);
    WithoutIncreasing(w.prep.pel, id);
    hide HasJob, StreamOk, AckAndRemove, SongsOk, RowsOk, RunOk;
    Removed(w.prep, id);
    forall x | x in v.prep.ids
      ensures v.prep.job[x] in v.songs && v.songs[v.prep.job[x]].prep in {PrepPending, PrepProcessing}
    {
      assert x in w.prep.ids && w.prep.job[x] != w.prep.job[id];
    }
  }

  lemma Removed(s: Stream, id: nat)
    ensures AckAndRemove(s, id) == s.(ids := Without(s.ids, id), pel := Without(s.pel, id))
  {
  }

  lemma ClosePrepKeepsSongs(w: World, id: nat, record: Song, v: World)
    requires PrepOk(w) && SongsOk(w) && Held(w.prep, id)
    requires record.prep == PrepFailed || (record.prep == PrepReady && record.cached)
    requires v.songs == w.songs[w.prep.job[id] := record] && v.prep == AckAndRemove(w.prep, id)
    ensures SongsOk(v)
  {
    hide HasJob, AckAndRemove;
    assert StreamOk(w.prep) && w.prep.job[id] in w.songs;
    var song := w.prep.job[id];
    forall s | s in v.songs && s != song && v.songs[s].prep in {PrepPending, PrepProcessing}
      ensures HasJob(v.prep, s)
    {
      assert HasJob(w.prep, s);
      OthersRemoved(w.prep, id, s);
    }
  }

  lemma PrepFailedKeepsRows(w: World, song: Id, v: World)
    requires RunOk(w) && RowsOk(w) && song in w.songs && w.songs[song].prep in {PrepPending, PrepProcessing}
    requires v == PrepFailedStep(w, song).(prep := v.prep)
    ensures RunOk(v) && RowsOk(v)
  {
    hide HasJob, StreamOk, RecordOk;
    forall b | b in v.analyses ensures RowOk(v, b) {
      assert RowOk(w, b);
      assert StreamOk(w.run);
      RecordAfterRemove(w.run, 0, b, w.analyses[b], Failed);
    }
    forall x | LiveEntry(w, x) ensures LiveEntry(v, x) {}
  }

  lemma PrepFailedKeeps(w: World, id: nat)
    requires Inv(w) && Held(w.prep, id)
    ensures Inv(PrepFailedStep(w, w.prep.job[id]).(prep := AckAndRemove(w.prep, id)))
  {
    var song := w.prep.job[id];
    PrepEntryFacts(w, id);
    var v := PrepFailedStep(w, song).(prep := AckAndRemove(w.prep, id));
    hide RunOk, PrepOk, SongsOk, RowsOk, AckAndRemove, MoveWaiting;
    ClosePrepKeeps(w, id, v.songs[song], v);
    PrepFailedKeepsRows(w, song, v);
  }

  /** The rows woken by their song are on no stream yet. */
  lemma WaitersAreOff(w: World, song: Id, order: seq<Id>)
    requires RunOk(w) && Enumerates(order, WaitingFor(w, song))
    ensures forall i :: 0 <= i < |order| ==> !HasJob(w.run, order[i]) && !InHand(w, order[i])
  {
    hide HasJob;
    forall i | 0 <= i < |order| ensures !HasJob(w.run, order[i]) && !InHand(w, order[i]) {
      if HasJob(w.run, order[i]) || InHand(w, order[i]) { EntryIsLive(w, order[i]); assert false; }
    }
  }

  /** Waking a song's rows publishes one entry for each of them. */
  lemma WakeKeepsRun(w: World, song: Id, order: seq<Id>)
    requires RunOk(w) && song in w.songs && Enumerates(order, WaitingFor(w, song))
    ensures RunOk(PrepReadyStep(w, song, order))
  {
    WaitersAreOff(w, song, order);
    XAddAllOk(w.run, order);
    hide HasJob, StreamOk, XAddAll;
    var v := PrepReadyStep(w, song, order);
    forall x | x in v.run.ids ensures LiveEntry(v, x) {
      if x in w.run.ids { assert LiveEntry(w, x); } else { assert v.run.job[x] in WaitingFor(w, song); }
    }
    if w.hand.Some? { HandUnderWake(w, song, order); }
  }

  lemma HandUnderWake(w: World, song: Id, order: seq<Id>)
    requires RunOk(w) && song in w.songs && Enumerates(order, WaitingFor(w, song)) && w.hand.Some?
    ensures HandOk(PrepReadyStep(w, song, order), w.hand.value)
  {
    WaitersAreOff(w, song, order);
    XAddAllOk(w.run, order);
    XAddAllKeeps(w.run, order);
    hide HasJob, StreamOk, XAddAll;
  }

  lemma {:induction false} XAddAllKeeps(s: Stream, jobs: seq<Id>)
    ensures var t := XAddAll(s, jobs);
            && t.pel == s.pel && t.last == s.last && s.next <= t.next
            && (forall x :: x in s.job && x < s.next ==> x in t.job && t.job[x] == s.job[x])
    decreases |jobs|
  {
    if jobs != [] { XAddAllKeeps(XAdd(s, jobs[0]), jobs[1..]); }
  }

  /** And each woken row is queued with its entry. */
  lemma WakeKeepsRecord(w: World, song: Id, order: seq<Id>, a: Id)
    requires RunOk(w) && Enumerates(order, WaitingFor(w, song)) && a in w.analyses && RowOk(w, a)
    ensures RecordOk(XAddAll(w.run, order), a, MoveWaiting(w, song, Queued)[a])
  {
    WaitersAreOff(w, song, order);
    if a in WaitingFor(w, song) {
      XAddAllOk(w.run, order);
    } else {
      RecordUnderXAddAll(w.run, order, a, w.analyses[a]);
    }
    hide HasJob, StreamOk, XAddAll, RunOk;
  }

  /** Moving the waiting rows changes their status and nothing else. */
  lemma MovedFacts(w: World, song: Id, status: Status)
    ensures var rows := MoveWaiting(w, song, status);
            && rows.Keys == w.analyses.Keys
            && forall b :: b in rows ==>
                             && rows[b] == w.analyses[b].(status := rows[b].status)
                             && rows[b].status == if b in WaitingFor(w, song) then status else w.analyses[b].status
  {
  }

  lemma PrepReadyKeepsRows(w: World, id: nat, order: seq<Id>)
    requires Inv(w) && Held(w.prep, id) && Enumerates(order, WaitingFor(w, w.prep.job[id]))
    ensures RowsOk(PrepReadyStep(w, w.prep.job[id], order).(prep := AckAndRemove(w.prep, id)))
  {
    var song := w.prep.job[id];
    PrepEntryFacts(w, id);
    MovedFacts(w, song, Queued);
    hide HasJob, StreamOk, XAddAll, Enumerates, RecordOk, RunOk, PrepOk, SongsOk, AckAndRemove, MoveWaiting, RowOk;
    var v := PrepReadyStep(w, song, order).(prep := AckAndRemove(w.prep, id));
    assert v.analyses == MoveWaiting(w, song, Queued);
    forall b | b in v.analyses ensures RowOk(v, b) { WokenRowOk(w, song, order, v, b); }
  }

  lemma WokenRowOk(w: World, song: Id, order: seq<Id>, v: World, b: Id)
    requires RunOk(w) && b in w.analyses && RowOk(w, b) && song in w.songs
    requires Enumerates(order, WaitingFor(w, song))
    requires v == PrepReadyStep(w, song, order).(prep := v.prep)
    ensures b in v.analyses && RowOk(v, b)
  {
    WakeKeepsRecord(w, song, order, b);
    MovedFacts(w, song, Queued);
    hide HasJob, XAddAll, Enumerates, RecordOk, RunOk, MoveWaiting;
  }

  lemma PrepReadyKeeps(w: World, id: nat, order: seq<Id>)
    requires Inv(w) && Held(w.prep, id) && Enumerates(order, WaitingFor(w, w.prep.job[id]))
    ensures Inv(PrepReadyStep(w, w.prep.job[id], order).(prep := AckAndRemove(w.prep, id)))
  {
    var song := w.prep.job[id];
    PrepEntryFacts(w, id);
    WakeKeepsRun(w, song, order);
    PrepReadyKeepsRows(w, id, order);
    var v := PrepReadyStep(w, song, order).(prep := AckAndRemove(w.prep, id));
    hide RunOk, RowsOk, PrepOk, SongsOk, AckAndRemove, MoveWaiting, XAddAll;
    ClosePrepKeeps(w, id, v.songs[song], v);
    OtherSidesKeep(PrepReadyStep(w, song, order), v);
  }

  /** The run side does not look at songs:prep. */
  lemma OtherSidesKeep(u: World, v: World)
    requires RunOk(u) && v.run == u.run && v.hand == u.hand && v.songs == u.songs && v.analyses == u.analyses
    ensures RunOk(v)
  {
  }

  lemma HandlePrepKeeps(w: World, id: nat, ending: Ending, order: seq<Id>)
    requires Inv(w)
    ensures Inv(HandlePrepStep(w, id, ending, order))
  {
    hide HasJob, StreamOk, AckAndRemove, PrepFailedStep, PrepReadyStep;
    if Held(w.prep, id) && w.prep.job[id] in w.songs {
      if ending.Finished? && Enumerates(order, WaitingFor(w, w.prep.job[id])) {
        PrepReadyKeeps(w, id, order);
      } else if ending.Refused? {
        PrepFailedKeeps(w, id);
      } else if ending.Crashed? && ending.marked {
        PrepEntryFacts(w, id);
        var v := HandlePrepStep(w, id, ending, order);
        forall b | b in v.analyses ensures RowOk(v, b) {
          assert RowOk(w, b);
        }
      }
    }
  }

  lemma GiveUpPrepKeeps(w: World, id: nat)
    requires Inv(w)
    ensures Inv(GiveUpPrepStep(w, id))
  {
    hide HasJob, AckAndRemove, PrepFailedStep;
    if id in w.prep.pel && Deliveries(w.prep, id) > MAX_CLAIM_ATTEMPTS {
      PrepFailedKeeps(w, id);
    }
  }

  lemma StepKeeps(w: World, action: Action)
    requires Inv(w)
    ensures Inv(Step(w, action))
  {
    hide Inv, AddSongStep, EnqueueStep, CancelStep, RetryStep, RetryPrepStep, HandleRunStep, HandlePrepStep,
      GiveUpRunStep, GiveUpPrepStep, Deliver, Claim, DeliverRunStep, ClaimRunStep;
    match action
    case AddSong(song) => AddSongKeeps(w, song);
    case Enqueue(a, song, seen) => EnqueueKeeps(w, a, song, seen);
    case Cancel(a) => CancelKeeps(w, a);
    case Retry(a, seen) => RetryKeeps(w, a, seen);
    case RetryPrep(song, seen) => RetryPrepKeeps(w, song, seen);
    case DeliverRun => DeliverRunKeeps(w);
    case DeliverPrep(count) => DeliverPrepKeeps(w, count);
    case ClaimRun(id) => ClaimRunKeeps(w, id);
    case ClaimPrep(id) => ClaimPrepKeeps(w, id);
    case HandleRun(id, ending) => HandleRunKeeps(w, id, ending);
    case HandlePrep(id, ending, order) => HandlePrepKeeps(w, id, ending, order);
    case GiveUpRun(id) => GiveUpRunKeeps(w, id);
    case GiveUpPrep(id) => GiveUpPrepKeeps(w, id);
  }

  lemma DeliverRunKeeps(w: World)
    requires Inv(w)
    ensures Inv(DeliverRunStep(w))
  {
    if w.hand == None && Undelivered(w.run) != [] {
      var x := Undelivered(w.run)[0];
      assert x in Undelivered(w.run);
      DeliverOk(w.run, 1);
      DeliversFirst(w.run);
      RunSidesKeep(w, Deliver(w.run, 1), Some(x));
    }
  }

  lemma DeliversFirst(s: Stream)
    requires Undelivered(s) != []
    ensures Deliver(s, 1).pel == s.pel + [Undelivered(s)[0]] && Deliver(s, 1).last == Undelivered(s)[0]
  {
    assert Undelivered(s)[..1] == [Undelivered(s)[0]];
  }

  lemma DeliverPrepKeeps(w: World, count: nat)
    requires Inv(w)
    ensures Inv(w.(prep := Deliver(w.prep, count)))
  {
    DeliverOk(w.prep, count);
    PrepSidesKeep(w, Deliver(w.prep, count));
  }

  lemma ClaimRunKeeps(w: World, id: nat)
    requires Inv(w)
    ensures Inv(ClaimRunStep(w, id))
  {
    if w.hand == None {
      ClaimOk(w.run, id);
      RunSidesKeep(w, Claim(w.run, id), if id in w.run.pel && id in w.run.ids then Some(id) else None);
    }
  }

  lemma ClaimPrepKeeps(w: World, id: nat)
    requires Inv(w)
    ensures Inv(w.(prep := Claim(w.prep, id)))
  {
    ClaimOk(w.prep, id);
    PrepSidesKeep(w, Claim(w.prep, id));
  }

  /** Every state reached by any sequence of requests, deliveries, outcomes, crashes, reclaims and
      give-ups satisfies the invariant. */
  lemma {:induction false} InvFrom(w: World, actions: seq<Action>)
    requires Inv(w)
    ensures Inv(Exec(w, actions))
    decreases |actions|
  {
    hide Inv, Step;
    if actions != [] {
      StepKeeps(w, actions[0]);
      InvFrom(Step(w, actions[0]), actions[1..]);
    }
  }

  lemma StartOk(runMax: nat, prepMax: nat)
    ensures Inv(Start(runMax, prepMax))
  {
  }

  lemma InvAlways(runMax: nat, prepMax: nat, actions: seq<Action>)
    ensures Inv(Exec(Start(runMax, prepMax), actions))
  {
    InvFrom(Start(runMax, prepMax), actions);
  }

  lemma InvStreams(w: World)
    ensures Inv(w) ==> StreamOk(w.run) && StreamOk(w.prep)
  {
  }

  lemma InvFacts(w: World, x: nat)
    requires Inv(w) && (x in w.run.ids || w.hand == Some(x))
    ensures x in w.run.job && HasReference(w, w.run.job[x])
  {
    if x in w.run.ids { EntryFacts(w.run, x); }
    EntryIsLive(w, w.run.job[x]);
  }

  /** The handler's missing-reference branch is never taken: not for an entry of analyses:run and not for the
      one in the worker's hand, even if that was deleted meanwhile. */
  lemma ReferenceIsAlwaysCached(runMax: nat, prepMax: nat, actions: seq<Action>, x: nat)
    ensures var w := Exec(Start(runMax, prepMax), actions);
            x in w.run.ids || w.hand == Some(x) ==> x in w.run.job && HasReference(w, w.run.job[x])
  {
    InvAlways(runMax, prepMax, actions);
    var w := Exec(Start(runMax, prepMax), actions);
    if x in w.run.ids || w.hand == Some(x) { InvFacts(w, x); }
  }

  predicate SoleEntry(s: Stream, x: nat)
    requires x in s.job
  {
    forall y :: y in s.ids && y in s.job && s.job[y] == s.job[x] ==> y == x
  }

  predicate HasSole(s: Stream, job: Id) {
    exists x :: x in s.ids && x in s.job && s.job[x] == job && SoleEntry(s, x)
  }

  lemma Sole(s: Stream, job: Id)
    requires StreamOk(s) && HasJob(s, job)
    ensures HasSole(s, job)
  {
    var x :| x in s.ids && x in s.job && s.job[x] == job;
    assert SoleEntry(s, x);
  }

  /** A queued analysis always has exactly one entry on analyses:run. A processing one has exactly one iff its
      recorded entry, if it has a recorded one, still exists. A waiting one waits for a song that is pending
      or processing with exactly one entry on songs:prep. */
  lemma NobodyIsForgotten(runMax: nat, prepMax: nat, actions: seq<Action>, a: Id)
    requires a in Exec(Start(runMax, prepMax), actions).analyses
    ensures var w := Exec(Start(runMax, prepMax), actions);
            var row := w.analyses[a];
            && (row.status == Queued ==> HasSole(w.run, a))
            && (row.status == Processing ==>
                  (HasSole(w.run, a) <==> row.streamId == None || row.streamId.value in w.run.ids))
            && (row.status == WaitingForReference ==>
                  && row.song in w.songs && w.songs[row.song].prep in {PrepPending, PrepProcessing}
                  && HasSole(w.prep, row.song))
  {
    InvAlways(runMax, prepMax, actions);
    var w := Exec(Start(runMax, prepMax), actions);
    hide Exec;
    var row := w.analyses[a];
    assert RowOk(w, a);
    if row.streamId.Some? && row.streamId.value in w.run.ids {
      EntryFacts(w.run, row.streamId.value);
      RecordFacts(w.run, a, row);
    }
    if HasJob(w.run, a) { Sole(w.run, a); }
    if row.status == WaitingForReference { Sole(w.prep, row.song); }
    assert HasSole(w.run, a) ==> HasJob(w.run, a);
  }

  // ---------------------------------------------------------------- the status machine

  /** Which action may move a row of analysis `a` from one status to another. Canceled is among the
      worker's sources because a canceled row's entry may have been left behind. */
  predicate MayMove(w: World, action: Action, a: Id, from: Status, to: Status) {
    match action
    case Cancel(b) => b == a && from in {Queued, WaitingForReference} && to == Canceled
    case Retry(b, seen) => b == a && from == Failed && to in {Queued, WaitingForReference}
    case HandleRun(x, ending) =>
      && x in w.run.job && w.run.job[x] == a && from in {Queued, Processing, Canceled}
      && to == (if ending == Finished then Done else if ending == Refused then Failed else Processing)
    case GiveUpRun(x) => x in w.run.job && w.run.job[x] == a && from in {Queued, Processing, Canceled} && to == Failed
    case HandlePrep(x, ending, order) =>
      && from == WaitingForReference && x in w.prep.job && a in w.analyses && w.prep.job[x] == w.analyses[a].song
      && to == (if ending == Finished then Queued else Failed)
    case GiveUpPrep(x) =>
      && from == WaitingForReference && to == Failed
      && x in w.prep.job && a in w.analyses && w.prep.job[x] == w.analyses[a].song
    case _ => false
  }

  /** What the status machine says of one step and one row. */
  ghost predicate MovesProperly(w: World, action: Action, a: Id)
    requires a in w.analyses
  {
    var v := Step(w, action);
    && a in v.analyses && v.analyses[a].song == w.analyses[a].song
    && (v.analyses[a].status != w.analyses[a].status ==>
          MayMove(w, action, a, w.analyses[a].status, v.analyses[a].status))
    && (v.analyses[a].queueSeq != w.analyses[a].queueSeq ==>
          && action.Retry? && action.analysis == a
          && forall b :: b in v.analyses && b != a ==> v.analyses[b].queueSeq < v.analyses[a].queueSeq)
  }

  lemma RequestsMoveProperly(w: World, action: Action, a: Id)
    requires RowsOk(w) && a in w.analyses
    requires action.AddSong? || action.Enqueue? || action.Cancel? || action.Retry? || action.RetryPrep?
    ensures MovesProperly(w, action, a)
  {
    hide RowOk, XAdd, XDel;
  }

  lemma PrepsMoveProperly(w: World, action: Action, a: Id)
    requires a in w.analyses
    requires action.DeliverPrep? || action.ClaimPrep? || action.HandlePrep? || action.GiveUpPrep?
    ensures MovesProperly(w, action, a)
  {
    hide XAddAll, AckAndRemove, Deliver, Claim, Enumerates;
  }

  /** Handling or giving up on an entry changes its own row's status and nothing else. */
  lemma ClosingMovesProperly(w: World, action: Action, a: Id)
    requires a in w.analyses && (action.HandleRun? || action.GiveUpRun?)
    requires (action.id in w.run.ids || w.hand == Some(action.id)) && action.id in w.run.job ==>
               w.run.job[action.id] in w.analyses
               && w.analyses[w.run.job[action.id]].status in {Queued, Processing, Canceled}
    ensures MovesProperly(w, action, a)
  {
    hide AckAndRemove, Deliveries;
  }

  lemma DeliveringMovesNothing(w: World, action: Action, a: Id)
    requires a in w.analyses && (action.DeliverRun? || action.ClaimRun?)
    ensures MovesProperly(w, action, a)
  {
    hide Deliver, Claim, Undelivered;
  }

  lemma RunsMoveProperly(w: World, action: Action, a: Id)
    requires Inv(w) && a in w.analyses
    requires action.DeliverRun? || action.ClaimRun? || action.HandleRun? || action.GiveUpRun?
    ensures MovesProperly(w, action, a)
  {
    hide MovesProperly, Inv;
    if action.HandleRun? || action.GiveUpRun? {
      OwnRowOnly(w, action.id);
      ClosingMovesProperly(w, action, a);
    } else {
      DeliveringMovesNothing(w, action, a);
    }
  }

  /** No row disappears, a row changes status only by an action that concerns it, and its place in line
      changes only by a retry, which sends it to the very back. */
  lemma StatusMachine(w: World, action: Action, a: Id)
    requires Inv(w) && a in w.analyses
    ensures MovesProperly(w, action, a)
  {
    hide MovesProperly, RowsOk, RunOk, PrepOk, SongsOk;
    if action.DeliverRun? || action.ClaimRun? || action.HandleRun? || action.GiveUpRun? {
      RunsMoveProperly(w, action, a);
    } else if action.DeliverPrep? || action.ClaimPrep? || action.HandlePrep? || action.GiveUpPrep? {
      PrepsMoveProperly(w, action, a);
    } else {
      RequestsMoveProperly(w, action, a);
    }
  }

  lemma OwnRowOnly(w: World, x: nat)
    requires Inv(w)
    ensures (x in w.run.ids || w.hand == Some(x)) && x in w.run.job ==>
              w.run.job[x] in w.analyses && w.analyses[w.run.job[x]].status in {Queued, Processing, Canceled}
  {
  }

  /** A newly submitted analysis is last in line. */
  lemma NewestIsLast(w: World, a: Id, song: Id, seen: nat)
    requires Inv(w) && a !in w.analyses
    ensures var v := EnqueueStep(w, a, song, seen);
            a in v.analyses ==>
              forall b :: b in w.analyses ==>
                v.analyses[b] == w.analyses[b] && v.analyses[b].queueSeq < v.analyses[a].queueSeq
  {
    hide RowOk;
  }

  predicate IsDone(w: World, a: Id) {
    a in w.analyses && w.analyses[a].status == Done
  }

  /** Unlike canceled, done is terminal while a handler's terminal writes and the ack are one step: no sequence of
      actions changes the status of a done row. `SuccessTail` takes that step apart. */
  lemma {:induction false} DoneIsTerminal(w: World, actions: seq<Action>, a: Id)
    requires Inv(w) && IsDone(w, a)
    ensures IsDone(Exec(w, actions), a)
    decreases |actions|
  {
    hide Inv, Step;
    if actions != [] {
      StepKeeps(w, actions[0]);
      StatusMachine(w, actions[0], a);
      DoneIsTerminal(Step(w, actions[0]), actions[1..], a);
    }
  }
}
