/** The two-stream job lifecycle as a transition system: song and analysis rows, the two Redis
    streams with their pending lists, and every service call and worker step on them. One service
    call is one step; a handler's terminal writes plus the ack are one step. */
module Lifecycle {
  import opened Basics
  import opened Statuses

  type Id = nat

  datatype PrepStatus = PrepPending | PrepProcessing | PrepReady | PrepFailed

  /** `cached` says the vocal stem and the reference pitch are stored. */
  datatype Song = Song(prep: PrepStatus, cached: bool)

  datatype Analysis = Analysis(song: Id, status: Status, queueSeq: nat, streamId: Option<nat>)

  /** A stream with one consumer group: entry ids in order and their job, the pending entries with
      their delivery counts, the last delivered id and the next id to hand out. */
  datatype Stream = Stream(ids: seq<nat>, job: map<nat, Id>, pel: seq<nat>, deliveries: map<nat, nat>,
                           last: nat, next: nat)

  /** `hand` is the entry of analyses:run the one worker was given and has not finished with: it holds the
      entry's fields, whatever happens to the stream meanwhile. */
  datatype World = World(songs: map<Id, Song>, analyses: map<Id, Analysis>, run: Stream, prep: Stream,
                         hand: Option<nat>, nextSeq: nat, runMax: nat, prepMax: nat)

  const MAX_CLAIM_ATTEMPTS := 3

  // ---------------------------------------------------------------- streams

  function Without(s: seq<nat>, id: nat): (r: seq<nat>)
    ensures forall x :: x in r ==> x in s
    ensures forall x :: x in s && x != id ==> x in r
    ensures |r| == |s| - if id in s then 1 else 0
  {
    if s == [] then [] else if s[0] == id then s[1..] else [s[0]] + Without(s[1..], id)
  }

  predicate Increasing(s: seq<nat>) {
    forall i, j :: 0 <= i < j < |s| ==> s[i] < s[j]
  }

  function XAdd(s: Stream, job: Id): Stream {
    s.(ids := s.ids + [s.next], job := s.job[s.next := job], next := s.next + 1)
  }

  /** Several `XADD`s in a row. */
  function XAddAll(s: Stream, jobs: seq<Id>): Stream
    decreases |jobs|
  {
    if jobs == [] then s else XAddAll(XAdd(s, jobs[0]), jobs[1..])
  }

  function XDel(s: Stream, id: nat): Stream {
    s.(ids := Without(s.ids, id))
  }

  /** `XACK` then `XDEL`. */
  function AckAndRemove(s: Stream, id: nat): Stream {
    s.(ids := Without(s.ids, id), pel := Without(s.pel, id))
  }

  predicate HasJob(s: Stream, job: Id) {
    exists x :: x in s.ids && x in s.job && s.job[x] == job
  }

  /** Entries no consumer has been given yet. */
  function Undelivered(s: Stream): seq<nat> {
    After(s.ids, s.last)
  }

  function After(ids: seq<nat>, last: nat): (r: seq<nat>)
    ensures forall x :: x in r <==> x in ids && x > last
  {
    if ids == [] then [] else if ids[0] > last then [ids[0]] + After(ids[1..], last) else After(ids[1..], last)
  }

  /** `XREADGROUP ... COUNT count`: the next undelivered entries become pending. */
  function Deliver(s: Stream, count: nat): Stream {
    var taken := Undelivered(s)[..Min(count, |Undelivered(s)|)];
    if taken == [] then s
    else s.(pel := s.pel + taken, deliveries := s.deliveries + (map x | x in taken :: 1), last := taken[|taken| - 1])
  }

  /** `XCLAIM`: one more delivery of a pending entry; a deleted one is dropped from the list. */
  function Claim(s: Stream, id: nat): Stream {
    if id !in s.pel then s
    else if id in s.ids then s.(deliveries := s.deliveries[id := Deliveries(s, id) + 1])
    else s.(pel := Without(s.pel, id))
  }

  function Deliveries(s: Stream, id: nat): nat {
    if id in s.deliveries then s.deliveries[id] else 0
  }

  // ---------------------------------------------------------------- steps

  /** How one delivery of a job ends: `Crashed` covers a graceful interrupt, a handler exception and
      a worker death before the terminal writes, after (`marked`) or before the row was marked
      processing. */
  datatype Ending = Finished | Refused | Crashed(marked: bool)

  datatype Action =
    | AddSong(song: Id)
    | Enqueue(analysis: Id, song: Id, seen: nat)
    | Cancel(analysis: Id)
    | Retry(analysis: Id, seen: nat)
    | RetryPrep(song: Id, seen: nat)
    | DeliverRun
    | DeliverPrep(count: nat)
    | ClaimRun(id: nat)
    | ClaimPrep(id: nat)
    | HandleRun(id: nat, ending: Ending)
    | HandlePrep(id: nat, ending: Ending, order: seq<Id>)
    | GiveUpRun(id: nat)
    | GiveUpPrep(id: nat)

  predicate IsReady(w: World, song: Id) {
    song in w.songs && w.songs[song].prep == PrepReady
  }

  /** A new song is admitted onto songs:prep, or leaves nothing behind. */
  function AddSongStep(w: World, song: Id): World {
    if song in w.songs || |w.prep.ids| >= w.prepMax then w
    else w.(songs := w.songs[song := Song(PrepPending, false)], prep := XAdd(w.prep, song))
  }

  /** `seen` is the length the cheap pre-check read, possibly long before the admission itself; a row
      that loses the race for the last place is rolled back. */
  function EnqueueStep(w: World, a: Id, song: Id, seen: nat): World {
    if a in w.analyses || song !in w.songs || w.songs[song].prep == PrepFailed then w
    else if !IsReady(w, song) then
      w.(analyses := w.analyses[a := Analysis(song, WaitingForReference, w.nextSeq, None)], nextSeq := w.nextSeq + 1)
    else if seen >= w.runMax then w
    else if |w.run.ids| >= w.runMax then w.(nextSeq := w.nextSeq + 1)
    else
      w.(analyses := w.analyses[a := Analysis(song, Queued, w.nextSeq, Some(w.run.next))],
         nextSeq := w.nextSeq + 1, run := XAdd(w.run, a))
  }

  function CancelStep(w: World, a: Id): World {
    if a !in w.analyses || w.analyses[a].status !in {Queued, WaitingForReference} then w
    else
      var row := w.analyses[a];
      w.(analyses := w.analyses[a := row.(status := Canceled)],
         run := if row.streamId.Some? then XDel(w.run, row.streamId.value) else w.run)
  }

  function RetryStep(w: World, a: Id, seen: nat): World {
    if a !in w.analyses then w
    else
      var row := w.analyses[a];
      if row.song !in w.songs || w.songs[row.song].prep == PrepFailed then w
      else if !IsReady(w, row.song) then
        if row.status != Failed then w
        else
          var waiting := row.(status := WaitingForReference, queueSeq := w.nextSeq, streamId := None);
          w.(analyses := w.analyses[a := waiting], nextSeq := w.nextSeq + 1)
      else if seen >= w.runMax || row.status != Failed then w
      else w.(analyses := w.analyses[a := row.(status := Queued, queueSeq := w.nextSeq, streamId := Some(w.run.next))],
              nextSeq := w.nextSeq + 1, run := XAdd(w.run, a))
  }

  function RetryPrepStep(w: World, song: Id, seen: nat): World {
    if seen >= w.prepMax || song !in w.songs || w.songs[song].prep != PrepFailed then w
    else w.(songs := w.songs[song := w.songs[song].(prep := PrepPending)], prep := XAdd(w.prep, song))
  }

  function SetStatus(w: World, a: Id, status: Status): World {
    if a in w.analyses then w.(analyses := w.analyses[a := w.analyses[a].(status := status)]) else w
  }

  function SetPrep(w: World, song: Id, prep: PrepStatus): World {
    if song in w.songs then
      w.(songs := w.songs[song := Song(prep, if prep == PrepReady then true else w.songs[song].cached)])
    else w
  }

  /** A delivered entry that still exists. */
  predicate Held(s: Stream, id: nat) {
    id in s.pel && id in s.ids && id in s.job
  }

  /** The context of an analysis can be built: its row exists and its song has a cached reference. */
  predicate HasReference(w: World, a: Id) {
    a in w.analyses && w.analyses[a].song in w.songs && w.songs[w.analyses[a].song].cached
  }

  /** `read_next` puts the oldest undelivered entry into the worker's hand. */
  function DeliverRunStep(w: World): World {
    if w.hand.Some? || Undelivered(w.run) == [] then w
    else w.(run := Deliver(w.run, 1), hand := Some(Undelivered(w.run)[0]))
  }

  /** Reclaiming puts a pending entry into the worker's hand, if it still exists. */
  function ClaimRunStep(w: World, id: nat): World {
    if w.hand.Some? then w
    else w.(run := Claim(w.run, id), hand := if id in w.run.pel && id in w.run.ids then Some(id) else None)
  }

  /** The worker handles the entry in its hand, without looking at the stream or the row's status again. */
  function HandleRunStep(w: World, id: nat, ending: Ending): World {
    if w.hand != Some(id) || id !in w.run.job then w
    else
      var a, u := w.run.job[id], w.(hand := None);
      if !HasReference(w, a) then u
      else match ending
        case Finished => SetStatus(u, a, Done).(run := AckAndRemove(w.run, id))
        case Refused => SetStatus(u, a, Failed).(run := AckAndRemove(w.run, id))
        case Crashed(marked) => if marked then SetStatus(u, a, Processing) else u
  }

  function WaitingFor(w: World, song: Id): set<Id> {
    set a | a in w.analyses && w.analyses[a].status == WaitingForReference && w.analyses[a].song == song
  }

  /** `order` lists the rows an `UPDATE ... RETURNING id` touched, in whatever order it returns them. */
  predicate Enumerates(order: seq<Id>, rows: set<Id>) {
    && (forall i :: 0 <= i < |order| ==> order[i] in rows)
    && (forall a :: a in rows ==> a in order)
    && (forall i, j :: 0 <= i < j < |order| ==> order[i] != order[j])
  }

  /** Moves every row waiting for `song` to `status`. */
  function MoveWaiting(w: World, song: Id, status: Status): map<Id, Analysis> {
    map a | a in w.analyses :: if a in WaitingFor(w, song) then w.analyses[a].(status := status) else w.analyses[a]
  }

  function PrepReadyStep(w: World, song: Id, order: seq<Id>): World {
    SetPrep(w, song, PrepReady).(analyses := MoveWaiting(w, song, Queued), run := XAddAll(w.run, order))
  }

  function PrepFailedStep(w: World, song: Id): World {
    SetPrep(w, song, PrepFailed).(analyses := MoveWaiting(w, song, Failed))
  }

  function HandlePrepStep(w: World, id: nat, ending: Ending, order: seq<Id>): World {
    if !Held(w.prep, id) || w.prep.job[id] !in w.songs then w
    else
      var song := w.prep.job[id];
      match ending
      case Finished =>
        if !Enumerates(order, WaitingFor(w, song)) then w
        else PrepReadyStep(w, song, order).(prep := AckAndRemove(w.prep, id))
      case Refused => PrepFailedStep(w, song).(prep := AckAndRemove(w.prep, id))
      case Crashed(marked) => if marked then SetPrep(w, song, PrepProcessing) else w
  }

  /** A job delivered too often is failed for good; a pending id whose entry is gone is just acked. */
  function GiveUpRunStep(w: World, id: nat): World {
    if w.hand.Some? || id !in w.run.pel || Deliveries(w.run, id) <= MAX_CLAIM_ATTEMPTS then w
    else (if Held(w.run, id) then SetStatus(w, w.run.job[id], Failed) else w).(run := AckAndRemove(w.run, id))
  }

  function GiveUpPrepStep(w: World, id: nat): World {
    if id !in w.prep.pel || Deliveries(w.prep, id) <= MAX_CLAIM_ATTEMPTS then w
    else (if Held(w.prep, id) then PrepFailedStep(w, w.prep.job[id]) else w).(prep := AckAndRemove(w.prep, id))
  }

  function Step(w: World, action: Action): World {
    match action
    case AddSong(song) => AddSongStep(w, song)
    case Enqueue(a, song, seen) => EnqueueStep(w, a, song, seen)
    case Cancel(a) => CancelStep(w, a)
    case Retry(a, seen) => RetryStep(w, a, seen)
    case RetryPrep(song, seen) => RetryPrepStep(w, song, seen)
    case DeliverRun => DeliverRunStep(w)
    case DeliverPrep(count) => w.(prep := Deliver(w.prep, count))
    case ClaimRun(id) => ClaimRunStep(w, id)
    case ClaimPrep(id) => w.(prep := Claim(w.prep, id))
    case HandleRun(id, ending) => HandleRunStep(w, id, ending)
    case HandlePrep(id, ending, order) => HandlePrepStep(w, id, ending, order)
    case GiveUpRun(id) => GiveUpRunStep(w, id)
    case GiveUpPrep(id) => GiveUpPrepStep(w, id)
  }

  /** The state after any sequence of steps. */
  function Exec(w: World, actions: seq<Action>): World
    decreases |actions|
  {
    if actions == [] then w else Exec(Step(w, actions[0]), actions[1..])
  }

  function EmptyStream(): Stream {
    Stream([], map[], [], map[], 0, 1)
  }

  function Start(runMax: nat, prepMax: nat): World {
    World(map[], map[], EmptyStream(), EmptyStream(), None, 0, runMax, prepMax)
  }

  // ---------------------------------------------------------------- the invariant

  /** Ids grow and are never reused; a present entry is either undelivered or pending; no two
      entries carry the same job. */
  ghost predicate StreamOk(s: Stream) {
    && Increasing(s.ids) && Increasing(s.pel) && s.last < s.next
    && (forall x :: x in s.ids ==> x < s.next && x in s.job)
    && (forall x :: x in s.pel ==> x <= s.last)
    && (forall x :: x in s.ids && x <= s.last ==> x in s.pel)
    && (forall x, y :: x in s.ids && y in s.ids && x != y ==> s.job[x] != s.job[y])
  }

  /** The entry's row exists, is not over but for a cancel, and its song is ready. */
  predicate LiveEntry(w: World, x: nat) {
    && x in w.run.job && w.run.job[x] in w.analyses
    && w.analyses[w.run.job[x]].status in {Queued, Processing, Canceled}
    && IsReady(w, w.analyses[w.run.job[x]].song)
  }

  /** The entry in hand is pending; if it is gone from the stream, its row was canceled by its recorded id;
      no other entry carries its job. */
  ghost predicate HandOk(w: World, x: nat) {
    && LiveEntry(w, x) && x in w.run.pel
    && (x !in w.run.ids ==> w.analyses[w.run.job[x]].status == Canceled && w.analyses[w.run.job[x]].streamId == Some(x))
    && (forall y :: y in w.run.ids && y in w.run.job && y != x ==> w.run.job[y] != w.run.job[x])
  }

  ghost predicate RunOk(w: World) {
    && StreamOk(w.run)
    && (forall x :: x in w.run.ids ==> LiveEntry(w, x))
    && (w.hand.Some? ==> HandOk(w, w.hand.value))
  }

  /** Every entry of songs:prep is a song still being prepared, and pending entries exist. */
  ghost predicate PrepOk(w: World) {
    && StreamOk(w.prep)
    && (forall x :: x in w.prep.pel ==> x in w.prep.ids)
    && (forall x :: x in w.prep.ids ==>
                      w.prep.job[x] in w.songs && w.songs[w.prep.job[x]].prep in {PrepPending, PrepProcessing})
  }

  ghost predicate SongsOk(w: World) {
    forall s :: s in w.songs ==>
                  && (w.songs[s].prep in {PrepPending, PrepProcessing} ==> HasJob(w.prep, s))
                  && (w.songs[s].prep == PrepReady ==> w.songs[s].cached)
  }

  /** A queued row, and a processing one without a recorded id, has an entry; a recorded entry is the row's
      only one, and a queued row's recorded entry exists. */
  ghost predicate RecordOk(run: Stream, a: Id, row: Analysis) {
    && (row.status == Queued || (row.status == Processing && row.streamId == None) ==> HasJob(run, a))
    && (row.streamId.Some? ==>
          && row.streamId.value < run.next
          && (row.streamId.value in run.ids && row.streamId.value in run.job ==> run.job[row.streamId.value] == a)
          && (forall x :: x in run.ids && x in run.job && run.job[x] == a ==> x == row.streamId.value)
          && (row.status == Queued ==> row.streamId.value in run.ids))
  }

  ghost predicate RowOk(w: World, a: Id)
    requires a in w.analyses
  {
    var row := w.analyses[a];
    && row.song in w.songs
    && (row.status == WaitingForReference ==>
          w.songs[row.song].prep in {PrepPending, PrepProcessing} && row.streamId == None)
    && RecordOk(w.run, a, row)
  }

  /** A processing row whose entry was deleted while the worker had it in hand. */
  predicate Stranded(w: World, a: Id) {
    a in w.analyses && w.analyses[a].status == Processing && !HasJob(w.run, a)
  }

  ghost predicate RowsOk(w: World) {
    && (forall a :: a in w.analyses ==> RowOk(w, a) && w.analyses[a].queueSeq < w.nextSeq)
    && (forall a, b :: a in w.analyses && b in w.analyses && a != b ==>
                         w.analyses[a].queueSeq != w.analyses[b].queueSeq)
  }

  ghost predicate Inv(w: World) {
    RunOk(w) && PrepOk(w) && SongsOk(w) && RowsOk(w)
  }
}
