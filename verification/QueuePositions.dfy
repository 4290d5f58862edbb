/** Queue positions, one SQL statement or transaction at a time: which rows carry a position, and how far
    it can drift from the true rank between two recalculations. */
module QueuePositions {
  import opened Basics
  import opened Statuses

  type Id = nat

  datatype Row = Row(song: Id, status: Status, queueSeq: nat, position: Option<nat>)

  datatype Table = Table(rows: map<Id, Row>, nextSeq: nat)

  predicate IsQueued(rows: map<Id, Row>, a: Id) {
    a in rows && rows[a].status == Queued
  }

  /** The queued rows submitted no later than `a`. */
  function UpTo(rows: map<Id, Row>, a: Id): set<Id>
    requires a in rows
  {
    set b | b in rows && rows[b].status == Queued && rows[b].queueSeq <= rows[a].queueSeq
  }

  /** The true place in the queue, counted from 1. */
  function Rank(rows: map<Id, Row>, a: Id): nat
    requires a in rows
  {
    |UpTo(rows, a)|
  }

  function QueuedRows(rows: map<Id, Row>): set<Id> {
    set a | a in rows && rows[a].status == Queued
  }

  // ---------------------------------------------------------------- recalculation

  /** The rows the UPDATE touches, with the position each gets. */
  function Changed(rows: map<Id, Row>): map<Id, nat> {
    map a | a in rows && rows[a].status == Queued && rows[a].position != Some(Rank(rows, a)) :: Rank(rows, a)
  }

  function Updated(rows: map<Id, Row>, changed: map<Id, nat>): map<Id, Row> {
    map a | a in rows :: if a in changed then rows[a].(position := Some(changed[a])) else rows[a]
  }

  function Recalculated(rows: map<Id, Row>): map<Id, Row> {
    Updated(rows, Changed(rows))
  }

  // ---------------------------------------------------------------- statements

  datatype Statement =
    | Create(id: Id, song: Id, ready: bool)
    | Delete(id: Id)
    | Cancel(id: Id)
    | Retry(id: Id, ready: bool)
    | MarkProcessing(id: Id)
    | MarkDone(id: Id)
    | MarkFailed(id: Id)
    | FailWaiting(song: Id)
    | Wake(song: Id)
    | Recalculate

  function Moved(rows: map<Id, Row>, song: Id, status: Status): map<Id, Row> {
    map a | a in rows ::
      if rows[a].status == WaitingForReference && rows[a].song == song then rows[a].(status := status) else rows[a]
  }

  function Set(rows: map<Id, Row>, a: Id, status: Status): map<Id, Row> {
    if a in rows then rows[a := rows[a].(status := status, position := None)] else rows
  }

  /** A failed row put back in line, behind everyone and without a place. */
  function Requeued(row: Row, ready: bool, turn: nat): Row {
    row.(status := if ready then Queued else WaitingForReference, queueSeq := turn, position := None)
  }

  function Step(t: Table, s: Statement): Table {
    match s
    case Create(a, song, ready) =>
      if a in t.rows then t
      else Table(t.rows[a := Row(song, if ready then Queued else WaitingForReference, t.nextSeq, None)], t.nextSeq + 1)
    case Delete(a) => t.(rows := t.rows - {a})
    case Cancel(a) =>
      if a in t.rows && t.rows[a].status in {Queued, WaitingForReference} then
        t.(rows := Set(t.rows, a, Canceled))
      else t
    case Retry(a, ready) =>
      if a in t.rows && t.rows[a].status == Failed then
        Table(t.rows[a := Requeued(t.rows[a], ready, t.nextSeq)], t.nextSeq + 1)
      else t
    case MarkProcessing(a) => t.(rows := Set(t.rows, a, Processing))
    case MarkDone(a) => t.(rows := Set(t.rows, a, Done))
    case MarkFailed(a) => t.(rows := Set(t.rows, a, Failed))
    case FailWaiting(song) => t.(rows := Moved(t.rows, song, Failed))
    case Wake(song) => t.(rows := Recalculated(Moved(t.rows, song, Queued)))
    case Recalculate => t.(rows := Recalculated(t.rows))
  }

  function Exec(t: Table, ss: seq<Statement>): Table
    decreases |ss|
  {
    if ss == [] then t else Exec(Step(t, ss[0]), ss[1..])
  }

  // ---------------------------------------------------------------- dense ranks

  predicate DistinctSeqs(rows: map<Id, Row>) {
    forall a, b :: a in rows && b in rows && a != b ==> rows[a].queueSeq != rows[b].queueSeq
  }

  /** Ranks follow the submission order strictly. */
  lemma RankFollowsSeq(rows: map<Id, Row>, a: Id, b: Id)
    requires DistinctSeqs(rows) && IsQueued(rows, a) && IsQueued(rows, b)
    ensures rows[a].queueSeq < rows[b].queueSeq <==> Rank(rows, a) < Rank(rows, b)
    ensures 1 <= Rank(rows, a) <= |QueuedRows(rows)|
  {
    assert a in UpTo(rows, a) && b in UpTo(rows, b);
    Subset(UpTo(rows, a), QueuedRows(rows));
    Subset({a}, UpTo(rows, a));
    if rows[a].queueSeq < rows[b].queueSeq {
      assert b !in UpTo(rows, a);
      Subset(UpTo(rows, a) + {b}, UpTo(rows, b));
    } else {
      Subset(UpTo(rows, b), UpTo(rows, a));
    }
  }

  lemma {:induction false} Subset(xs: set<Id>, ys: set<Id>)
    requires xs <= ys
    ensures |xs| <= |ys|
  {
    if xs != {} {
      var x :| x in xs;
      Subset(xs - {x}, ys - {x});
    }
  }

  /** The row of `q` submitted last. */
  lemma {:induction false} HasLatest(rows: map<Id, Row>, q: set<Id>) returns (m: Id)
    requires q != {} && forall a :: a in q ==> a in rows
    ensures m in q && forall a :: a in q ==> rows[a].queueSeq <= rows[m].queueSeq
  {
    m :| m in q;
    if q != {m} {
      var l := HasLatest(rows, q - {m});
      if rows[l].queueSeq > rows[m].queueSeq { m := l; }
    }
  }

  /** Among any set of rows, every place from 1 to its size is somebody's. */
  lemma {:induction false} EveryPlaceTaken(rows: map<Id, Row>, q: set<Id>, p: nat) returns (a: Id)
    requires DistinctSeqs(rows) && (forall b :: b in q ==> b in rows) && 1 <= p <= |q|
    ensures a in q && |set b | b in q && rows[b].queueSeq <= rows[a].queueSeq| == p
  {
    var m := HasLatest(rows, q);
    if p == |q| {
      a := m;
      assert (set b | b in q && rows[b].queueSeq <= rows[a].queueSeq) == q;
    } else {
      a := EveryPlaceTaken(rows, q - {m}, p);
      assert (set b | b in q && rows[b].queueSeq <= rows[a].queueSeq)
          == set b | b in q - {m} && rows[b].queueSeq <= rows[a].queueSeq;
    }
  }

  /** Every queued row's position is its rank, and the positions are exactly 1..k. */
  ghost predicate Dense(rows: map<Id, Row>) {
    && (forall a :: IsQueued(rows, a) ==> rows[a].position == Some(Rank(rows, a)))
    && (forall p :: 1 <= p <= |QueuedRows(rows)| ==> PlaceTaken(rows, p))
  }

  ghost predicate PlaceTaken(rows: map<Id, Row>, p: nat) {
    exists a :: IsQueued(rows, a) && rows[a].position == Some(p)
  }

  /** The same rows in the same order and states; only positions may differ. */
  ghost predicate SameQueue(rows: map<Id, Row>, after: map<Id, Row>) {
    && after.Keys == rows.Keys
    && forall a :: a in rows ==>
                     after[a].queueSeq == rows[a].queueSeq && (after[a].status == Queued <==> rows[a].status == Queued)
  }

  lemma SameRanks(rows: map<Id, Row>, after: map<Id, Row>)
    requires SameQueue(rows, after)
    ensures forall a :: a in rows ==> Rank(after, a) == Rank(rows, a)
    ensures QueuedRows(after) == QueuedRows(rows)
  {
    forall a | a in rows ensures Rank(after, a) == Rank(rows, a) {
      assert UpTo(after, a) == UpTo(rows, a);
    }
  }

  /** Recalculating writes every queued row's rank and nothing else. */
  ghost predicate Reranked(rows: map<Id, Row>, after: map<Id, Row>) {
    && after.Keys == rows.Keys
    && forall a :: a in rows ==>
                     after[a] == if rows[a].status == Queued then rows[a].(position := Some(Rank(rows, a))) else rows[a]
  }

  lemma RecalculatedReranks(rows: map<Id, Row>)
    ensures Reranked(rows, Recalculated(rows))
  {
    hide Rank;
  }

  lemma RerankedIsDense(rows: map<Id, Row>, after: map<Id, Row>)
    requires DistinctSeqs(rows) && Reranked(rows, after)
    ensures Dense(after)
  {
    SameRanks(rows, after);
    hide Rank;
    forall p | 1 <= p <= |QueuedRows(after)| ensures PlaceTaken(after, p) {
      assert DistinctSeqs(after);
      var a := EveryPlaceTaken(after, QueuedRows(after), p);
      RankIsSize(after, a);
      assert IsQueued(after, a) && after[a].position == Some(p);
    }
  }

  lemma RankIsSize(rows: map<Id, Row>, a: Id)
    requires a in rows
    ensures Rank(rows, a) == |set b | b in QueuedRows(rows) && rows[b].queueSeq <= rows[a].queueSeq|
  {
    assert UpTo(rows, a) == set b | b in QueuedRows(rows) && rows[b].queueSeq <= rows[a].queueSeq;
  }

  /** Recalculating makes the queue dense, and reports exactly the rows whose position it changed. */
  lemma RecalculationIsDense(rows: map<Id, Row>)
    requires DistinctSeqs(rows)
    ensures Dense(Recalculated(rows))
    ensures forall a :: a in rows ==> (a in Changed(rows) <==> Recalculated(rows)[a].position != rows[a].position)
    ensures forall a :: a in Changed(rows) ==> a in rows && Recalculated(rows)[a].position == Some(Changed(rows)[a])
    ensures forall a :: a in rows ==> Recalculated(rows)[a] == rows[a].(position := Recalculated(rows)[a].position)
  {
    RecalculatedReranks(rows);
    RerankedIsDense(rows, Recalculated(rows));
    hide Rank, Dense;
  }

  // ---------------------------------------------------------------- between recalculations

  /** Only queued rows have a position; positions keep the submission order, and are never better than
      the true rank. */
  ghost predicate PositionsOk(t: Table) {
    && DistinctSeqs(t.rows)
    && (forall a :: a in t.rows ==> t.rows[a].queueSeq < t.nextSeq)
    && (forall a :: a in t.rows && t.rows[a].position.Some? ==>
                      t.rows[a].status == Queued && t.rows[a].position.value >= Rank(t.rows, a))
    && (forall a, b :: a in t.rows && b in t.rows && t.rows[a].position.Some? && t.rows[b].position.Some? ==>
                         (t.rows[a].queueSeq < t.rows[b].queueSeq
                          <==> t.rows[a].position.value < t.rows[b].position.value))
  }

  /** A row that leaves the queue, or joins it at the back, or changes nothing there, never pushes anyone
      down. */
  lemma OneRowKeeps(t: Table, a: Id, row: Row, next: nat)
    requires PositionsOk(t) && row.position == None && next >= t.nextSeq && row.queueSeq < next
    requires row.queueSeq >= t.nextSeq || (a in t.rows && row.queueSeq == t.rows[a].queueSeq && row.status != Queued)
    ensures PositionsOk(Table(t.rows[a := row], next))
  {
    var rows := t.rows[a := row];
    forall b | b in rows && rows[b].position.Some? ensures rows[b].position.value >= Rank(rows, b) {
      assert b != a;
      Subset(UpTo(rows, b), UpTo(t.rows, b));
    }
  }

  lemma DeleteKeeps(t: Table, a: Id)
    requires PositionsOk(t)
    ensures PositionsOk(t.(rows := t.rows - {a}))
  {
    var rows := t.rows - {a};
    forall b | b in rows && rows[b].position.Some? ensures rows[b].position.value >= Rank(rows, b) {
      Subset(UpTo(rows, b), UpTo(t.rows, b));
    }
  }

  lemma FailWaitingKeeps(t: Table, song: Id)
    requires PositionsOk(t)
    ensures PositionsOk(t.(rows := Moved(t.rows, song, Failed)))
  {
    hide Rank;
    SameRanks(t.rows, Moved(t.rows, song, Failed));
  }

  lemma RecalculateKeeps(t: Table, rows: map<Id, Row>)
    requires DistinctSeqs(rows) && (forall a :: a in rows ==> rows[a].queueSeq < t.nextSeq)
    requires forall a :: a in rows && rows[a].position.Some? ==> rows[a].status == Queued
    ensures PositionsOk(t.(rows := Recalculated(rows)))
  {
    var after := Recalculated(rows);
    RecalculatedReranks(rows);
    hide Recalculated, Rank;
    SameRanks(rows, after);
    forall a, b | a in after && b in after && after[a].position.Some? && after[b].position.Some?
      ensures after[a].queueSeq < after[b].queueSeq <==> after[a].position.value < after[b].position.value
    {
      assert IsQueued(after, a) && IsQueued(after, b);
      RankFollowsSeq(after, a, b);
    }
  }

  lemma RowsKeep(t: Table, s: Statement)
    requires PositionsOk(t) && !s.Wake? && !s.Recalculate?
    ensures PositionsOk(Step(t, s))
  {
    hide PositionsOk, Rank;
    match s
    case Create(a, song, ready) =>
      OneRowKeeps(t, a, Row(song, if ready then Queued else WaitingForReference, t.nextSeq, None), t.nextSeq + 1);
    case Delete(a) => DeleteKeeps(t, a);
    case Cancel(a) => SetKeeps(t, a, Canceled);
    case Retry(a, ready) =>
      if a in t.rows {
        OneRowKeeps(t, a, Requeued(t.rows[a], ready, t.nextSeq), t.nextSeq + 1);
      }
    case MarkProcessing(a) => SetKeeps(t, a, Processing);
    case MarkDone(a) => SetKeeps(t, a, Done);
    case MarkFailed(a) => SetKeeps(t, a, Failed);
    case FailWaiting(song) => FailWaitingKeeps(t, song);
  }

  lemma StepKeeps(t: Table, s: Statement)
    requires PositionsOk(t)
    ensures PositionsOk(Step(t, s))
    ensures s.Wake? || s.Recalculate? ==> Dense(Step(t, s).rows)
  {
    hide Dense, Recalculated, Rank, Changed;
    if s.Wake? || s.Recalculate? {
      var rows := if s.Wake? then Moved(t.rows, s.song, Queued) else t.rows;
      assert DistinctSeqs(rows);
      RecalculateKeeps(t, rows);
      RecalculationIsDense(rows);
      hide PositionsOk;
    } else {
      RowsKeep(t, s);
      hide PositionsOk;
    }
  }

  lemma SetKeeps(t: Table, a: Id, status: Status)
    requires PositionsOk(t) && status != Queued
    ensures PositionsOk(t.(rows := Set(t.rows, a, status)))
  {
    hide Rank;
    if a in t.rows { OneRowKeeps(t, a, t.rows[a].(status := status, position := None), t.nextSeq); }
  }

  /** Over every run of statements: positions are held by queued rows only, in submission order, and
      nobody is ever shown a better place than their own. */
  lemma {:induction false} PositionsAlways(t: Table, ss: seq<Statement>)
    requires PositionsOk(t)
    ensures PositionsOk(Exec(t, ss))
    decreases |ss|
  {
    hide PositionsOk, Step;
    if ss != [] {
      StepKeeps(t, ss[0]);
      PositionsAlways(Step(t, ss[0]), ss[1..]);
    }
  }

  lemma PositionsFromEmpty(ss: seq<Statement>)
    ensures PositionsOk(Exec(Table(map[], 0), ss))
  {
    PositionsAlways(Table(map[], 0), ss);
  }

  /** What a recalculation reports, for rows moved around within a sound table. */
  lemma OnlyQueuedChange(t: Table, rows: map<Id, Row>)
    requires PositionsOk(t) && rows.Keys == t.rows.Keys
    requires forall a :: a in rows ==> rows[a].queueSeq == t.rows[a].queueSeq
    ensures var after, changed := Recalculated(rows), Changed(rows);
            && after.Keys == rows.Keys && changed.Keys <= rows.Keys
            && (forall a :: a in rows ==> (a in changed <==> after[a].position != rows[a].position))
            && (forall a :: a in changed ==> after[a].position == Some(changed[a]))
            && (forall a :: a in rows ==> after[a].status == rows[a].status && after[a].queueSeq == rows[a].queueSeq)
            && (forall a :: a in rows && rows[a].status == Queued ==> after[a].position.Some?)
  {
    RecalculationIsDense(rows);
    RecalculatedReranks(rows);
    hide Rank;
  }

  lemma WokenHadNone(t: Table, song: Id)
    requires PositionsOk(t)
    ensures forall a :: a in t.rows && t.rows[a].status == WaitingForReference ==> t.rows[a].position == None
  {
  }

  /** What the worker's statements do to each row: a mark sets its own row's status and takes its place away, a
      failed preparation fails exactly the rows waiting for the song, a wake queues exactly those and places every
      queued row at its rank; nothing else of any row changes. */
  lemma StatementsExactly(t: Table, s: Statement, a: Id)
    requires a in t.rows && (s.MarkProcessing? || s.MarkDone? || s.MarkFailed? || s.FailWaiting? || s.Wake?)
    ensures var u, row := Step(t, s), t.rows[a];
            && u.rows.Keys == t.rows.Keys && u.nextSeq == t.nextSeq
            && var waits := row.status == WaitingForReference && (s.FailWaiting? || s.Wake?) && row.song == s.song;
               match s
               case MarkProcessing(b) =>
                 u.rows[a] == if a == b then row.(status := Processing, position := None) else row
               case MarkDone(b) => u.rows[a] == if a == b then row.(status := Done, position := None) else row
               case MarkFailed(b) => u.rows[a] == if a == b then row.(status := Failed, position := None) else row
               case FailWaiting(song) => u.rows[a] == if waits then row.(status := Failed) else row
               case Wake(song) =>
                 && u.rows[a] == row.(status := if waits then Queued else row.status, position := u.rows[a].position)
                 && (u.rows[a].status == Queued ==> u.rows[a].position == Some(Rank(u.rows, a)))
                 && (u.rows[a].status != Queued ==> u.rows[a].position == row.position)
               case _ => true
  {
    if s.Wake? {
      var moved := Moved(t.rows, s.song, Queued);
      RecalculatedReranks(moved);
      SameRanks(moved, Recalculated(moved));
      hide Rank, Recalculated;
    }
  }

  // ---------------------------------------------------------------- the repository itself

  /** Collects the returned rows one by one, in whatever order they come. */
  method Collect(returned: map<Id, nat>) returns (changed: map<Id, nat>)
    ensures changed == returned
  {
    changed := map[];
    var left := returned.Keys;
    while left != {}
      invariant left <= returned.Keys && changed.Keys == returned.Keys - left
      invariant forall a :: a in changed ==> changed[a] == returned[a]
      decreases |left|
    {
      var id :| id in left;
      changed := changed[id := returned[id]];
      left := left - {id};
    }
  }

  class AnalysisRepository {
    var rows: map<Id, Row>
    var nextSeq: nat

    constructor ()
      ensures State() == Table(map[], 0)
    {
      rows, nextSeq := map[], 0;
    }

    function State(): Table
      reads this
    {
      Table(rows, nextSeq)
    }

    /** One `WITH ranked ... UPDATE ... RETURNING`, then the loop that collects the returned rows, which
        come back in any order. */
    method RecalculatePositions() returns (changed: map<Id, nat>)
      requires PositionsOk(State())
      modifies this`rows
      ensures State() == Step(old(State()), Recalculate) && PositionsOk(State()) && Dense(rows)
      ensures forall a :: a in rows ==> (a in changed <==> rows[a].position != old(rows)[a].position)
      ensures forall a :: a in changed ==> a in rows && rows[a].position == Some(changed[a])
    {
      hide PositionsOk, Dense, Rank, Changed;
      StepKeeps(State(), Recalculate);
      OnlyQueuedChange(State(), rows);
      var returned := Changed(rows);
      rows := Recalculated(rows);
      hide Recalculated;
      changed := Collect(returned);
    }

    /** `wake_waiting_for_reference`: both statements in one transaction. */
    method WakeWaitingForReference(song: Id) returns (newlyQueued: set<Id>, changed: map<Id, nat>)
      requires PositionsOk(State())
      modifies this`rows
      ensures State() == Step(old(State()), Wake(song)) && PositionsOk(State()) && Dense(rows)
      ensures newlyQueued
           == set a | a in old(rows) && old(rows)[a].status == WaitingForReference && old(rows)[a].song == song
      ensures forall a :: a in newlyQueued ==>
                            a in changed && rows[a].status == Queued && rows[a].queueSeq == old(rows)[a].queueSeq
      ensures forall a :: a in changed <==> a in rows && rows[a].position != old(rows)[a].position
      ensures forall a :: a in changed ==> rows[a].position == Some(changed[a])
    {
      hide PositionsOk, Dense, Rank, Changed, Recalculated;
      StepKeeps(State(), Wake(song));
      WokenHadNone(State(), song);
      newlyQueued := set a | a in rows && rows[a].status == WaitingForReference && rows[a].song == song;
      rows := Moved(rows, song, Queued);
      OnlyQueuedChange(old(State()), rows);
      changed := Changed(rows);
      rows := Recalculated(rows);
    }

    method Create(a: Id, song: Id, ready: bool)
      requires a !in rows
      modifies this
      ensures State() == Step(old(State()), Statement.Create(a, song, ready))
      ensures nextSeq == old(nextSeq) + 1
      ensures rows == old(rows)[a := Row(song, if ready then Queued else WaitingForReference, old(nextSeq), None)]
    {
      rows := rows[a := Row(song, if ready then Queued else WaitingForReference, nextSeq, None)];
      nextSeq := nextSeq + 1;
    }

    method Cancel(a: Id) returns (ok: bool)
      modifies this`rows
      ensures State() == Step(old(State()), Statement.Cancel(a))
      ensures ok <==> a in old(rows) && old(rows)[a].status in {Queued, WaitingForReference}
      ensures rows == if ok then old(rows)[a := Row(old(rows)[a].song, Canceled, old(rows)[a].queueSeq, None)]
                      else old(rows)
    {
      ok := a in rows && rows[a].status in {Queued, WaitingForReference};
      if ok { rows := rows[a := rows[a].(status := Canceled, position := None)]; }
    }

    method Retry(a: Id, ready: bool) returns (ok: bool)
      modifies this
      ensures State() == Step(old(State()), Statement.Retry(a, ready))
      ensures ok <==> a in old(rows) && old(rows)[a].status == Failed
      ensures !ok ==> State() == old(State())
      ensures ok ==>
                && nextSeq == old(nextSeq) + 1
                && rows == old(rows)[a := Row(old(rows)[a].song, if ready then Queued else WaitingForReference,
                                              old(nextSeq), None)]
    {
      ok := a in rows && rows[a].status == Failed;
      if ok {
        rows := rows[a := Requeued(rows[a], ready, nextSeq)];
        nextSeq := nextSeq + 1;
      }
    }
  }
}
