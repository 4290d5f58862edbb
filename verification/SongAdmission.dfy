/** Admission of uploaded songs under concurrency. There is no pre-check here, and uploads of the same audio
    share one row: the second caller is handed the first one's, which the first one may still roll back. */
module SongAdmission {
  import opened Basics

  type Caller = nat
  type Hash = nat
  type Job = nat
  type AnalysisId = nat

  /** Where one upload is; the row it created is found under its content hash. */
  datatype Progress =
    | Fresh
    | FileWritten
    | RowCreated(hash: Hash)
    | Admitted
    | Refused(hash: Hash)
    | FileRemoved(hash: Hash)
    | AnsweredFull
    | AnsweredExisting

  /** `owner` is the songs table: for each content hash the upload whose row it is. `given` is the row an
      upload of known audio was answered with, `analyses` the song row of each analysis. */
  datatype Shared = Shared(admitted: set<Caller>, published: set<Job>, owner: map<Hash, Caller>, files: set<Caller>,
                           given: map<Caller, Caller>, analyses: map<AnalysisId, Caller>, at: map<Caller, Progress>)

  function Length(s: Shared): nat {
    |s.admitted| + |s.published|
  }

  function At(s: Shared, c: Caller): Progress {
    if c in s.at then s.at[c] else Fresh
  }

  predicate HasRow(s: Shared, c: Caller) {
    exists h :: h in s.owner && s.owner[h] == c
  }

  datatype Move =
    | WriteFile(caller: Caller)
    | GetOrCreate(caller: Caller, hash: Hash)
    | RunScript(caller: Caller)
    | RemoveFile(caller: Caller)
    | DeleteRow(caller: Caller)
    | Submit(analysis: AnalysisId, song: Caller)
    | Publish(job: Job)
    | ConsumeAdmitted(caller: Caller)
    | ConsumePublished(job: Job)

  function Go(s: Shared, c: Caller, p: Progress): Shared {
    s.(at := s.at[c := p])
  }

  /** Deleting a song row deletes its analyses with it. */
  function Cascade(analyses: map<AnalysisId, Caller>, song: Caller): map<AnalysisId, Caller> {
    map a | a in analyses && analyses[a] != song :: analyses[a]
  }

  function Step(s: Shared, maxLen: nat, m: Move): Shared {
    match m
    case WriteFile(c) => if At(s, c) != Fresh then s else Go(s, c, FileWritten).(files := s.files + {c})
    case GetOrCreate(c, h) =>
      if At(s, c) != FileWritten then s
      else if h in s.owner then
        Go(s, c, AnsweredExisting).(files := s.files - {c}, given := s.given[c := s.owner[h]])
      else Go(s, c, RowCreated(h)).(owner := s.owner[h := c])
    case RunScript(c) =>
      if !At(s, c).RowCreated? then s
      else if Length(s) >= maxLen then Go(s, c, Refused(At(s, c).hash))
      else Go(s, c, Admitted).(admitted := s.admitted + {c})
    case RemoveFile(c) =>
      if !At(s, c).Refused? then s else Go(s, c, FileRemoved(At(s, c).hash)).(files := s.files - {c})
    case DeleteRow(c) =>
      if !At(s, c).FileRemoved? then s
      else Go(s, c, AnsweredFull).(owner := s.owner - {At(s, c).hash}, analyses := Cascade(s.analyses, c))
    case Submit(a, song) =>
      if a in s.analyses || !HasRow(s, song) then s else s.(analyses := s.analyses[a := song])
    case Publish(job) => s.(published := s.published + {job})
    case ConsumeAdmitted(c) => s.(admitted := s.admitted - {c})
    case ConsumePublished(job) => s.(published := s.published - {job})
  }

  function Exec(s: Shared, maxLen: nat, moves: seq<Move>): Shared
    decreases |moves|
  {
    if moves == [] then s else Exec(Step(s, maxLen, moves[0]), maxLen, moves[1..])
  }

  function Start(): Shared {
    Shared({}, {}, map[], {}, map[], map[], map[])
  }

  // ---------------------------------------------------------------- what every interleaving keeps

  predicate Created(p: Progress) {
    p.RowCreated? || p.Admitted? || p.Refused? || p.FileRemoved? || p.AnsweredFull?
  }

  /** What an upload has in the system at each point. */
  predicate Holds(s: Shared, c: Caller) {
    match At(s, c)
    case Fresh => !HasRow(s, c) && c !in s.files && c !in s.admitted
    case FileWritten => !HasRow(s, c) && c in s.files && c !in s.admitted
    case RowCreated(h) => h in s.owner && s.owner[h] == c && c in s.files && c !in s.admitted
    case Admitted => HasRow(s, c) && c in s.files
    case Refused(h) => h in s.owner && s.owner[h] == c && c in s.files && c !in s.admitted
    case FileRemoved(h) => h in s.owner && s.owner[h] == c && c !in s.files && c !in s.admitted
    case AnsweredFull => !HasRow(s, c) && c !in s.files && c !in s.admitted
    case AnsweredExisting => !HasRow(s, c) && c !in s.files && c !in s.admitted
  }

  ghost predicate Sound(s: Shared, maxLen: nat) {
    && |s.admitted| <= maxLen
    && (forall c :: Holds(s, c))
    && (forall g, h :: g in s.owner && h in s.owner && s.owner[g] == s.owner[h] ==> g == h)
    && (forall d :: d in s.given ==> Created(At(s, s.given[d])))
    && (forall a :: a in s.analyses ==> HasRow(s, s.analyses[a]))
  }

  lemma CreatedRow(s: Shared, c: Caller, h: Hash, d: Caller)
    requires h !in s.owner
    ensures HasRow(s.(owner := s.owner[h := c]), d) <==> HasRow(s, d) || d == c
  {
    var t := s.(owner := s.owner[h := c]);
    assert h in t.owner && t.owner[h] == c;
    if HasRow(s, d) {
      var g :| g in s.owner && s.owner[g] == d;
      assert g in t.owner && t.owner[g] == d;
    }
  }

  lemma DeletedRow(s: Shared, h: Hash, d: Caller)
    requires h in s.owner
    requires forall g :: g in s.owner && s.owner[g] == s.owner[h] ==> g == h
    ensures HasRow(s.(owner := s.owner - {h}), d) <==> HasRow(s, d) && d != s.owner[h]
  {
    var t := s.(owner := s.owner - {h});
    if HasRow(s, d) && d != s.owner[h] {
      var g :| g in s.owner && s.owner[g] == d;
      assert g in t.owner && t.owner[g] == d;
    }
  }

  /** How a move changes which rows exist. */
  lemma RowsMove(s: Shared, maxLen: nat, m: Move, d: Caller)
    requires Sound(s, maxLen)
    ensures var t := Step(s, maxLen, m);
            HasRow(t, d) <==>
            (HasRow(s, d) || (m.GetOrCreate? && m.caller == d && At(t, d).RowCreated?))
            && !(m.DeleteRow? && m.caller == d && At(s, d).FileRemoved?)
  {
    hide Length;
    match m
    case GetOrCreate(c, h) =>
      assert Holds(s, d);
      if At(s, c) == FileWritten && h !in s.owner { CreatedRow(s, c, h, d); }
    case DeleteRow(c) =>
      assert Holds(s, c);
      if At(s, c).FileRemoved? { DeletedRow(s, At(s, c).hash, d); }
    case WriteFile(c) =>
    case RunScript(c) => assert Holds(s, d);
    case RemoveFile(c) =>
    case Submit(a, song) =>
    case Publish(job) =>
    case ConsumeAdmitted(c) =>
    case ConsumePublished(job) =>
  }

  predicate Acts(m: Move, c: Caller) {
    (m.WriteFile? || m.GetOrCreate? || m.RunScript? || m.RemoveFile? || m.DeleteRow?) && m.caller == c
  }

  /** Another upload's move leaves an upload where it is, with what it holds. */
  lemma OtherHolds(s: Shared, maxLen: nat, m: Move, c: Caller)
    requires Sound(s, maxLen) && !Acts(m, c)
    ensures Holds(Step(s, maxLen, m), c)
  {
    RowsMove(s, maxLen, m, c);
    assert Holds(s, c);
    if m.DeleteRow? { assert Holds(s, m.caller); }
    hide Length, HasRow, Sound;
    assert At(Step(s, maxLen, m), c) == At(s, c);
  }

  lemma OwnHolds(s: Shared, maxLen: nat, m: Move, c: Caller)
    requires Sound(s, maxLen) && Acts(m, c)
    ensures Holds(Step(s, maxLen, m), c)
  {
    RowsMove(s, maxLen, m, c);
    assert Holds(s, c);
    hide Length, Sound;
    var t := Step(s, maxLen, m);
    if t.owner == s.owner && At(s, c).RowCreated? { assert HasRow(t, c); }
    hide HasRow;
  }

  lemma StepHolds(s: Shared, maxLen: nat, m: Move, c: Caller)
    requires Sound(s, maxLen)
    ensures Holds(Step(s, maxLen, m), c)
  {
    hide Holds, Step, Sound;
    if Acts(m, c) { OwnHolds(s, maxLen, m, c); } else { OtherHolds(s, maxLen, m, c); }
  }

  lemma StepKeeps(s: Shared, maxLen: nat, m: Move)
    requires Sound(s, maxLen)
    ensures Sound(Step(s, maxLen, m), maxLen)
  {
    var t := Step(s, maxLen, m);
    forall c ensures Holds(t, c) { StepHolds(s, maxLen, m, c); }
    forall a | a in t.analyses ensures HasRow(t, t.analyses[a]) {
      RowsMove(s, maxLen, m, t.analyses[a]);
    }
    LengthKeeps(s, maxLen, m);
    GivenKeeps(s, maxLen, m);
    OwnersKeep(s, maxLen, m);
    hide HasRow, Holds, Step;
  }

  lemma LengthKeeps(s: Shared, maxLen: nat, m: Move)
    requires |s.admitted| <= maxLen
    ensures |Step(s, maxLen, m).admitted| <= maxLen
  {
    hide HasRow;
    if m.RunScript? { assert |s.admitted + {m.caller}| <= |s.admitted| + 1; }
    if m.ConsumeAdmitted? && m.caller in s.admitted { assert |s.admitted - {m.caller}| == |s.admitted| - 1; }
  }

  lemma CreatedStays(s: Shared, maxLen: nat, m: Move, c: Caller)
    requires Created(At(s, c))
    ensures Created(At(Step(s, maxLen, m), c))
  {
    hide HasRow, Length, Cascade;
  }

  lemma GivenKeeps(s: Shared, maxLen: nat, m: Move)
    requires Sound(s, maxLen)
    ensures var t := Step(s, maxLen, m);
            forall d :: d in t.given ==> Created(At(t, t.given[d]))
  {
    var t := Step(s, maxLen, m);
    if m.GetOrCreate? && m.hash in s.owner { OwnerCreated(s, maxLen, m.hash); }
    forall c | Created(At(s, c)) ensures Created(At(t, c)) { CreatedStays(s, maxLen, m, c); }
    hide HasRow, Length, Holds, Created, At, Cascade;
  }

  lemma OwnerCreated(s: Shared, maxLen: nat, h: Hash)
    requires Sound(s, maxLen) && h in s.owner
    ensures Holds(s, s.owner[h]) && Created(At(s, s.owner[h])) && HasRow(s, s.owner[h])
  {
    assert HasRow(s, s.owner[h]);
    assert Holds(s, s.owner[h]);
  }

  lemma OwnersKeep(s: Shared, maxLen: nat, m: Move)
    requires Sound(s, maxLen)
    ensures var t := Step(s, maxLen, m);
            forall g, h :: g in t.owner && h in t.owner && t.owner[g] == t.owner[h] ==> g == h
  {
    if m.GetOrCreate? && At(s, m.caller) == FileWritten {
      assert Holds(s, m.caller);
      assert forall g :: g in s.owner && s.owner[g] == m.caller ==> HasRow(s, m.caller);
    }
    hide Length, HasRow, Holds;
  }

  lemma {:induction false} SoundAlways(s: Shared, maxLen: nat, moves: seq<Move>)
    requires Sound(s, maxLen)
    ensures Sound(Exec(s, maxLen, moves), maxLen)
    decreases |moves|
  {
    hide Sound, Step;
    if moves != [] {
      StepKeeps(s, maxLen, moves[0]);
      SoundAlways(Step(s, maxLen, moves[0]), maxLen, moves[1..]);
    }
  }

  /** For every interleaving songs:prep is at most `maxLen` longer than its unconditional entries. */
  lemma NeverOverfull(maxLen: nat, moves: seq<Move>)
    ensures Length(Exec(Start(), maxLen, moves)) <= maxLen + |Exec(Start(), maxLen, moves).published|
  {
    SoundAlways(Start(), maxLen, moves);
  }

  /** The script admits an upload exactly when the stream is under its cap, and then adds exactly its entry; known audio
      is answered with the row of its content hash, new audio gets a row of its own. */
  lemma AnswersExactly(s: Shared, maxLen: nat, c: Caller, hash: Hash)
    ensures At(s, c).RowCreated? ==>
              var t := Step(s, maxLen, RunScript(c));
              if Length(s) < maxLen then At(t, c) == Admitted && t == s.(admitted := s.admitted + {c}, at := t.at)
              else At(t, c) == Refused(At(s, c).hash) && t == s.(at := t.at)
    ensures At(s, c) == FileWritten ==>
              var t := Step(s, maxLen, GetOrCreate(c, hash));
              if hash in s.owner then
                && At(t, c) == AnsweredExisting && c in t.given && t.given[c] == s.owner[hash] && t.owner == s.owner
                && c !in t.files
              else At(t, c) == RowCreated(hash) && t == s.(owner := s.owner[hash := c], at := t.at)
  {
  }

  /** An upload answered "queue full" has left no row, file or entry of its own. */
  lemma RefusedLeaveNothing(maxLen: nat, moves: seq<Move>, c: Caller)
    ensures var s := Exec(Start(), maxLen, moves);
            At(s, c) == AnsweredFull ==> !HasRow(s, c) && c !in s.files && c !in s.admitted
  {
    SoundAlways(Start(), maxLen, moves);
    assert Holds(Exec(Start(), maxLen, moves), c);
  }

  // ---------------------------------------------------------------- the shared row

  /** The row an upload was handed is gone iff the upload that had created it was itself refused. */
  lemma HandedRowIsGoneExactly(maxLen: nat, moves: seq<Move>, d: Caller)
    ensures var s := Exec(Start(), maxLen, moves);
            d in s.given ==> (!HasRow(s, s.given[d]) <==> At(s, s.given[d]) == AnsweredFull)
  {
    SoundAlways(Start(), maxLen, moves);
    var s := Exec(Start(), maxLen, moves);
    if d in s.given {
      var o := s.given[d];
      assert Holds(s, o) && Created(At(s, o));
      if At(s, o).RowCreated? || At(s, o).Refused? || At(s, o).FileRemoved? {
        OwnerCreated(s, maxLen, At(s, o).hash);
      }
    }
  }

  /** What a rollback takes: the caller's own row and no other, and exactly the analyses created on it. It
      takes another upload's row iff that upload was handed this one. */
  lemma RollbackTakesExactly(s: Shared, maxLen: nat, c: Caller)
    requires Sound(s, maxLen) && At(s, c).FileRemoved?
    ensures var t := Step(s, maxLen, DeleteRow(c));
            && (forall o :: HasRow(t, o) <==> HasRow(s, o) && o != c)
            && (forall a :: a in t.analyses <==> a in s.analyses && s.analyses[a] != c)
            && (forall d :: d in s.given && HasRow(s, s.given[d]) ==> (!HasRow(t, s.given[d]) <==> s.given[d] == c))
  {
    assert Holds(s, c);
    forall o ensures HasRow(Step(s, maxLen, DeleteRow(c)), o) <==> HasRow(s, o) && o != c {
      RowsMove(s, maxLen, DeleteRow(c), o);
    }
    hide HasRow;
  }

  lemma ExecOne(s: Shared, maxLen: nat, m: Move, rest: seq<Move>)
    ensures Exec(s, maxLen, [m] + rest) == Exec(Step(s, maxLen, m), maxLen, rest)
  {
    hide Step;
    assert ([m] + rest)[1..] == rest;
  }

  lemma ExecNone(s: Shared, maxLen: nat)
    ensures Exec(s, maxLen, []) == s
  {
  }

  /** One upload while the stream is full: its row is created. */
  const FIRST: seq<Move> := [Publish(0)] + ([WriteFile(1)] + ([GetOrCreate(1, 7)] + []))
  /** A second upload of the same audio is handed that row, and an analysis is created on it. */
  const SECOND: seq<Move> := [WriteFile(2)] + ([GetOrCreate(2, 7)] + ([Submit(5, 1)] + []))
  /** The script refuses the first upload, which rolls back. */
  const ROLLBACK: seq<Move> := [RunScript(1)] + ([RemoveFile(1)] + ([DeleteRow(1)] + []))

  lemma ExecThree(s: Shared, maxLen: nat, a: Move, b: Move, c: Move)
    ensures Exec(s, maxLen, [a] + ([b] + ([c] + []))) == Step(Step(Step(s, maxLen, a), maxLen, b), maxLen, c)
  {
    hide Step;
    ExecOne(s, maxLen, a, [b] + ([c] + []));
    ExecOne(Step(s, maxLen, a), maxLen, b, [c] + []);
    ExecOne(Step(Step(s, maxLen, a), maxLen, b), maxLen, c, []);
    ExecNone(Step(Step(Step(s, maxLen, a), maxLen, b), maxLen, c), maxLen);
  }

  lemma FirstUpload()
    ensures Exec(Start(), 1, FIRST) == Shared({}, {0}, map[7 := 1], {1}, map[], map[], map[1 := RowCreated(7)])
  {
    hide Exec, HasRow;
    ExecThree(Start(), 1, Publish(0), WriteFile(1), GetOrCreate(1, 7));
  }

  lemma SecondUpload(s: Shared)
    requires s == Shared({}, {0}, map[7 := 1], {1}, map[], map[], map[1 := RowCreated(7)])
    ensures Exec(s, 1, SECOND)
            == Shared({}, {0}, map[7 := 1], {1}, map[2 := 1], map[5 := 1],
                      map[1 := RowCreated(7), 2 := AnsweredExisting])
  {
    hide Exec;
    ExecThree(s, 1, WriteFile(2), GetOrCreate(2, 7), Submit(5, 1));
    var t := Step(Step(s, 1, WriteFile(2)), 1, GetOrCreate(2, 7));
    assert t == Shared({}, {0}, map[7 := 1], {1}, map[2 := 1], map[], map[1 := RowCreated(7), 2 := AnsweredExisting]);
    assert t.owner[7] == 1 && HasRow(t, 1);
  }

  lemma Rollback(s: Shared)
    requires s == Shared({}, {0}, map[7 := 1], {1}, map[2 := 1], map[5 := 1],
                         map[1 := RowCreated(7), 2 := AnsweredExisting])
    ensures var t := Exec(s, 1, ROLLBACK);
            t == Shared({}, {0}, map[], {}, map[2 := 1], map[], map[1 := AnsweredFull, 2 := AnsweredExisting])
  {
    hide Exec, HasRow, Step;
    ExecThree(s, 1, RunScript(1), RemoveFile(1), DeleteRow(1));
    RefusedAndRemoved(s);
    RowDeleted(Step(Step(s, 1, RunScript(1)), 1, RemoveFile(1)));
  }

  lemma RefusedAndRemoved(s: Shared)
    requires s == Shared({}, {0}, map[7 := 1], {1}, map[2 := 1], map[5 := 1],
                         map[1 := RowCreated(7), 2 := AnsweredExisting])
    ensures Step(Step(s, 1, RunScript(1)), 1, RemoveFile(1))
            == Shared({}, {0}, map[7 := 1], {}, map[2 := 1], map[5 := 1],
                      map[1 := FileRemoved(7), 2 := AnsweredExisting])
  {
  }

  lemma RowDeleted(t: Shared)
    requires t == Shared({}, {0}, map[7 := 1], {}, map[2 := 1], map[5 := 1],
                         map[1 := FileRemoved(7), 2 := AnsweredExisting])
    ensures Step(t, 1, DeleteRow(1))
            == Shared({}, {0}, map[], {}, map[2 := 1], map[], map[1 := AnsweredFull, 2 := AnsweredExisting])
  {
    assert t.owner - {7} == map[] && Cascade(t.analyses, 1) == map[];
  }

  /** The shared row concretely: after these moves the row and the analysis are gone, although the second
      caller was told the song exists. */
  lemma SharedRowIsRolledBack()
    ensures var t := Exec(Exec(Exec(Start(), 1, FIRST), 1, SECOND), 1, ROLLBACK);
            && At(t, 2) == AnsweredExisting && 2 in t.given && t.given[2] == 1
            && At(t, 1) == AnsweredFull && !HasRow(t, 1) && t.analyses == map[]
  {
    hide Exec;
    FirstUpload();
    var s := Exec(Start(), 1, FIRST);
    SecondUpload(s);
    Rollback(Exec(s, 1, SECOND));
  }
}
