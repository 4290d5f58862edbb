/** The stage runner (worker/src/vocalcoach/pipeline/runner.py, pipeline/base.py, models/context.py):
    stage order, mode filtering, parallel groups, retries, optional stages, durable progress. */
module Runner {
  import opened Basics

  type Name = string

  datatype Mode = Clean | Mixed

  datatype PipelineError = Logical(code: string) | Transient(code: string)

  /** A finished stage: its data, or the reason an optional one was skipped. */
  datatype StageResult<D> = Finished(stage: Name, data: D) | Skipped(stage: Name, errorCode: string)

  /** The results recorded so far; `with_result` is map update. */
  type Context<D> = map<Name, StageResult<D>>

  /** `attempt(context, k)` is what the stage's subprocess reports on its `k`-th try of one entry. */
  datatype Stage<!D> = Stage(name: Name, required: bool, modes: set<Mode>,
                             attempt: (Context<D>, nat) -> Result<D, PipelineError>)

  datatype Entry<!D> = Single(stage: Stage<D>) | ParallelGroup(stages: seq<Stage<D>>)

  datatype RunOutcome = Completed | Interrupted | Failed(error: PipelineError)

  const MAX_STAGE_RETRIES := 2

  // ---------------------------------------------------------------- entries

  function Members<D>(entry: Entry<D>): seq<Stage<D>> {
    match entry
    case Single(stage) => [stage]
    case ParallelGroup(stages) => stages
  }

  function Flatten<D>(entries: seq<Entry<D>>): seq<Stage<D>> {
    if entries == [] then [] else Members(entries[0]) + Flatten(entries[1..])
  }

  function WithoutStages<D>(stages: seq<Stage<D>>, done: Context<D>): seq<Stage<D>> {
    if stages == [] then []
    else (if stages[0].name in done then [] else [stages[0]]) + WithoutStages(stages[1..], done)
  }

  /** The entries still to run: finished stages dropped, a group with none left dropped whole. */
  function RemainingEntries<D>(entries: seq<Entry<D>>, done: Context<D>): seq<Entry<D>> {
    if entries == [] then []
    else
      var rest := RemainingEntries(entries[1..], done);
      match entries[0]
      case Single(stage) => if stage.name in done then rest else [entries[0]] + rest
      case ParallelGroup(stages) =>
        var members := WithoutStages(stages, done);
        if members == [] then rest else [ParallelGroup(members)] + rest
  }

  function StagesOfMode<D>(stages: seq<Stage<D>>, mode: Mode): seq<Stage<D>> {
    if stages == [] then []
    else (if mode in stages[0].modes then [stages[0]] else []) + StagesOfMode(stages[1..], mode)
  }

  /** The entries active in `mode`; `None` is the cold path, which runs every stage. */
  function StagesForMode<D>(entries: seq<Entry<D>>, mode: Option<Mode>): seq<Entry<D>> {
    if mode.None? || entries == [] then entries
    else
      var rest := StagesForMode(entries[1..], mode);
      match entries[0]
      case Single(stage) => if mode.value in stage.modes then [entries[0]] + rest else rest
      case ParallelGroup(stages) =>
        var members := StagesOfMode(stages, mode.value);
        if members == [] then rest else [ParallelGroup(members)] + rest
  }

  function Names<D>(stages: seq<Stage<D>>): (names: seq<Name>)
    ensures |names| == |stages| && forall i :: 0 <= i < |names| ==> names[i] == stages[i].name
  {
    seq(|stages|, i requires 0 <= i < |stages| => stages[i].name)
  }

  ghost predicate UniqueNames<D>(entries: seq<Entry<D>>) {
    var flat := Flatten(entries);
    forall i, j :: 0 <= i < j < |flat| ==> flat[i].name != flat[j].name
  }

  // ---------------------------------------------------------------- one entry

  /** A failure for good: fatal for a required stage, a recorded skip for an optional one. */
  function GiveUp<D>(stage: Stage<D>, error: PipelineError): Result<StageResult<D>, PipelineError> {
    if stage.required then Err(error) else Ok(Skipped(stage.name, error.code))
  }

  /** Tries number `k`, `k + 1`, ... with `left` more allowed after the first. */
  function StageOutcome<D>(stage: Stage<D>, context: Context<D>, k: nat,
                           left: nat): Result<StageResult<D>, PipelineError>
    decreases left
  {
    match stage.attempt(context, k)
    case Ok(data) => Ok(Finished(stage.name, data))
    case Err(Logical(code)) => GiveUp(stage, Logical(code))
    case Err(Transient(code)) =>
      if left == 0 then GiveUp(stage, Transient(code)) else StageOutcome(stage, context, k + 1, left - 1)
  }

  method RunStageWithRetries<D>(stage: Stage<D>, context: Context<D>, first: nat)
    returns (r: Result<StageResult<D>, PipelineError>)
    ensures r == StageOutcome(stage, context, first, MAX_STAGE_RETRIES)
  {
    var attempt := 0;
    while true
      invariant 0 <= attempt <= MAX_STAGE_RETRIES
      invariant StageOutcome(stage, context, first, MAX_STAGE_RETRIES)
                == StageOutcome(stage, context, first + attempt, MAX_STAGE_RETRIES - attempt)
      decreases MAX_STAGE_RETRIES - attempt
    {
      match stage.attempt(context, first + attempt) {
        case Ok(data) =>
          return Ok(Finished(stage.name, data));
        case Err(Logical(code)) =>
          return GiveUp(stage, Logical(code));
        case Err(Transient(code)) =>
          attempt := attempt + 1;
          if attempt > MAX_STAGE_RETRIES {
            return GiveUp(stage, Transient(code));
          }
      }
    }
  }

  /** One member of a group: its concurrent run, then alone with the usual retries. */
  function MemberOutcome<D>(stage: Stage<D>, context: Context<D>): Result<StageResult<D>, PipelineError> {
    match stage.attempt(context, 0)
    case Ok(data) => Ok(Finished(stage.name, data))
    case Err(Logical(code)) => GiveUp(stage, Logical(code))
    case Err(Transient(_)) => StageOutcome(stage, context, 1, MAX_STAGE_RETRIES)
  }

  /** All members see the same context; the first fatal one fails the group. */
  function GroupOutcome<D>(stages: seq<Stage<D>>, context: Context<D>): Result<seq<StageResult<D>>, PipelineError> {
    if stages == [] then Ok([])
    else match MemberOutcome(stages[0], context)
      case Err(e) => Err(e)
      case Ok(result) =>
        match GroupOutcome(stages[1..], context)
        case Err(e) => Err(e)
        case Ok(results) => Ok([result] + results)
  }

  function AfterPrefix<D>(prefix: seq<StageResult<D>>, r: Result<seq<StageResult<D>>, PipelineError>)
    : (s: Result<seq<StageResult<D>>, PipelineError>)
    ensures prefix == [] ==> s == r
  {
    match r
    case Err(e) => Err(e)
    case Ok(results) =>
      assert [] + results == results;
      Ok(prefix + results)
  }

  function EntryOutcome<D>(entry: Entry<D>, context: Context<D>): Result<seq<StageResult<D>>, PipelineError> {
    match entry
    case Single(stage) =>
      (match StageOutcome(stage, context, 0, MAX_STAGE_RETRIES)
       case Err(e) => Err(e)
       case Ok(result) => Ok([result]))
    case ParallelGroup(stages) => GroupOutcome(stages, context)
  }

  /** Every member's concurrent first try. */
  method StartGroup<D>(stages: seq<Stage<D>>, context: Context<D>) returns (outcomes: seq<Result<D, PipelineError>>)
    ensures |outcomes| == |stages|
    ensures forall i :: 0 <= i < |stages| ==> outcomes[i] == stages[i].attempt(context, 0)
  {
    outcomes := [];
    for i := 0 to |stages|
      invariant |outcomes| == i
      invariant forall j :: 0 <= j < i ==> outcomes[j] == stages[j].attempt(context, 0)
    {
      outcomes := outcomes + [stages[i].attempt(context, 0)];
    }
  }

  /** Settles one member from its first try. */
  method SettleMember<D>(stage: Stage<D>, context: Context<D>, outcome: Result<D, PipelineError>)
    returns (r: Result<StageResult<D>, PipelineError>)
    requires outcome == stage.attempt(context, 0)
    ensures r == MemberOutcome(stage, context)
  {
    if outcome.Ok? {
      return Ok(Finished(stage.name, outcome.value));
    }
    if outcome.error.Logical? {
      return GiveUp(stage, outcome.error);
    }
    r := RunStageWithRetries(stage, context, 1);
  }

  method RunGroupWithRetries<D>(stages: seq<Stage<D>>, context: Context<D>)
    returns (r: Result<seq<StageResult<D>>, PipelineError>)
    ensures r == GroupOutcome(stages, context)
  {
    hide MemberOutcome;
    var outcomes := StartGroup(stages, context);
    var results: seq<StageResult<D>> := [];
    for i := 0 to |stages|
      invariant AfterPrefix(results, GroupOutcome(stages[i..], context)) == GroupOutcome(stages, context)
    {
      assert stages[i..][1..] == stages[i + 1..];
      ghost var before, rest := results, GroupOutcome(stages[i + 1..], context);
      var result := SettleMember(stages[i], context, outcomes[i]);
      if result.Err? {
        return Err(result.error);
      }
      results := results + [result.value];
      assert rest.Ok? ==> results + rest.value == before + ([result.value] + rest.value);
    }
    assert stages[|stages|..] == [] && results + [] == results;
    return Ok(results);
  }

  method RunEntryWithRetries<D>(entry: Entry<D>, context: Context<D>)
    returns (r: Result<seq<StageResult<D>>, PipelineError>)
    ensures r == EntryOutcome(entry, context)
  {
    match entry {
      case Single(stage) =>
        var result := RunStageWithRetries(stage, context, 0);
        if result.Err? {
          return Err(result.error);
        }
        return Ok([result.value]);
      case ParallelGroup(stages) =>
        r := RunGroupWithRetries(stages, context);
    }
  }

  lemma {:induction false} GroupResults<D>(stages: seq<Stage<D>>, context: Context<D>)
    requires GroupOutcome(stages, context).Ok?
    ensures var r := GroupOutcome(stages, context).value;
            |r| == |stages| && forall i :: 0 <= i < |r| ==> MemberOutcome(stages[i], context) == Ok(r[i])
  {
    if stages != [] {
      GroupResults(stages[1..], context);
    }
  }

  // ---------------------------------------------------------------- one run

  /** Tries `k`, ..., `k + n - 1` were transient failures and try `k + n` decides; only the last allowed try
      may decide by failing transiently. */
  ghost predicate DecidedAt<D>(stage: Stage<D>, context: Context<D>, k: nat, n: nat, last: bool,
                               r: Result<StageResult<D>, PipelineError>) {
    && (forall j :: k <= j < k + n ==> IsTransient(stage.attempt(context, j)))
    && match stage.attempt(context, k + n)
       case Ok(data) => r == Ok(Finished(stage.name, data))
       case Err(e) =>
         && (e.Transient? ==> last)
         && r == if stage.required then Err(e) else Ok(Skipped(stage.name, e.code))
  }

  predicate IsTransient<D>(r: Result<D, PipelineError>) {
    r.Err? && r.error.Transient?
  }

  /** A stage is tried once and again only after a transient failure, at most `left` more times: three tries
      in all with the runner's limit. */
  lemma {:induction false} StageTries<D>(stage: Stage<D>, context: Context<D>, k: nat, left: nat) returns (n: nat)
    ensures n <= left && DecidedAt(stage, context, k, n, n == left, StageOutcome(stage, context, k, left))
    decreases left
  {
    n := 0;
    if left > 0 && IsTransient(stage.attempt(context, k)) {
      var m := StageTries(stage, context, k + 1, left - 1);
      n := m + 1;
    }
  }

  /** A group member gets one try more, the concurrent one. */
  lemma MemberTries<D>(stage: Stage<D>, context: Context<D>) returns (n: nat)
    ensures n <= MAX_STAGE_RETRIES + 1
    ensures DecidedAt(stage, context, 0, n, n == MAX_STAGE_RETRIES + 1, MemberOutcome(stage, context))
  {
    n := 0;
    if IsTransient(stage.attempt(context, 0)) {
      var m := StageTries(stage, context, 1, MAX_STAGE_RETRIES);
      n := m + 1;
    }
  }

  /** An optional stage never fails a run: it finishes or is skipped, on its own and inside a group. */
  lemma OptionalNeverFails<D>(stage: Stage<D>, context: Context<D>, k: nat, left: nat)
    requires !stage.required
    ensures StageOutcome(stage, context, k, left).Ok? && MemberOutcome(stage, context).Ok?
  {
    var n := StageTries(stage, context, k, left);
    var m := MemberTries(stage, context);
  }

  /** A group fails iff some member does, and then with the error of the first such member in group order. */
  lemma {:induction false} GroupFailsWithTheFirst<D>(stages: seq<Stage<D>>, context: Context<D>)
    ensures GroupOutcome(stages, context).Err? <==>
            exists i :: 0 <= i < |stages| && MemberOutcome(stages[i], context).Err?
    ensures GroupOutcome(stages, context).Err? ==>
              exists i :: && 0 <= i < |stages|
                          && MemberOutcome(stages[i], context) == Err(GroupOutcome(stages, context).error)
                          && forall j :: 0 <= j < i ==> MemberOutcome(stages[j], context).Ok?
  {
    hide MemberOutcome;
    if stages != [] && MemberOutcome(stages[0], context).Ok? {
      GroupFailsWithTheFirst(stages[1..], context);
      if GroupOutcome(stages[1..], context).Err? {
        var i :| && 0 <= i < |stages[1..]|
                 && MemberOutcome(stages[1..][i], context) == Err(GroupOutcome(stages[1..], context).error)
                 && forall j :: 0 <= j < i ==> MemberOutcome(stages[1..][j], context).Ok?;
        assert stages[i + 1] == stages[1..][i];
        assert forall j :: 0 < j <= i ==> stages[j] == stages[1..][j - 1];
      }
    }
  }

  function Extend<D>(context: Context<D>, results: seq<StageResult<D>>): Context<D>
    decreases |results|
  {
    if results == [] then context else Extend(context[results[0].stage := results[0]], results[1..])
  }

  /** The results an undisturbed run of `entries` saves, in order, and how it ends. */
  function Saves<D>(entries: seq<Entry<D>>, context: Context<D>): (r: (seq<StageResult<D>>, RunOutcome))
    ensures !r.1.Interrupted?
  {
    if entries == [] then ([], Completed)
    else match EntryOutcome(entries[0], context)
      case Err(e) => ([], Failed(e))
      case Ok(results) =>
        var rest := Saves(entries[1..], Extend(context, results));
        (results + rest.0, rest.1)
  }

  /** 1-based position of a stage in the flattened order of all active stages. */
  function Position(flat: seq<Name>, name: Name): nat {
    if flat == [] then 0 else if flat[|flat| - 1] == name then |flat| else Position(flat[..|flat| - 1], name)
  }

  /** What `save_stage_progress` writes: a result, the stage that comes next and its position. */
  datatype SaveWrite<D> = SaveWrite(result: StageResult<D>, next: Option<Name>, nextIndex: Option<nat>, total: nat)

  /** The `k`-th write of a run over the stages `remaining` out of all active stages `flat`. */
  function NthWrite<D>(flat: seq<Name>, remaining: seq<Name>, k: nat, result: StageResult<D>): SaveWrite<D> {
    var next := if k + 1 < |remaining| then Some(remaining[k + 1]) else None;
    SaveWrite(result, next, if next.Some? then Some(Position(flat, next.value)) else None, |flat|)
  }

  function Writes<D>(flat: seq<Name>, remaining: seq<Name>, results: seq<StageResult<D>>): (w: seq<SaveWrite<D>>)
    ensures |w| == |results|
    ensures forall k :: 0 <= k < |w| ==> w[k] == NthWrite(flat, remaining, k, results[k])
  {
    seq(|results|, k requires 0 <= k < |results| => NthWrite(flat, remaining, k, results[k]))
  }

  /** A `stage` event: which stage, its position, and out of how many. */
  datatype StageEvent = StageEvent(stage: Name, position: nat, total: nat)

  function Events(flat: seq<Name>, names: seq<Name>): (e: seq<StageEvent>)
    ensures |e| == |names|
  {
    seq(|names|, k requires 0 <= k < |names| => StageEvent(names[k], Position(flat, names[k]), |flat|))
  }

  /** A job's durable progress and the events published about it, at one moment. */
  datatype View<D> = View(saved: Context<D>, writes: seq<SaveWrite<D>>, current: Option<StageEvent>,
                          published: seq<StageEvent>)

  /** One job's durable progress and the events published about it. */
  class Progress<D> {
    var saved: Context<D>
    var writes: seq<SaveWrite<D>>
    var current: Option<StageEvent>
    var published: seq<StageEvent>

    constructor (done: Context<D>)
      ensures saved == done && writes == [] && published == [] && current == None
    {
      saved, writes, current, published := done, [], None, [];
    }

    function Now(): View<D>
      reads this
    {
      View(saved, writes, current, published)
    }

    method MarkProcessing(first: Name, stageIndex: nat, total: nat)
      modifies this`current
      ensures current == Some(StageEvent(first, stageIndex, total))
    {
      current := Some(StageEvent(first, stageIndex, total));
    }

    method PublishStage(stage: Name, position: nat, total: nat)
      modifies this`published
      ensures published == old(published) + [StageEvent(stage, position, total)]
    {
      published := published + [StageEvent(stage, position, total)];
    }

    method SaveStageProgress(result: StageResult<D>, next: Option<Name>, nextIndex: Option<nat>, total: nat)
      modifies this`saved, this`writes, this`current
      ensures saved == old(saved)[result.stage := result]
      ensures writes == old(writes) + [SaveWrite(result, next, nextIndex, total)]
      ensures current == if next.Some? && nextIndex.Some? then Some(StageEvent(next.value, nextIndex.value, total))
                         else None
    {
      saved := saved[result.stage := result];
      writes := writes + [SaveWrite(result, next, nextIndex, total)];
      current := if next.Some? && nextIndex.Some? then Some(StageEvent(next.value, nextIndex.value, total)) else None;
    }
  }

  // ---------------------------------------------------------------- resuming

  /** `c` and `d` agree on every stage that is not one of `stages`. */
  ghost predicate SameOutside<D>(stages: seq<Stage<D>>, c: Context<D>, d: Context<D>) {
    forall n :: n !in Names(stages) ==> (n in c <==> n in d) && (n in c ==> c[n] == d[n])
  }

  /** Stages of one entry do not read each other's results. */
  ghost predicate Independent<D(!new)>(stages: seq<Stage<D>>) {
    forall s, c, d | s in stages && SameOutside(stages, c, d) :: SameAttempts(s, c, d)
  }

  ghost predicate SameAttempts<D>(s: Stage<D>, c: Context<D>, d: Context<D>) {
    forall k: nat :: s.attempt(c, k) == s.attempt(d, k)
  }

  ghost predicate AllIndependent<D(!new)>(entries: seq<Entry<D>>) {
    forall e :: e in entries ==> Independent(Members(e))
  }

  lemma {:induction false} ExtendAppend<D>(c: Context<D>, r: seq<StageResult<D>>, t: seq<StageResult<D>>)
    ensures Extend(c, r + t) == Extend(Extend(c, r), t)
    decreases |r|
  {
    if r == [] {
      assert r + t == t;
    } else {
      assert (r + t)[1..] == r[1..] + t;
      ExtendAppend(c[r[0].stage := r[0]], r[1..], t);
    }
  }

  ghost predicate HasResult<D>(r: seq<StageResult<D>>, n: Name) {
    exists i :: 0 <= i < |r| && r[i].stage == n
  }

  /** Extending adds exactly the results' stages and leaves every other entry as it was. */
  lemma {:induction false} ExtendKeys<D>(c: Context<D>, r: seq<StageResult<D>>, n: Name)
    ensures n in Extend(c, r) <==> n in c || HasResult(r, n)
    ensures !HasResult(r, n) && n in c ==> Extend(c, r)[n] == c[n]
    decreases |r|
  {
    if r != [] {
      ExtendKeys(c[r[0].stage := r[0]], r[1..], n);
      assert HasResult(r, n) <==> r[0].stage == n || HasResult(r[1..], n) by {
        assert forall i :: 0 < i < |r| ==> r[i] == r[1..][i - 1];
      }
    }
  }

  lemma {:induction false} SameStageOutcome<D>(s: Stage<D>, c: Context<D>, d: Context<D>, k: nat, left: nat)
    requires SameAttempts(s, c, d)
    ensures StageOutcome(s, c, k, left) == StageOutcome(s, d, k, left)
    decreases left
  {
    assert s.attempt(c, k) == s.attempt(d, k);
    if left > 0 {
      SameStageOutcome(s, c, d, k + 1, left - 1);
    }
  }

  lemma SameMemberOutcome<D>(s: Stage<D>, c: Context<D>, d: Context<D>)
    requires SameAttempts(s, c, d)
    ensures MemberOutcome(s, c) == MemberOutcome(s, d)
  {
    assert s.attempt(c, 0) == s.attempt(d, 0);
    SameStageOutcome(s, c, d, 1, MAX_STAGE_RETRIES);
  }

  lemma {:induction false} GroupFromResults<D>(stages: seq<Stage<D>>, c: Context<D>, results: seq<StageResult<D>>)
    requires |results| == |stages| && forall i :: 0 <= i < |stages| ==> MemberOutcome(stages[i], c) == Ok(results[i])
    ensures GroupOutcome(stages, c) == Ok(results)
  {
    if stages != [] {
      GroupFromResults(stages[1..], c, results[1..]);
      assert results == [results[0]] + results[1..];
    }
  }

  /** The results of an entry are its members', in order. */
  lemma EntryResults<D>(entry: Entry<D>, c: Context<D>)
    requires EntryOutcome(entry, c).Ok?
    ensures var r, m := EntryOutcome(entry, c).value, Members(entry);
            |r| == |m| && forall i :: 0 <= i < |r| ==> r[i].stage == m[i].name
  {
    match entry
    case Single(stage) => StageResultName(stage, c, 0, MAX_STAGE_RETRIES);
    case ParallelGroup(stages) =>
      GroupResults(stages, c);
      forall i | 0 <= i < |stages|
        ensures EntryOutcome(entry, c).value[i].stage == stages[i].name
      {
        StageResultName(stages[i], c, 1, MAX_STAGE_RETRIES);
      }
  }

  lemma {:induction false} StageResultName<D>(stage: Stage<D>, c: Context<D>, k: nat, left: nat)
    ensures StageOutcome(stage, c, k, left).Ok? ==> StageOutcome(stage, c, k, left).value.stage == stage.name
    decreases left
  {
    if left > 0 {
      StageResultName(stage, c, k + 1, left - 1);
    }
  }

  /** With the first `p` members saved and the rest not, the rest remains. */
  lemma {:induction false} WithoutPrefix<D>(stages: seq<Stage<D>>, done: Context<D>, p: nat)
    requires p <= |stages|
    requires forall i :: 0 <= i < |stages| ==> (stages[i].name in done <==> i < p)
    ensures WithoutStages(stages, done) == stages[p..]
  {
    if stages != [] {
      WithoutPrefix(stages[1..], done, if p == 0 then 0 else p - 1);
    }
  }

  lemma SavesCons<D>(e: Entry<D>, rest: seq<Entry<D>>, c: Context<D>)
    ensures var r := EntryOutcome(e, c);
            Saves([e] + rest, c) == if r.Err? then ([], Failed(r.error))
                                    else var later := Saves(rest, Extend(c, r.value)); (r.value + later.0, later.1)
    ensures Flatten([e] + rest) == Members(e) + Flatten(rest)
  {
    hide EntryOutcome;
    assert ([e] + rest)[1..] == rest;
  }

  /** Nothing saved yet: nothing is dropped but empty groups, which run nothing. */
  lemma {:induction false} NothingDone<D>(entries: seq<Entry<D>>, done: Context<D>, c: Context<D>)
    requires forall s :: s in Flatten(entries) ==> s.name !in done
    ensures Saves(RemainingEntries(entries, done), c) == Saves(entries, c)
    ensures Flatten(RemainingEntries(entries, done)) == Flatten(entries)
    decreases |entries|
  {
    hide EntryOutcome;
    if entries != [] {
      var e, rest := entries[0], entries[1..];
      var rest' := RemainingEntries(rest, done);
      assert entries == [e] + rest;
      assert forall s :: s in Members(e) ==> s in Flatten(entries);
      assert forall s :: s in Flatten(rest) ==> s in Flatten(entries);
      NothingDone(rest, done, c);
      if e == ParallelGroup([]) {
        EmptyGroup(rest, c);
      } else {
        if e.ParallelGroup? {
          WithoutPrefix(e.stages, done, 0);
        }
        assert RemainingEntries(entries, done) == [e] + rest';
        SavesCons(e, rest, c);
        SavesCons(e, rest', c);
        if EntryOutcome(e, c).Ok? {
          NothingDone(rest, done, Extend(c, EntryOutcome(e, c).value));
        }
      }
    }
  }

  lemma EmptyGroup<D>(rest: seq<Entry<D>>, c: Context<D>)
    ensures Saves([ParallelGroup([])] + rest, c) == Saves(rest, c)
  {
    SavesCons(ParallelGroup([]), rest, c);
    assert Extend(c, []) == c && [] + Saves(rest, c).0 == Saves(rest, c).0;
  }

  /** What a run from `done` saves when `done` already holds the first `p` results of the run from
      `c`, and which stages it still has to run. */
  ghost predicate Resumes<D>(entries: seq<Entry<D>>, c: Context<D>, p: nat)
    requires p <= |Saves(entries, c).0|
  {
    var (all, outcome) := Saves(entries, c);
    var done := Extend(c, all[..p]);
    && Saves(RemainingEntries(entries, done), done) == (all[p..], outcome)
    && p <= |Flatten(entries)|
    && Flatten(RemainingEntries(entries, done)) == Flatten(entries)[p..]
  }

  /** A group cut after saving `p` of its results finishes with exactly the others. */
  lemma GroupResumes<D(!new)>(stages: seq<Stage<D>>, c: Context<D>, p: nat)
    requires GroupOutcome(stages, c).Ok? && p < |stages| && Independent(stages)
    requires forall i, j :: 0 <= i < j < |stages| ==> stages[i].name != stages[j].name
    requires forall s :: s in stages ==> s.name !in c
    ensures |GroupOutcome(stages, c).value| == |stages|
    ensures var all := GroupOutcome(stages, c).value;
            var done := Extend(c, all[..p]);
            WithoutStages(stages, done) == stages[p..] && GroupOutcome(stages[p..], done) == Ok(all[p..])
  {
    EntryResults(ParallelGroup(stages), c);
    GroupResults(stages, c);
    var all := GroupOutcome(stages, c).value;
    var done := Extend(c, all[..p]);
    forall i | 0 <= i < |stages|
      ensures stages[i].name in done <==> i < p
    {
      ExtendKeys(c, all[..p], stages[i].name);
      if i < p {
        assert all[..p][i].stage == stages[i].name;
      }
    }
    WithoutPrefix(stages, done, p);
    assert SameOutside(stages, c, done) by {
      forall n | n !in Names(stages)
        ensures (n in c <==> n in done) && (n in c ==> c[n] == done[n])
      {
        ExtendKeys(c, all[..p], n);
        assert forall i :: 0 <= i < p ==> all[..p][i].stage == Names(stages)[i];
      }
    }
    forall i | p <= i < |stages|
      ensures MemberOutcome(stages[i], done) == Ok(all[i])
    {
      assert stages[i] in stages;
      SameMemberOutcome(stages[i], c, done);
    }
    GroupFromResults(stages[p..], done, all[p..]);
  }

  /** Cut after `p` results of the first entry (fewer than all of them): the entry's other members
      and all later entries remain, and finish the same way. */
  lemma CutInsideEntry<D(!new)>(e: Entry<D>, rest: seq<Entry<D>>, c: Context<D>, p: nat)
    requires UniqueNames([e] + rest) && Independent(Members(e)) && EntryOutcome(e, c).Ok?
    requires forall s :: s in Flatten([e] + rest) ==> s.name !in c
    requires p < |Members(e)|
    ensures p <= |Saves([e] + rest, c).0| && Resumes([e] + rest, c, p)
  {
    hide EntryOutcome, CutEntry, RemainingEntries, Saves, Flatten, Members, Extend;
    var entries := [e] + rest;
    var m, r := Members(e), EntryOutcome(e, c).value;
    SavesCons(e, rest, c);
    EntryResults(e, c);
    var all := Saves(entries, c).0;
    var later := Saves(rest, Extend(c, r));
    assert all == r + later.0 && all[..p] == r[..p];
    var done := Extend(c, r[..p]);
    CutEntryRemains(e, rest, c, p);
    NothingDoneLater(e, rest, c, p);
    var later' := RemainingEntries(rest, done);
    SavesCons(CutEntry(e, p), later', done);
    ExtendAppend(c, r[..p], r[p..]);
    assert r[..p] + r[p..] == r;
    assert Extend(done, r[p..]) == Extend(c, r);
    assert Saves(later', Extend(c, r)) == later;
    assert all[p..] == r[p..] + later.0;
    assert Flatten(entries)[p..] == m[p..] + Flatten(rest);
  }

  /** Entry `e` without its first `p` members. */
  function CutEntry<D>(e: Entry<D>, p: nat): Entry<D>
    requires p < |Members(e)|
  {
    match e
    case Single(_) => e
    case ParallelGroup(stages) => ParallelGroup(stages[p..])
  }

  lemma CutEntryRemains<D(!new)>(e: Entry<D>, rest: seq<Entry<D>>, c: Context<D>, p: nat)
    requires UniqueNames([e] + rest) && Independent(Members(e)) && EntryOutcome(e, c).Ok?
    requires forall s :: s in Flatten([e] + rest) ==> s.name !in c
    requires p < |Members(e)|
    ensures |EntryOutcome(e, c).value| == |Members(e)|
    ensures var r := EntryOutcome(e, c).value;
            var done := Extend(c, r[..p]);
            && RemainingEntries([e] + rest, done) == [CutEntry(e, p)] + RemainingEntries(rest, done)
            && EntryOutcome(CutEntry(e, p), done) == Ok(r[p..])
            && Members(CutEntry(e, p)) == Members(e)[p..]
  {
    var m := Members(e);
    assert Flatten([e] + rest) == m + Flatten(rest) by {
      SavesCons(e, rest, c);
    }
    forall i, j | 0 <= i < j < |m|
      ensures m[i].name != m[j].name
    {
      assert m[i] == Flatten([e] + rest)[i] && m[j] == Flatten([e] + rest)[j];
    }
    assert forall s :: s in m ==> s in Flatten([e] + rest);
    assert ([e] + rest)[1..] == rest;
    match e
    case Single(_) =>
      assert EntryOutcome(e, c).value[..0] == [];
    case ParallelGroup(stages) =>
      GroupResumes(stages, c, p);
  }

  /** Later entries are untouched by what the first entry saves. */
  lemma NothingDoneLater<D>(e: Entry<D>, rest: seq<Entry<D>>, c: Context<D>, p: nat)
    requires UniqueNames([e] + rest) && EntryOutcome(e, c).Ok? && p <= |Members(e)|
    requires forall s :: s in Flatten([e] + rest) ==> s.name !in c
    ensures |EntryOutcome(e, c).value| == |Members(e)|
    ensures var r := EntryOutcome(e, c).value;
            var done := Extend(c, r[..p]);
            && (forall s :: s in Flatten(rest) ==> s.name !in done)
            && (forall d :: Saves(RemainingEntries(rest, done), d) == Saves(rest, d))
            && Flatten(RemainingEntries(rest, done)) == Flatten(rest)
  {
    hide EntryOutcome;
    EntryResults(e, c);
    SavesCons(e, rest, c);
    var m, later, r := Members(e), Flatten(rest), EntryOutcome(e, c).value;
    var done := Extend(c, r[..p]);
    forall s | s in later
      ensures s.name !in done
    {
      var j :| 0 <= j < |later| && later[j] == s;
      assert Flatten([e] + rest)[|m| + j] == s;
      forall i | 0 <= i < p
        ensures r[..p][i].stage != s.name
      {
        assert Flatten([e] + rest)[i] == m[i];
      }
      ExtendKeys(c, r[..p], s.name);
    }
    forall d
      ensures Saves(RemainingEntries(rest, done), d) == Saves(rest, d)
    {
      NothingDone(rest, done, d);
    }
    NothingDone(rest, done, c);
  }

  /** An entry whose members are all saved is dropped. */
  lemma WholeEntryDone<D>(e: Entry<D>, rest: seq<Entry<D>>, done: Context<D>)
    requires forall i :: 0 <= i < |Members(e)| ==> Members(e)[i].name in done
    ensures RemainingEntries([e] + rest, done) == RemainingEntries(rest, done)
  {
    assert ([e] + rest)[1..] == rest;
    match e
    case Single(stage) => assert Members(e)[0] == stage;
    case ParallelGroup(stages) =>
      assert Members(e) == stages;
      WithoutPrefix(stages, done, |stages|);
  }

  /** Cut after the first entry: the rest resumes on its own. */
  lemma CutAfterEntry<D>(e: Entry<D>, rest: seq<Entry<D>>, c: Context<D>, p: nat)
    requires EntryOutcome(e, c).Ok? && |EntryOutcome(e, c).value| == |Members(e)|
    requires |Members(e)| <= p <= |Saves([e] + rest, c).0|
    requires var c' := Extend(c, EntryOutcome(e, c).value);
             p - |Members(e)| <= |Saves(rest, c').0| && Resumes(rest, c', p - |Members(e)|)
    ensures Resumes([e] + rest, c, p)
  {
    hide EntryOutcome, RemainingEntries, Saves, Flatten, Extend;
    var k, r := |Members(e)|, EntryOutcome(e, c).value;
    EntryResults(e, c);
    SavesCons(e, rest, c);
    var all, c' := Saves([e] + rest, c).0, Extend(c, r);
    var later := Saves(rest, c').0;
    assert all[..p] == r + later[..p - k];
    ExtendAppend(c, r, later[..p - k]);
    var done := Extend(c, all[..p]);
    forall i | 0 <= i < k
      ensures Members(e)[i].name in done
    {
      ExtendKeys(c, all[..p], Members(e)[i].name);
      assert all[..p][i].stage == Members(e)[i].name;
    }
    WholeEntryDone(e, rest, done);
    assert done == Extend(c', later[..p - k]);
    assert all[p..] == later[p - k..];
    assert Flatten([e] + rest) == Members(e) + Flatten(rest);
    assert Flatten([e] + rest)[p..] == Flatten(rest)[p - k..];
  }

  /** Resume equivalence, one cut: a run from the first `p` saved results saves exactly the others,
      ends the same way and still has exactly the later stages to run. */
  lemma {:induction false} RunResumes<D(!new)>(entries: seq<Entry<D>>, c: Context<D>, p: nat)
    requires UniqueNames(entries) && AllIndependent(entries)
    requires forall s :: s in Flatten(entries) ==> s.name !in c
    requires p <= |Saves(entries, c).0|
    ensures Resumes(entries, c, p)
    decreases |entries|
  {
    hide EntryOutcome, Resumes, RemainingEntries, Saves, Flatten, Extend;
    SavesFailure(entries, c);
    if entries == [] || EntryOutcome(entries[0], c).Err? {
      ResumesNothing(entries, c);
    } else {
      var e, rest := entries[0], entries[1..];
      assert entries == [e] + rest;
      SavesCons(e, rest, c);
      EntryResults(e, c);
      if p < |Members(e)| {
        CutInsideEntry(e, rest, c, p);
      } else {
        UniqueLater(e, rest);
        NothingDoneLater(e, rest, c, |Members(e)|);
        var r := EntryOutcome(e, c).value;
        assert r[..|Members(e)|] == r;
        RunResumes(rest, Extend(c, r), p - |Members(e)|);
        CutAfterEntry(e, rest, c, p);
      }
    }
  }

  /** Nothing is saved when there is nothing to run or the first entry fails. */
  lemma SavesFailure<D>(entries: seq<Entry<D>>, c: Context<D>)
    ensures entries == [] || EntryOutcome(entries[0], c).Err? ==> |Saves(entries, c).0| == 0
  {
    hide EntryOutcome;
  }

  lemma ResumesNothing<D>(entries: seq<Entry<D>>, c: Context<D>)
    requires forall s :: s in Flatten(entries) ==> s.name !in c
    ensures Resumes(entries, c, 0)
  {
    hide EntryOutcome;
    NothingDone(entries, c, c);
  }

  lemma UniqueLater<D>(e: Entry<D>, rest: seq<Entry<D>>)
    requires UniqueNames([e] + rest)
    ensures UniqueNames(rest)
  {
    var k := |Members(e)|;
    assert Flatten([e] + rest) == Members(e) + Flatten(rest) by {
      assert ([e] + rest)[1..] == rest;
    }
    forall i, j | 0 <= i < j < |Flatten(rest)|
      ensures Flatten(rest)[i].name != Flatten(rest)[j].name
    {
      var flat := Flatten([e] + rest);
      assert flat[k + i] == Flatten(rest)[i] && flat[k + j] == Flatten(rest)[j];
      assert flat[k + i].name != flat[k + j].name;
    }
  }

  // ---------------------------------------------------------------- any number of cuts

  /** A job run to its end in segments. Each segment starts from the saved results and is cut after
      at most `cuts[i]` more saves, by `should_stop` or by a crash between two writes; the last one
      is undisturbed. Gives every progress write made, the saved results and the outcome. */
  function RunInSegments<D>(entries: seq<Entry<D>>, done: Context<D>, cuts: seq<nat>)
    : (seq<SaveWrite<D>>, Context<D>, RunOutcome)
    decreases |cuts|
  {
    var remaining := RemainingEntries(entries, done);
    var (all, outcome) := Saves(remaining, done);
    var writes := Writes(Names(Flatten(entries)), Names(Flatten(remaining)), all);
    if cuts == [] then (writes, Extend(done, all), outcome)
    else
      var p := Min(cuts[0], |all|);
      var (later, saved, end) := RunInSegments(entries, Extend(done, all[..p]), cuts[1..]);
      (writes[..p] + later, saved, end)
  }

  /** The writes of a resumed run continue the numbering of the undisturbed one. */
  lemma WritesContinue<D>(flat: seq<Name>, all: seq<StageResult<D>>, q: nat)
    requires q <= |all| && q <= |flat|
    ensures Writes(flat, flat[q..], all[q..]) == Writes(flat, flat, all)[q..]
  {
  }

  lemma {:induction false} SegmentsFrom<D(!new)>(entries: seq<Entry<D>>, c: Context<D>, q: nat, cuts: seq<nat>)
    requires UniqueNames(entries) && AllIndependent(entries)
    requires forall s :: s in Flatten(entries) ==> s.name !in c
    requires q <= |Saves(entries, c).0|
    ensures var (all, outcome) := Saves(entries, c);
            var flat := Names(Flatten(entries));
            RunInSegments(entries, Extend(c, all[..q]), cuts) == (Writes(flat, flat, all)[q..], Extend(c, all), outcome)
    decreases |cuts|
  {
    hide Saves, RemainingEntries, Flatten, NthWrite, Extend;
    RunResumes(entries, c, q);
    var all, flat := Saves(entries, c).0, Names(Flatten(entries));
    var done := Extend(c, all[..q]);
    assert Names(Flatten(RemainingEntries(entries, done))) == flat[q..];
    WritesContinue(flat, all, q);
    if cuts == [] {
      ExtendAppend(c, all[..q], all[q..]);
      assert all[..q] + all[q..] == all;
    } else {
      var p := Min(cuts[0], |all| - q);
      ExtendAppend(c, all[..q], all[q..][..p]);
      assert all[..q] + all[q..][..p] == all[..q + p];
      SegmentsFrom(entries, c, q + p, cuts[1..]);
      var w := Writes(flat, flat, all);
      assert w[q..][..p] + w[q + p..] == w[q..];
    }
  }

  lemma SavesNothing<D>(c: Context<D>)
    ensures Saves<D>([], c) == ([], Completed) && Extend(c, []) == c
  {
  }

  /** Resume equivalence: however often a run is interrupted at an entry boundary or killed between
      two progress writes (inside a parallel group included) and resumed from what was saved, it
      makes exactly the progress writes of one undisturbed run, with the same numbering, and ends
      with the same results and outcome. */
  lemma ResumeEquivalence<D(!new)>(entries: seq<Entry<D>>, c: Context<D>, cuts: seq<nat>)
    requires UniqueNames(entries) && AllIndependent(entries)
    requires forall s :: s in Flatten(entries) ==> s.name !in c
    ensures RunInSegments(entries, c, cuts) == RunInSegments(entries, c, [])
  {
    hide RunInSegments, Saves, Flatten, Extend;
    SegmentsFrom(entries, c, 0, cuts);
    SegmentsFrom(entries, c, 0, []);
    SavesNothing(c);
    assert Saves(entries, c).0[..0] == [];
  }

  lemma {:induction false} PositionOfUnique(flat: seq<Name>, k: nat)
    requires k < |flat| && forall i, j :: 0 <= i < j < |flat| ==> flat[i] != flat[j]
    ensures Position(flat, flat[k]) == k + 1
  {
    if k < |flat| - 1 {
      assert flat[..|flat| - 1][k] == flat[k];
      PositionOfUnique(flat[..|flat| - 1], k);
    }
  }

  /** The saves of an undisturbed run are the active stages, in order. */
  lemma {:induction false} SavesInOrder<D>(entries: seq<Entry<D>>, c: Context<D>)
    ensures var all, flat := Saves(entries, c).0, Flatten(entries);
            |all| <= |flat| && (forall k :: 0 <= k < |all| ==> all[k].stage == flat[k].name)
            && (Saves(entries, c).1.Completed? ==> |all| == |flat|)
    decreases |entries|
  {
    hide EntryOutcome;
    if entries != [] {
      var e, rest := entries[0], entries[1..];
      assert entries == [e] + rest;
      SavesCons(e, rest, c);
      if EntryOutcome(e, c).Ok? {
        EntryResults(e, c);
        SavesInOrder(rest, Extend(c, EntryOutcome(e, c).value));
      }
    }
  }

  lemma WriteNumbering<D>(flat: seq<Name>, all: seq<StageResult<D>>, k: nat)
    requires k < |all| <= |flat| && all[k].stage == flat[k]
    requires forall i, j :: 0 <= i < j < |flat| ==> flat[i] != flat[j]
    ensures IsNumbered(flat, k, Writes(flat, flat, all)[k])
  {
    if k + 1 < |flat| {
      PositionOfUnique(flat, k + 1);
    }
  }

  /** `w` is for the `k`-th active stage and announces the next one with its place in the total. */
  predicate IsNumbered<D>(flat: seq<Name>, k: nat, w: SaveWrite<D>) {
    && k < |flat| && w.result.stage == flat[k] && w.total == |flat|
    && if k + 1 < |flat| then w.next == Some(flat[k + 1]) && w.nextIndex == Some(k + 2)
       else w.next == None && w.nextIndex == None
  }

  /** Stage numbering: in any run to the end, cut or not, the `k`-th progress write is for the
      `k`-th active stage and announces stage number `k + 2` of the total. */
  lemma NumberingIsSequential<D(!new)>(entries: seq<Entry<D>>, c: Context<D>, cuts: seq<nat>, k: nat)
    requires UniqueNames(entries) && AllIndependent(entries)
    requires forall s :: s in Flatten(entries) ==> s.name !in c
    requires k < |RunInSegments(entries, c, cuts).0|
    ensures IsNumbered(Names(Flatten(entries)), k, RunInSegments(entries, c, cuts).0[k])
  {
    hide RunInSegments, Saves, Flatten, Extend, NthWrite, IsNumbered;
    SegmentsFrom(entries, c, 0, cuts);
    SavesNothing(c);
    SavesInOrder(entries, c);
    var all := Saves(entries, c).0;
    assert all[..0] == [];
    WriteNumbering(Names(Flatten(entries)), all, k);
  }

  // ---------------------------------------------------------------- the runner

  /** Announces the members of one entry. */
  method PublishMembers<D>(progress: Progress<D>, flat: seq<Name>, names: seq<Name>, from: nat, count: nat)
    requires from + count <= |names|
    modifies progress`published
    ensures progress.published == old(progress.published) + Events(flat, names)[from..from + count]
  {
    for k := 0 to count
      invariant progress.published == old(progress.published) + Events(flat, names)[from..from + k]
    {
      progress.PublishStage(names[from + k], Position(flat, names[from + k]), |flat|);
      assert Events(flat, names)[from..from + k + 1]
             == Events(flat, names)[from..from + k] + [Events(flat, names)[from + k]];
    }
  }

  function WritesFrom<D>(flat: seq<Name>, names: seq<Name>, from: nat,
                         results: seq<StageResult<D>>): (w: seq<SaveWrite<D>>)
    ensures |w| == |results|
    ensures forall k :: 0 <= k < |w| ==> w[k] == NthWrite(flat, names, from + k, results[k])
  {
    seq(|results|, k requires 0 <= k < |results| => NthWrite(flat, names, from + k, results[k]))
  }

  lemma WritesSlice<D>(flat: seq<Name>, names: seq<Name>, all: seq<StageResult<D>>, from: nat, to: nat)
    requires from <= to <= |all|
    ensures Writes(flat, names, all)[..from] + WritesFrom(flat, names, from, all[from..to])
         == Writes(flat, names, all)[..to]
  {
    hide NthWrite;
  }

  lemma SplitAt<T>(s: seq<T>, from: nat, to: nat)
    requires from <= to <= |s|
    ensures s[..from] + s[from..to] == s[..to]
    ensures s[from..][..to - from] == s[from..to] && s[from..][to - from..] == s[to..]
  {
  }

  /** The `k`-th of these writes, and the event announced with it. */
  lemma WriteAt<D>(flat: seq<Name>, names: seq<Name>, from: nat, results: seq<StageResult<D>>, k: nat)
    requires k < |results| && from + |results| <= |names|
    ensures var at := from + k + 1;
            var next := if at < |names| then Some(names[at]) else None;
            var nextIndex := if next.Some? then Some(Position(flat, next.value)) else None;
            && WritesFrom(flat, names, from, results)[k] == SaveWrite(results[k], next, nextIndex, |flat|)
            && (at < |names| ==> Events(flat, names)[at] == StageEvent(next.value, nextIndex.value, |flat|))
  {
    hide Position;
  }

  /** Saves the results of one entry, each with the stage that comes next. */
  method SaveResults<D>(progress: Progress<D>, flat: seq<Name>, names: seq<Name>, from: nat,
                        results: seq<StageResult<D>>)
    requires from + |results| <= |names|
    modifies progress`saved, progress`writes, progress`current
    ensures progress.saved == Extend(old(progress.saved), results)
    ensures progress.writes == old(progress.writes) + WritesFrom(flat, names, from, results)
    ensures results != [] && from + |results| < |names| ==>
              progress.current == Some(Events(flat, names)[from + |results|])
  {
    hide Position, NthWrite, WritesFrom, Events;
    ghost var written := WritesFrom(flat, names, from, results);
    for k := 0 to |results|
      invariant Extend(progress.saved, results[k..]) == Extend(old(progress.saved), results)
      invariant progress.writes == old(progress.writes) + written[..k]
      invariant k > 0 && from + k < |names| ==> progress.current == Some(Events(flat, names)[from + k])
    {
      var at := from + k + 1;
      var next := if at < |names| then Some(names[at]) else None;
      var nextIndex := if next.Some? then Some(Position(flat, next.value)) else None;
      assert results[k..][1..] == results[k + 1..];
      WriteAt(flat, names, from, results, k);
      progress.SaveStageProgress(results[k], next, nextIndex, |flat|);
      assert written[..k + 1] == written[..k] + [written[k]];
    }
    assert results[|results|..] == [] && written[..|results|] == written;
  }

  /** What announcing, running and saving one entry does to the job, from flattened position `from`. */
  ghost predicate EntryRan<D>(entry: Entry<D>, flat: seq<Name>, names: seq<Name>, from: nat,
                              before: View<D>, after: View<D>, error: Option<PipelineError>)
    requires from + |Members(entry)| <= |names|
  {
    var r := EntryOutcome(entry, before.saved);
    && after.published == before.published + Events(flat, names)[from..from + |Members(entry)|]
    && if r.Err? then error == Some(r.error) && after.saved == before.saved && after.writes == before.writes
       else
         && error == None
         && |r.value| == |Members(entry)|
         && after.saved == Extend(before.saved, r.value)
         && after.writes == before.writes + WritesFrom(flat, names, from, r.value)
         && (r.value != [] && from + |r.value| < |names| ==>
               after.current == Some(Events(flat, names)[from + |r.value|]))
  }

  method RunEntry<D>(progress: Progress<D>, entry: Entry<D>, flat: seq<Name>, names: seq<Name>, from: nat)
    returns (error: Option<PipelineError>)
    requires from + |Members(entry)| <= |names|
    modifies progress
    ensures EntryRan(entry, flat, names, from, old(progress.Now()), progress.Now(), error)
  {
    hide EntryOutcome, NthWrite, Extend;
    PublishMembers(progress, flat, names, from, |Members(entry)|);
    var results := RunEntryWithRetries(entry, progress.saved);
    if results.Err? {
      return Some(results.error);
    }
    EntryResults(entry, progress.saved);
    SaveResults(progress, flat, names, from, results.value);
    return None;
  }

  /** Between two entries: `cut` results are saved, the entries `rest` are still to run. */
  ghost predicate Between<D>(flat: seq<Name>, names: seq<Name>, all: seq<StageResult<D>>, end: RunOutcome,
                             start: View<D>, now: View<D>, rest: seq<Entry<D>>, cut: nat)
  {
    && cut <= |all| && cut <= |names|
    && names[cut..] == Names(Flatten(rest))
    && Saves(rest, now.saved) == (all[cut..], end)
    && now.saved == Extend(start.saved, all[..cut])
    && now.writes == start.writes + Writes(flat, names, all)[..cut]
    && now.published == start.published + Events(flat, names)[..cut]
    && (cut < |names| ==> now.current == Some(Events(flat, names)[cut]))
  }

  lemma BetweenMeans<D>(flat: seq<Name>, names: seq<Name>, all: seq<StageResult<D>>, end: RunOutcome,
                        start: View<D>, now: View<D>, rest: seq<Entry<D>>, cut: nat)
    requires Between(flat, names, all, end, start, now, rest, cut)
    ensures cut <= |all| && cut <= |names| && now.saved == Extend(start.saved, all[..cut])
    ensures now.writes == start.writes + Writes(flat, names, all)[..cut]
    ensures now.published == start.published + Events(flat, names)[..cut]
    ensures rest != [] ==> cut + |Members(rest[0])| <= |names|
    ensures cut < |names| ==> now.current == Some(Events(flat, names)[cut])
    ensures rest == [] ==> cut == |all| && end == Completed
  {
    hide NthWrite, Extend, EntryOutcome;
    if rest != [] {
      NextEntry(rest, now.saved);
    }
  }

  lemma EntryFails<D>(flat: seq<Name>, names: seq<Name>, all: seq<StageResult<D>>, end: RunOutcome, start: View<D>,
                      now: View<D>, rest: seq<Entry<D>>, cut: nat)
    requires rest != [] && Between(flat, names, all, end, start, now, rest, cut)
    requires EntryOutcome(rest[0], now.saved).Err?
    ensures cut == |all| && end == Failed(EntryOutcome(rest[0], now.saved).error)
  {
    hide EntryOutcome, NthWrite, Extend, Saves, Flatten, Position, Writes, WritesFrom, Events;
    NextEntry(rest, now.saved);
  }

  lemma NamesSlice<D>(names: seq<Name>, cut: nat, members: seq<Stage<D>>, rest: seq<Stage<D>>)
    requires cut <= |names| && names[cut..] == Names(members + rest)
    ensures cut + |members| <= |names| && names[cut + |members|..] == Names(rest)
  {
    assert |names[cut..]| == |members| + |rest|;
    forall i | 0 <= i < |rest| ensures names[cut + |members| + i] == rest[i].name {
      assert names[cut..][|members| + i] == (members + rest)[|members| + i].name;
    }
  }

  /** Saving the next `m` results moves all three records on together. */
  lemma RecordsAdvance<D>(flat: seq<Name>, names: seq<Name>, all: seq<StageResult<D>>, start: View<D>, now: View<D>,
                          after: View<D>, cut: nat, m: nat)
    requires cut + m <= |all| && cut + m <= |names|
    requires now.saved == Extend(start.saved, all[..cut]) && after.saved == Extend(now.saved, all[cut..cut + m])
    requires now.writes == start.writes + Writes(flat, names, all)[..cut]
    requires after.writes == now.writes + WritesFrom(flat, names, cut, all[cut..cut + m])
    requires now.published == start.published + Events(flat, names)[..cut]
    requires after.published == now.published + Events(flat, names)[cut..cut + m]
    ensures after.saved == Extend(start.saved, all[..cut + m])
    ensures after.writes == start.writes + Writes(flat, names, all)[..cut + m]
    ensures after.published == start.published + Events(flat, names)[..cut + m]
  {
    hide NthWrite, Extend, Position, Events, Writes, WritesFrom;
    SplitAt(Events(flat, names), cut, cut + m);
    SplitAt(all, cut, cut + m);
    ExtendAppend(start.saved, all[..cut], all[cut..cut + m]);
    WritesSlice(flat, names, all, cut, cut + m);
    AppendPiece(start.writes, Writes(flat, names, all)[..cut], WritesFrom(flat, names, cut, all[cut..cut + m]));
    AppendPiece(start.published, Events(flat, names)[..cut], Events(flat, names)[cut..cut + m]);
  }

  lemma AppendPiece<T>(base: seq<T>, front: seq<T>, piece: seq<T>)
    ensures (base + front) + piece == base + (front + piece)
  {
  }

  lemma EntrySucceeds<D>(flat: seq<Name>, names: seq<Name>, all: seq<StageResult<D>>, end: RunOutcome, start: View<D>,
                         now: View<D>, rest: seq<Entry<D>>, cut: nat, after: View<D>)
    requires rest != [] && Between(flat, names, all, end, start, now, rest, cut)
    requires Members(rest[0]) != [] && cut + |Members(rest[0])| <= |names|
    requires EntryOutcome(rest[0], now.saved).Ok? && EntryRan(rest[0], flat, names, cut, now, after, None)
    ensures Between(flat, names, all, end, start, after, rest[1..], cut + |Members(rest[0])|)
  {
    hide EntryOutcome, NthWrite, Extend, Saves, Flatten, Position, Writes, WritesFrom, Events, Names, Members;
    NextEntry(rest, now.saved);
    NamesSlice(names, cut, Members(rest[0]), Flatten(rest[1..]));
    var m := |Members(rest[0])|;
    SplitAt(all, cut, cut + m);
    RecordsAdvance(flat, names, all, start, now, after, cut, m);
  }

  /** After the next entry: either it is saved and the run goes on, or everything that could be
      saved already was. */
  lemma BetweenEntries<D>(flat: seq<Name>, names: seq<Name>, all: seq<StageResult<D>>, end: RunOutcome, start: View<D>,
                          now: View<D>, rest: seq<Entry<D>>, cut: nat, after: View<D>, error: Option<PipelineError>)
    requires rest != [] && Between(flat, names, all, end, start, now, rest, cut)
    requires Members(rest[0]) != [] && cut + |Members(rest[0])| <= |names|
    requires EntryRan(rest[0], flat, names, cut, now, after, error)
    ensures match error
            case None => Between(flat, names, all, end, start, after, rest[1..], cut + |Members(rest[0])|)
            case Some(e) =>
              && cut == |all| && end == Failed(e) && after.saved == now.saved && after.writes == now.writes
              && after.published == now.published + Events(flat, names)[cut..cut + |Members(rest[0])|]
  {
    hide EntryOutcome, Between;
    if EntryOutcome(rest[0], now.saved).Ok? {
      EntrySucceeds(flat, names, all, end, start, now, rest, cut, after);
    } else {
      EntryFails(flat, names, all, end, start, now, rest, cut);
    }
  }

  lemma {:induction false} RemainingHaveMembers<D>(entries: seq<Entry<D>>, done: Context<D>)
    ensures forall e :: e in RemainingEntries(entries, done) ==> Members(e) != []
  {
    if entries != [] {
      RemainingHaveMembers(entries[1..], done);
    }
  }

  /** One entry of the undisturbed run, seen from the saves made before it. */
  lemma NextEntry<D>(entries: seq<Entry<D>>, context: Context<D>)
    requires entries != []
    ensures Flatten(entries) == Members(entries[0]) + Flatten(entries[1..])
    ensures var r, s := EntryOutcome(entries[0], context), Saves(entries, context);
            if r.Err? then s == ([], Failed(r.error))
            else
              && |r.value| == |Members(entries[0])| && |r.value| <= |s.0| && r.value == s.0[..|r.value|]
              && Saves(entries[1..], Extend(context, r.value)) == (s.0[|r.value|..], s.1)
  {
    if EntryOutcome(entries[0], context).Ok? {
      EntryResults(entries[0], context);
      var r, s := EntryOutcome(entries[0], context).value, Saves(entries, context);
      var later := Saves(entries[1..], Extend(context, r));
      assert s.0 == r + later.0;
      assert s.0[..|r|] == r && s.0[|r|..] == later.0;
      assert later == (later.0, s.1);
    }
  }

  /** A run starts with nothing saved yet of what remains. */
  lemma BetweenStart<D>(flat: seq<Name>, remaining: seq<Entry<D>>, start: View<D>)
    requires var names := Names(Flatten(remaining));
             names != [] ==> start.current == Some(StageEvent(names[0], Position(flat, names[0]), |flat|))
    ensures var (all, end) := Saves(remaining, start.saved);
            Between(flat, Names(Flatten(remaining)), all, end, start, start, remaining, 0)
  {
  }

  /** Runs every stage not already saved. `stops(i)` is what `should_stop` says before the `i`-th
      remaining entry. The ghost results are how many saves were made and how many stages were
      announced. */
  method Run<D>(stages: seq<Entry<D>>, progress: Progress<D>, stops: nat -> bool, mode: Option<Mode>)
    returns (outcome: RunOutcome, ghost cut: nat, ghost shown: nat)
    modifies progress
    ensures var active, done := StagesForMode(stages, mode), old(progress.saved);
            var remaining := RemainingEntries(active, done);
            var (all, end) := Saves(remaining, done);
            var flat, names := Names(Flatten(active)), Names(Flatten(remaining));
            && cut <= |all| && cut <= shown <= |names|
            && progress.saved == Extend(done, all[..cut])
            && progress.writes == old(progress.writes) + Writes(flat, names, all)[..cut]
            && progress.published == old(progress.published) + Events(flat, names)[..shown]
            && (outcome.Interrupted? ==> shown == cut < |names|
                                         && progress.current == Some(Events(flat, names)[cut]))
            && (!outcome.Interrupted? ==> cut == |all| && outcome == end)
    ensures (forall i :: !stops(i)) ==> !outcome.Interrupted?
  {
    hide EntryOutcome, Saves, NthWrite, Position, Extend, Flatten, RemainingEntries, StagesForMode;
    hide EntryRan, Between, Writes, Members, Events, Names;
    var active := StagesForMode(stages, mode);
    var flat := Names(Flatten(active));
    var remaining := RemainingEntries(active, progress.saved);
    var names := Names(Flatten(remaining));
    if names != [] {
      progress.MarkProcessing(names[0], Position(flat, names[0]), |flat|);
    }
    ghost var start := progress.Now();
    ghost var (all, end) := Saves(remaining, start.saved);
    RemainingHaveMembers(active, start.saved);
    BetweenStart(flat, remaining, start);
    cut, shown := 0, 0;
    var flatPosition := 0;
    for e := 0 to |remaining|
      invariant cut == shown == flatPosition
      invariant Between(flat, names, all, end, start, progress.Now(), remaining[e..], cut)
    {
      var entry := remaining[e];
      assert remaining[e..][1..] == remaining[e + 1..] && remaining[e..][0] == entry && entry in remaining;
      BetweenMeans(flat, names, all, end, start, progress.Now(), remaining[e..], cut);
      if stops(e) {
        return Interrupted, cut, shown;
      }
      ghost var before := progress.Now();
      var error := RunEntry(progress, entry, flat, names, flatPosition);
      BetweenEntries(flat, names, all, end, start, before, remaining[e..], cut, progress.Now(), error);
      shown := shown + |Members(entry)|;
      if error.Some? {
        SplitAt(Events(flat, names), cut, shown);
        return Failed(error.value), cut, shown;
      }
      cut, flatPosition := shown, flatPosition + |Members(entry)|;
    }
    assert remaining[|remaining|..] == [];
    BetweenMeans(flat, names, all, end, start, progress.Now(), [], cut);
    outcome := Completed;
  }
}
