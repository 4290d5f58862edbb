/** Which stages a run announces, runs and saves: those of the mode that are not saved yet, in the pipeline's order. */
module RunnerTheorems {
  import opened Basics
  import opened Runner

  // ---------------------------------------------------------------- picking stages

  /** `to` is exactly the stages of `from` that `keep` holds of, in the same order; `at` says where each was. */
  ghost predicate Picks<D>(from: seq<Stage<D>>, to: seq<Stage<D>>, keep: Stage<D> -> bool, at: seq<nat>) {
    && |at| == |to|
    && (forall k :: 0 <= k < |at| ==> at[k] < |from| && to[k] == from[at[k]] && keep(from[at[k]]))
    && (forall j, k :: 0 <= j < k < |at| ==> at[j] < at[k])
    && MissesNone(from, keep, at)
  }

  ghost predicate MissesNone<D>(from: seq<Stage<D>>, keep: Stage<D> -> bool, at: seq<nat>) {
    forall i :: 0 <= i < |from| && keep(from[i]) ==> i in at
  }

  function Later(at: seq<nat>, n: nat): (r: seq<nat>)
    ensures |r| == |at| && forall k :: 0 <= k < |r| ==> r[k] == at[k] + n
  {
    seq(|at|, k requires 0 <= k < |at| => at[k] + n)
  }

  /** What is picked of two lists is what is picked of each. */
  lemma PicksJoin<D>(f: seq<Stage<D>>, t: seq<Stage<D>>, at: seq<nat>, g: seq<Stage<D>>, u: seq<Stage<D>>, bt: seq<nat>,
                     keep: Stage<D> -> bool)
    requires Picks(f, t, keep, at) && Picks(g, u, keep, bt)
    ensures Picks(f + g, t + u, keep, at + Later(bt, |f|))
  {
    var all := at + Later(bt, |f|);
    assert forall k :: 0 <= k < |at| ==> all[k] == at[k];
    assert forall k :: |at| <= k < |all| ==> all[k] == bt[k - |at|] + |f|;
    JoinMissesNone(f, at, g, bt, keep);
    hide MissesNone, Later;
    forall k | 0 <= k < |all|
      ensures all[k] < |f + g| && (t + u)[k] == (f + g)[all[k]] && keep((f + g)[all[k]])
    {
      assert k >= |at| ==> (f + g)[all[k]] == g[bt[k - |at|]] && (t + u)[k] == u[k - |at|];
    }
    forall j, k | 0 <= j < k < |all| ensures all[j] < all[k] {
      if j < |at| <= k { assert all[j] < |f| <= all[k]; }
    }
  }

  lemma JoinMissesNone<D>(f: seq<Stage<D>>, at: seq<nat>, g: seq<Stage<D>>, bt: seq<nat>, keep: Stage<D> -> bool)
    requires MissesNone(f, keep, at) && MissesNone(g, keep, bt)
    ensures MissesNone(f + g, keep, at + Later(bt, |f|))
  {
    var all := at + Later(bt, |f|);
    forall i | 0 <= i < |f + g| && keep((f + g)[i]) ensures i in all {
      if i < |f| {
        assert i in at;
      } else {
        assert keep(g[i - |f|]);
        var k :| 0 <= k < |bt| && bt[k] == i - |f|;
        assert all[|at| + k] == i;
      }
    }
  }

  /** Picking twice is picking what both keep. */
  lemma PicksTwice<D>(f: seq<Stage<D>>, t: seq<Stage<D>>, at: seq<nat>, u: seq<Stage<D>>, bt: seq<nat>,
                      keep: Stage<D> -> bool, keepToo: Stage<D> -> bool, both: Stage<D> -> bool)
    returns (ct: seq<nat>)
    requires Picks(f, t, keep, at) && Picks(t, u, keepToo, bt)
    requires forall s :: both(s) <==> keep(s) && keepToo(s)
    ensures Picks(f, u, both, ct)
  {
    ct := seq(|bt|, k requires 0 <= k < |bt| => at[bt[k]]);
    forall i | 0 <= i < |f| && both(f[i]) ensures i in ct {
      var j :| 0 <= j < |at| && at[j] == i;
      assert keepToo(t[j]);
      var k :| 0 <= k < |bt| && bt[k] == j;
      assert ct[k] == i;
    }
  }

  lemma PicksOne<D>(stage: Stage<D>, keep: Stage<D> -> bool)
    ensures keep(stage) ==> Picks([stage], [stage], keep, [0])
    ensures !keep(stage) ==> Picks([stage], [], keep, [])
  {
  }

  // ---------------------------------------------------------------- the two filters

  function InMode<D>(mode: Mode): Stage<D> -> bool {
    (s: Stage<D>) => mode in s.modes
  }

  function NotIn<D>(done: Context<D>): Stage<D> -> bool {
    (s: Stage<D>) => s.name !in done
  }

  lemma {:induction false} ModePicksMembers<D>(stages: seq<Stage<D>>, mode: Mode) returns (at: seq<nat>)
    ensures Picks(stages, StagesOfMode(stages, mode), InMode(mode), at)
  {
    at := [];
    if stages != [] {
      var rest := ModePicksMembers(stages[1..], mode);
      PicksOne(stages[0], InMode(mode));
      var first: seq<nat> := if mode in stages[0].modes then [0] else [];
      var kept := if mode in stages[0].modes then [stages[0]] else [];
      PicksJoin([stages[0]], kept, first, stages[1..], StagesOfMode(stages[1..], mode), rest, InMode(mode));
      assert [stages[0]] + stages[1..] == stages;
      at := first + Later(rest, 1);
    }
  }

  lemma {:induction false} DonePicksMembers<D>(stages: seq<Stage<D>>, done: Context<D>) returns (at: seq<nat>)
    ensures Picks(stages, WithoutStages(stages, done), NotIn(done), at)
  {
    at := [];
    if stages != [] {
      var rest := DonePicksMembers(stages[1..], done);
      PicksOne(stages[0], NotIn(done));
      var first: seq<nat> := if stages[0].name in done then [] else [0];
      var kept := if stages[0].name in done then [] else [stages[0]];
      PicksJoin([stages[0]], kept, first, stages[1..], WithoutStages(stages[1..], done), rest, NotIn(done));
      assert [stages[0]] + stages[1..] == stages;
      at := first + Later(rest, 1);
    }
  }

  /** What one entry contributes under a mode. */
  function EntryOfMode<D>(entry: Entry<D>, mode: Mode): seq<Entry<D>> {
    match entry
    case Single(stage) => if mode in stage.modes then [entry] else []
    case ParallelGroup(stages) =>
      if StagesOfMode(stages, mode) == [] then [] else [ParallelGroup(StagesOfMode(stages, mode))]
  }

  lemma FlattenOne<D>(entry: Entry<D>, rest: seq<Entry<D>>)
    ensures Flatten([entry] + rest) == Members(entry) + Flatten(rest)
  {
    assert ([entry] + rest)[1..] == rest;
  }

  /** The mode filter keeps exactly the stages of the mode, in order, and leaves no empty group. */
  lemma {:induction false} ModeKeepsExactly<D>(entries: seq<Entry<D>>, mode: Mode) returns (at: seq<nat>)
    ensures Picks(Flatten(entries), Flatten(StagesForMode(entries, Some(mode))), InMode(mode), at)
    ensures forall e :: e in StagesForMode(entries, Some(mode)) ==> Members(e) != []
    decreases |entries|
  {
    at := [];
    if entries != [] {
      var later := StagesForMode(entries[1..], Some(mode));
      var rest := ModeKeepsExactly(entries[1..], mode);
      var first, kept := ModeKeepsOfEntry(entries[0], mode, later, StagesForMode(entries, Some(mode)));
      PicksJoin(Members(entries[0]), kept, first, Flatten(entries[1..]), Flatten(later), rest, InMode(mode));
      at := first + Later(rest, |Members(entries[0])|);
    }
  }

  lemma ModeKeepsOfEntry<D>(entry: Entry<D>, mode: Mode, later: seq<Entry<D>>, all: seq<Entry<D>>)
    returns (at: seq<nat>, kept: seq<Stage<D>>)
    requires all == EntryOfMode(entry, mode) + later
    ensures Picks(Members(entry), kept, InMode(mode), at) && Flatten(all) == kept + Flatten(later)
    ensures forall e :: e in all && e !in later ==> Members(e) != []
  {
    hide Flatten;
    if EntryOfMode(entry, mode) != [] {
      assert all == [EntryOfMode(entry, mode)[0]] + later;
      FlattenOne(EntryOfMode(entry, mode)[0], later);
    } else {
      assert all == later;
    }
    assert [] + Flatten(later) == Flatten(later);
    match entry
    case Single(stage) =>
      PicksOne(stage, InMode(mode));
      at := if mode in stage.modes then [0] else [];
      kept := if mode in stage.modes then [stage] else [];
    case ParallelGroup(stages) =>
      at := ModePicksMembers(stages, mode);
      kept := StagesOfMode(stages, mode);
  }

  /** On the cold path every entry is active. */
  lemma NoModeKeepsAll<D>(entries: seq<Entry<D>>)
    ensures StagesForMode(entries, None) == entries
  {
  }

  function EntryNotIn<D>(entry: Entry<D>, done: Context<D>): seq<Entry<D>> {
    match entry
    case Single(stage) => if stage.name in done then [] else [entry]
    case ParallelGroup(stages) =>
      if WithoutStages(stages, done) == [] then [] else [ParallelGroup(WithoutStages(stages, done))]
  }

  /** What remains is exactly the stages not saved yet, in order. */
  lemma {:induction false} RemainingExactly<D>(entries: seq<Entry<D>>, done: Context<D>) returns (at: seq<nat>)
    ensures Picks(Flatten(entries), Flatten(RemainingEntries(entries, done)), NotIn(done), at)
    decreases |entries|
  {
    at := [];
    if entries != [] {
      var later := RemainingEntries(entries[1..], done);
      var rest := RemainingExactly(entries[1..], done);
      var first, kept := RemainingOfEntry(entries[0], done, later, RemainingEntries(entries, done));
      PicksJoin(Members(entries[0]), kept, first, Flatten(entries[1..]), Flatten(later), rest, NotIn(done));
      at := first + Later(rest, |Members(entries[0])|);
    }
  }

  lemma RemainingOfEntry<D>(entry: Entry<D>, done: Context<D>, later: seq<Entry<D>>, all: seq<Entry<D>>)
    returns (at: seq<nat>, kept: seq<Stage<D>>)
    requires all == EntryNotIn(entry, done) + later
    ensures Picks(Members(entry), kept, NotIn(done), at) && Flatten(all) == kept + Flatten(later)
  {
    hide Flatten;
    if EntryNotIn(entry, done) != [] {
      assert all == [EntryNotIn(entry, done)[0]] + later;
      FlattenOne(EntryNotIn(entry, done)[0], later);
    } else {
      assert all == later;
    }
    assert [] + Flatten(later) == Flatten(later);
    match entry
    case Single(stage) =>
      PicksOne(stage, NotIn(done));
      at := if stage.name in done then [] else [0];
      kept := if stage.name in done then [] else [stage];
    case ParallelGroup(stages) =>
      at := DonePicksMembers(stages, done);
      kept := WithoutStages(stages, done);
  }

  // ---------------------------------------------------------------- what a run does

  /** The stages of a run: of its mode, if it has one, and not saved yet. */
  function ToRun<D>(mode: Option<Mode>, done: Context<D>): Stage<D> -> bool {
    (s: Stage<D>) => (mode.Some? ==> mode.value in s.modes) && s.name !in done
  }

  /** A run goes through exactly those stages of the pipeline, in its order. */
  lemma RunsExactly<D>(stages: seq<Entry<D>>, mode: Option<Mode>, done: Context<D>) returns (at: seq<nat>)
    ensures Picks(Flatten(stages), Flatten(RemainingEntries(StagesForMode(stages, mode), done)), ToRun(mode, done), at)
  {
    var active := StagesForMode(stages, mode);
    var bt := RemainingExactly(active, done);
    if mode.Some? {
      var kept := ModeKeepsExactly(stages, mode.value);
      at := PicksTwice(Flatten(stages), Flatten(active), kept, Flatten(RemainingEntries(active, done)), bt,
                       InMode(mode.value), NotIn(done), ToRun(mode, done));
    } else {
      at := bt;
    }
  }

  /** Whatever a run has announced or saved, however it ended, belongs to a stage of its mode that was not saved
      before; the announcement carries that stage's place among the active stages and their number. */
  lemma OnlyItsModeRuns<D>(stages: seq<Entry<D>>, mode: Option<Mode>, done: Context<D>, k: nat)
    requires UniqueNames(StagesForMode(stages, mode))
    requires k < |Flatten(RemainingEntries(StagesForMode(stages, mode), done))|
    ensures var active := StagesForMode(stages, mode);
            var remaining := RemainingEntries(active, done);
            var flat, names, all := Names(Flatten(active)), Names(Flatten(remaining)), Saves(remaining, done).0;
            && (exists s :: s in Flatten(stages) && s.name == names[k] && ToRun(mode, done)(s))
            && (k < |all| ==> all[k].stage == names[k] && Writes(flat, names, all)[k].result == all[k])
            && (exists p: nat :: p < |flat| && flat[p] == names[k]
                                 && Events(flat, names)[k] == StageEvent(names[k], p + 1, |flat|))
  {
    hide Flatten, RemainingEntries, StagesForMode, Saves, Picks, UniqueNames;
    var active := StagesForMode(stages, mode);
    var remaining := RemainingEntries(active, done);
    var at := RunsExactly(stages, mode, done);
    PickedOne(Flatten(stages), Flatten(remaining), ToRun(mode, done), at, k);
    SavesInOrder(remaining, done);
    var bt := RemainingExactly(active, done);
    PickedOne(Flatten(active), Flatten(remaining), NotIn(done), bt, k);
    PlaceOfEvent(active, Names(Flatten(remaining)), k, bt[k]);
  }

  lemma PickedOne<D>(from: seq<Stage<D>>, to: seq<Stage<D>>, keep: Stage<D> -> bool, at: seq<nat>, k: nat)
    requires Picks(from, to, keep, at) && k < |to|
    ensures |at| == |to| && at[k] < |from| && to[k] == from[at[k]] && keep(from[at[k]]) && from[at[k]] in from
  {
  }

  lemma PlaceOfEvent<D>(active: seq<Entry<D>>, names: seq<Name>, k: nat, p: nat)
    requires UniqueNames(active) && k < |names| && p < |Flatten(active)| && Flatten(active)[p].name == names[k]
    ensures var flat := Names(Flatten(active)); Events(flat, names)[k] == StageEvent(names[k], p + 1, |flat|)
  {
    hide Flatten;
    PositionOfUnique(Names(Flatten(active)), p);
  }
}
