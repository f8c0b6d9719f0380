/** The migration engine: pkg/migrate/application/engine.go. */
module Migrate {
  import opened Strings

  /** One step; a step may have nothing to run. */
  datatype Migration = Migration(id: string, description: string, runs: bool)

  /** A line of the state file. */
  datatype Record = Record(id: string, at: int, description: string)

  datatype Outcome = Outcome(id: string, description: string, success: bool)

  /** The answers of the world during one Apply: whether the state can be read, whether the step at an index of
      the list succeeds, the time after it, and whether the state can be saved then. */
  datatype World = World(loads: bool, succeeds: nat -> bool, now: nat -> int, saves: nat -> bool)

  /** What an Apply leaves: the state file, the outcomes it returns, the ids whose code it ran, and whether it
      returns no error. */
  datatype Applied = Applied(saved: seq<Record>, outcomes: seq<Outcome>, ran: seq<string>, ok: bool)

  function IdsOf(state: seq<Record>): seq<string> {
    seq(|state|, i requires 0 <= i < |state| => state[i].id)
  }

  lemma IdsOfLast(state: seq<Record>, r: Record)
    ensures IdsOf(state + [r]) == IdsOf(state) + [r.id]
  {
  }

  function RecordOf(m: Migration, at: int): Record {
    Record(m.id, at, m.description)
  }

  function OutcomeOf(m: Migration, success: bool): Outcome {
    Outcome(m.id, m.description, success)
  }

  function CodeOf(m: Migration): seq<string> {
    if m.runs then [m.id] else []
  }

  /** Apply from index i on; state is the list in memory, which is what was saved as long as nothing failed. */
  function ApplyFrom(ms: seq<Migration>, i: nat, state: seq<Record>, w: World): Applied
    decreases |ms| - i
  {
    if i >= |ms| then Applied(state, [], [], true)
    else if ms[i].id in IdsOf(state) then ApplyFrom(ms, i + 1, state, w)
    else if ms[i].runs && !w.succeeds(i) then Applied(state, [OutcomeOf(ms[i], false)], CodeOf(ms[i]), false)
    else if !w.saves(i) then Applied(state, [OutcomeOf(ms[i], true)], CodeOf(ms[i]), false)
    else
      var rest := ApplyFrom(ms, i + 1, state + [RecordOf(ms[i], w.now(i))], w);
      Applied(rest.saved, [OutcomeOf(ms[i], true)] + rest.outcomes, CodeOf(ms[i]) + rest.ran, rest.ok)
  }

  function ApplyTo(saved: seq<Record>, ms: seq<Migration>, w: World): Applied {
    if w.loads then ApplyFrom(ms, 0, saved, w) else Applied(saved, [], [], false)
  }

  // ----- the deduplicated list

  function Ids(ms: seq<Migration>): seq<string> {
    seq(|ms|, i requires 0 <= i < |ms| => ms[i].id)
  }

  /** The migrations of a list that come first under their id. */
  function Firsts(ms: seq<Migration>): seq<Migration> {
    if ms == [] then []
    else
      var d, m := Firsts(ms[..|ms| - 1]), ms[|ms| - 1];
      if m.id in Ids(d) then d else d + [m]
  }

  /** The ids of a list, each where it comes first. */
  function Dedup(ms: seq<Migration>): seq<string> {
    if ms == [] then []
    else
      var d, id := Dedup(ms[..|ms| - 1]), ms[|ms| - 1].id;
      if id in d then d else d + [id]
  }

  lemma {:induction false} FirstsIds(ms: seq<Migration>)
    ensures Ids(Firsts(ms)) == Dedup(ms)
  {
    if ms != [] {
      FirstsIds(ms[..|ms| - 1]);
    }
  }

  lemma {:induction false} DedupDistinct(ms: seq<Migration>)
    ensures Distinct(Dedup(ms))
  {
    if ms != [] {
      DedupDistinct(ms[..|ms| - 1]);
    }
  }

  lemma DedupNext(ms: seq<Migration>, i: nat)
    requires i < |ms|
    ensures
      var d, id := Dedup(ms[..i]), ms[i].id;
      Dedup(ms[..i + 1]) == if id in d then d else d + [id]
  {
    assert ms[..i + 1][..i] == ms[..i];
  }

  lemma {:induction false} DedupPrefix(ms: seq<Migration>, i: nat)
    requires i <= |ms|
    ensures Dedup(ms[..i]) <= Dedup(ms)
    decreases |ms| - i
  {
    if i == |ms| {
      assert ms[..i] == ms;
    } else {
      DedupNext(ms, i);
      DedupPrefix(ms, i + 1);
    }
  }

  /** Where the id of migration i stands in the deduplicated list: among those before it, or next. */
  lemma Position(ms: seq<Migration>, i: nat) returns (j: nat)
    requires i < |ms|
    ensures j < |Dedup(ms)| && Dedup(ms)[j] == ms[i].id && j <= |Dedup(ms[..i])|
    ensures |Dedup(ms[..i + 1])| == if j == |Dedup(ms[..i])| then j + 1 else |Dedup(ms[..i])|
  {
    var before, after := Dedup(ms[..i]), Dedup(ms[..i + 1]);
    DedupNext(ms, i);
    DedupPrefix(ms, i + 1);
    assert ms[i].id in after;
    if ms[i].id in before {
      j :| 0 <= j < |before| && before[j] == ms[i].id;
      assert after[j] == ms[i].id;
    } else {
      j := |before|;
      assert after[j] == ms[i].id;
    }
  }

  lemma InPrefix(ms: seq<Migration>, all: seq<string>, n: nat, j: nat)
    requires all == Dedup(ms) && n <= |all| && j < |all|
    ensures all[j] in all[..n] <==> j < n
  {
    DedupDistinct(ms);
    if j < n {
      assert all[..n][j] == all[j];
    }
  }

  // ----- what is missing

  function PendingOf(saved: seq<string>, ms: seq<Migration>): seq<Migration> {
    if ms == [] then []
    else
      PendingOf(saved, ms[..|ms| - 1])
      + if ms[|ms| - 1].id in saved then [] else [ms[|ms| - 1]]
  }

  /** What an apply has to take up: the pending migrations, of those with one id only the first. */
  function Missing(saved: seq<string>, ms: seq<Migration>): seq<Migration> {
    Firsts(PendingOf(saved, ms))
  }

  lemma MissingNext(saved: seq<string>, ms: seq<Migration>, i: nat)
    requires i < |ms|
    ensures
      var d, m := Missing(saved, ms[..i]), ms[i];
      Missing(saved, ms[..i + 1]) == if m.id in saved + Ids(d) then d else d + [m]
  {
    assert ms[..i + 1][..i] == ms[..i];
    var p := PendingOf(saved, ms[..i]);
    assert p + [] == p && (p + [ms[i]])[..|p|] == p;
  }

  lemma {:induction false} MissingPrefix(saved: seq<string>, ms: seq<Migration>, i: nat)
    requires i <= |ms|
    ensures Missing(saved, ms[..i]) <= Missing(saved, ms)
    decreases |ms| - i
  {
    if i == |ms| {
      assert ms[..i] == ms;
    } else {
      MissingNext(saved, ms, i);
      MissingPrefix(saved, ms, i + 1);
    }
  }

  /** The saved ids are the first so many of the deduplicated list. */
  ghost predicate IsPrefix(saved: seq<string>, ms: seq<Migration>) {
    saved <= Dedup(ms)
  }

  lemma PrefixStep(all: seq<string>, saved: seq<string>, m: nat, extra: seq<string>, x: nat, j: nat) returns (y: nat)
    requires saved <= all && j <= m && j < |all| && x == Max(m, |saved|) <= |all|
    requires saved + extra == all[..x] && (all[j] in all[..x] <==> j < x)
    ensures y == Max(if j == m then m + 1 else m, |saved|) <= |all|
    ensures all[..y] == saved + if all[j] in saved + extra then extra else extra + [all[j]]
  {
    y := x;
    if j == x {
      y := x + 1;
      assert all[..x + 1] == all[..x] + [all[x]];
      assert saved + (extra + [all[j]]) == (saved + extra) + [all[j]];
    }
  }

  lemma PendingIdsNext(saved: seq<string>, ms: seq<Migration>, i: nat, d: seq<string>) returns (next: seq<string>)
    requires i < |ms| && d == Dedup(PendingOf(saved, ms[..i]))
    ensures next == Dedup(PendingOf(saved, ms[..i + 1]))
    ensures next == if ms[i].id in saved + d then d else d + [ms[i].id]
  {
    assert ms[..i + 1][..i] == ms[..i];
    var p := PendingOf(saved, ms[..i]);
    assert p + [] == p && (p + [ms[i]])[..|p|] == p;
    next := Dedup(PendingOf(saved, ms[..i + 1]));
  }

  lemma {:induction false} PrefixPending(saved: seq<string>, ms: seq<Migration>, i: nat, all: seq<string>)
    returns (before: nat, d: seq<string>, x: nat)
    requires all == Dedup(ms) && saved <= all && i <= |ms|
    ensures before == |Dedup(ms[..i])| && d == Dedup(PendingOf(saved, ms[..i]))
    ensures x == Max(before, |saved|) <= |all| && saved + d == all[..x]
    decreases i
  {
    if i == 0 {
      before, d, x := 0, [], |saved|;
      assert ms[..0] == [] && saved + [] == all[..x];
    } else {
      before, d, x := PrefixPending(saved, ms, i - 1, all);
      var next := PendingIdsNext(saved, ms, i - 1, d);
      var j := Position(ms, i - 1);
      InPrefix(ms, all, x, j);
      x := PrefixStep(all, saved, before, d, x, j);
      before, d := |Dedup(ms[..i])|, next;
    }
  }

  // ----- one Apply

  /** The ids of the migrations that have something to run. */
  function WithCode(ms: seq<Migration>): seq<string> {
    if ms == [] then [] else CodeOf(ms[0]) + WithCode(ms[1..])
  }

  /** The state is what was saved and one record for each migration taken up. */
  predicate Records(state: seq<Record>, saved: seq<Record>, taken: seq<Migration>) {
    && saved <= state && |state| == |saved| + |taken|
    && forall i :: 0 <= i < |taken| ==> state[|saved| + i] == RecordOf(taken[i], state[|saved| + i].at)
  }

  lemma RecordsIds(state: seq<Record>, saved: seq<Record>, taken: seq<Migration>)
    requires Records(state, saved, taken)
    ensures IdsOf(state) == IdsOf(saved) + Ids(taken)
  {
    forall i | 0 <= i < |state| ensures IdsOf(state)[i] == (IdsOf(saved) + Ids(taken))[i] {
      if i >= |saved| {
        assert state[|saved| + (i - |saved|)].id == taken[i - |saved|].id;
      }
    }
  }

  lemma RecordsNext(state: seq<Record>, saved: seq<Record>, taken: seq<Migration>, m: Migration, at: int)
    requires Records(state, saved, taken)
    ensures Records(state + [RecordOf(m, at)], saved, taken + [m])
  {
  }

  /** An apply that has taken up the first n of all takes up the next ones in order and runs the code of each
      that has any; all of them succeed and are saved, except possibly the last. */
  ghost predicate TakesUp(saved: seq<Record>, all: seq<Migration>, n: nat, a: Applied) {
    && var end := n + |a.outcomes|;
    && end <= |all|
    && (forall i :: 0 <= i < |a.outcomes| ==> a.outcomes[i] == OutcomeOf(all[n + i], a.outcomes[i].success))
    && (forall i :: 0 <= i < |a.outcomes| ==> a.outcomes[i].success || (i == |a.outcomes| - 1 && !a.ok))
    && (if a.ok then end == |all| && Records(a.saved, saved, all)
        else |a.outcomes| > 0 && Records(a.saved, saved, all[..end - 1]))
    && a.ran == WithCode(all[n..end])
  }

  lemma Prepend(saved: seq<Record>, all: seq<Migration>, n: nat, rest: Applied)
    requires n < |all| && TakesUp(saved, all, n + 1, rest)
    ensures TakesUp(saved, all, n,
                    Applied(rest.saved, [OutcomeOf(all[n], true)] + rest.outcomes, CodeOf(all[n]) + rest.ran, rest.ok))
  {
    var end := n + 1 + |rest.outcomes|;
    assert all[n..end][1..] == all[n + 1..end];
    var outcomes := [OutcomeOf(all[n], true)] + rest.outcomes;
    assert forall i :: 0 < i < |outcomes| ==> outcomes[i] == rest.outcomes[i - 1];
  }

  lemma StopsAt(saved: seq<Record>, state: seq<Record>, all: seq<Migration>, n: nat, success: bool)
    requires n < |all| && Records(state, saved, all[..n])
    ensures TakesUp(saved, all, n, Applied(state, [OutcomeOf(all[n], success)], CodeOf(all[n]), false))
  {
    assert all[n..n + 1] == [all[n]] && [all[n]][1..] == [] && CodeOf(all[n]) + [] == CodeOf(all[n]);
  }

  lemma TakesNext(saved: seq<Record>, state: seq<Record>, all: seq<Migration>, before: seq<Migration>,
                  ms: seq<Migration>, i: nat, w: World)
    requires i < |ms| && before + [ms[i]] <= all
    requires Records(state, saved, before) && ms[i].id !in IdsOf(state)
    requires TakesUp(saved, all, |before| + 1, ApplyFrom(ms, i + 1, state + [RecordOf(ms[i], w.now(i))], w))
    ensures TakesUp(saved, all, |before|, ApplyFrom(ms, i, state, w))
  {
    var n := |before|;
    assert all[n] == (before + [ms[i]])[n] && all[..n] == before;
    StopsAt(saved, state, all, n, w.succeeds(i) || !ms[i].runs);
    Prepend(saved, all, n, ApplyFrom(ms, i + 1, state + [RecordOf(ms[i], w.now(i))], w));
  }

  lemma AllTaken(saved: seq<Record>, state: seq<Record>, all: seq<Migration>)
    requires Records(state, saved, all)
    ensures TakesUp(saved, all, |all|, Applied(state, [], [], true))
  {
  }

  lemma MissingTakes(saved: seq<string>, ms: seq<Migration>, i: nat, before: seq<Migration>)
    returns (next: seq<Migration>)
    requires i < |ms| && before == Missing(saved, ms[..i])
    ensures next == Missing(saved, ms[..i + 1]) && next <= Missing(saved, ms)
    ensures next == if ms[i].id in saved + Ids(before) then before else before + [ms[i]]
  {
    MissingNext(saved, ms, i);
    MissingPrefix(saved, ms, i + 1);
    next := Missing(saved, ms[..i + 1]);
  }

  lemma {:induction false} ApplyTakesUp(saved: seq<Record>, all: seq<Migration>, before: seq<Migration>,
                                        ms: seq<Migration>, i: nat, state: seq<Record>, w: World)
    requires all == Missing(IdsOf(saved), ms) && before <= all
    requires i <= |ms| && before == Missing(IdsOf(saved), ms[..i]) && Records(state, saved, before)
    ensures TakesUp(saved, all, |before|, ApplyFrom(ms, i, state, w))
    decreases |ms| - i
  {
    if i == |ms| {
      assert ms[..i] == ms;
      AllTaken(saved, state, all);
    } else {
      var next := MissingTakes(IdsOf(saved), ms, i, before);
      RecordsIds(state, saved, before);
      if ms[i].id in IdsOf(state) {
        ApplyTakesUp(saved, all, next, ms, i + 1, state, w);
      } else {
        RecordsNext(state, saved, before, ms[i], w.now(i));
        ApplyTakesUp(saved, all, next, ms, i + 1, state + [RecordOf(ms[i], w.now(i))], w);
        TakesNext(saved, state, all, before, ms, i, w);
      }
    }
  }

  /** Every Apply, from whatever the state file holds, takes up exactly the missing migrations in order, and adds
      a record for each of those that succeeded and could be saved. */
  lemma ApplyTakesMissing(saved: seq<Record>, ms: seq<Migration>, w: World)
    ensures
      var a := ApplyTo(saved, ms, w);
      if w.loads then TakesUp(saved, Missing(IdsOf(saved), ms), 0, a) else a == Applied(saved, [], [], false)
  {
    assert ms[..0] == [];
    assert Missing(IdsOf(saved), []) == [] && Records(saved, saved, []);
    ApplyTakesUp(saved, Missing(IdsOf(saved), ms), [], ms, 0, saved, w);
  }

  /** From a prefix of the deduplicated list, every Apply leaves a prefix that is no shorter; without an error,
      the whole list. */
  lemma ApplyKeepsPrefix(saved: seq<Record>, ms: seq<Migration>, w: World)
    requires IsPrefix(IdsOf(saved), ms)
    ensures
      var a := ApplyTo(saved, ms, w);
      && IsPrefix(IdsOf(a.saved), ms) && saved <= a.saved
      && (a.ok ==> IdsOf(a.saved) == Dedup(ms))
  {
    var all, a := Missing(IdsOf(saved), ms), ApplyTo(saved, ms, w);
    ApplyTakesMissing(saved, ms, w);
    var n, ids, x := PrefixPending(IdsOf(saved), ms, |ms|, Dedup(ms));
    FirstsIds(PendingOf(IdsOf(saved), ms));
    assert ms[..|ms|] == ms;
    assert Dedup(ms)[..x] == Dedup(ms);
    if w.loads {
      var k := if a.ok then |all| else |a.outcomes| - 1;
      assert all[..|all|] == all;
      RecordsIds(a.saved, saved, all[..k]);
      assert Ids(all[..k]) <= Ids(all);
    }
  }

  // ----- one Apply, told by what the world answers

  /** Migration k is the first with its id from i on, and its id is not in the state. */
  ghost predicate FirstPending(state: seq<Record>, ms: seq<Migration>, i: nat, k: int) {
    && i <= k < |ms|
    && (forall n :: 0 <= n < |state| ==> state[n].id != ms[k].id)
    && forall j :: i <= j < k ==> ms[j].id != ms[k].id
  }

  /** The code of migration k, if it has any, succeeds, and the state can be saved after it. */
  predicate Good(ms: seq<Migration>, w: World, k: nat)
    requires k < |ms|
  {
    (ms[k].runs ==> w.succeeds(k)) && w.saves(k)
  }

  /** Every pending migration before k was good, so the apply comes to k. */
  ghost predicate Reached(state: seq<Record>, ms: seq<Migration>, i: nat, w: World, k: int) {
    forall j :: j < k && FirstPending(state, ms, i, j) ==> Good(ms, w, j)
  }

  lemma PendingAfter(state: seq<Record>, ms: seq<Migration>, i: nat, r: Record, k: int)
    requires i < |ms| && r.id == ms[i].id
    ensures FirstPending(state + [r], ms, i + 1, k) <==> FirstPending(state, ms, i, k) && k != i
  {
    var next := state + [r];
    assert next[|state|] == r && forall n :: 0 <= n < |state| ==> next[n] == state[n];
  }

  lemma NotPending(state: seq<Record>, ms: seq<Migration>, i: nat, k: int)
    requires i < |ms| && ms[i].id in IdsOf(state)
    ensures FirstPending(state, ms, i + 1, k) <==> FirstPending(state, ms, i, k)
  {
    var n :| 0 <= n < |state| && IdsOf(state)[n] == ms[i].id;
    assert state[n].id == ms[i].id;
  }

  lemma PendingHere(state: seq<Record>, ms: seq<Migration>, i: nat)
    requires i < |ms| && ms[i].id !in IdsOf(state)
    ensures FirstPending(state, ms, i, i)
  {
    forall n | 0 <= n < |state| ensures state[n].id != ms[i].id {
      assert IdsOf(state)[n] == state[n].id;
    }
  }

  /** What is after the first index is reached as before, when that one was good or not pending. */
  lemma ReachedAfter(state: seq<Record>, next: seq<Record>, ms: seq<Migration>, i: nat, w: World, k: int)
    requires i < |ms|
    requires if ms[i].id in IdsOf(state) then next == state
             else Good(ms, w, i) && next == state + [RecordOf(ms[i], w.now(i))]
    ensures Reached(next, ms, i + 1, w, k) <==> Reached(state, ms, i, w, k)
  {
    forall j ensures FirstPending(next, ms, i + 1, j) <==>
      FirstPending(state, ms, i, j) && (ms[i].id in IdsOf(state) || j != i)
    {
      if ms[i].id in IdsOf(state) {
        NotPending(state, ms, i, j);
      } else {
        PendingAfter(state, ms, i, RecordOf(ms[i], w.now(i)), j);
      }
    }
  }

  /** What an apply leaves of one pending migration. */
  ghost predicate Tells(ms: seq<Migration>, w: World, a: Applied, k: nat, reached: bool)
    requires k < |ms|
  {
    && (forall n :: 0 <= n < |a.outcomes| && a.outcomes[n].id == ms[k].id ==>
          reached && a.outcomes[n] == Outcome(ms[k].id, ms[k].description, ms[k].runs ==> w.succeeds(k)))
    && (reached ==> Outcome(ms[k].id, ms[k].description, ms[k].runs ==> w.succeeds(k)) in a.outcomes)
    && (forall n :: 0 <= n < |a.saved| && a.saved[n].id == ms[k].id ==>
          reached && Good(ms, w, k) && a.saved[n] == Record(ms[k].id, w.now(k), ms[k].description))
    && (reached && Good(ms, w, k) ==> Record(ms[k].id, w.now(k), ms[k].description) in a.saved)
    && (ms[k].id in a.ran <==> reached && ms[k].runs)
  }

  lemma TellsLater(ms: seq<Migration>, w: World, a: Applied, rest: Applied, i: nat, k: nat, reached: bool)
    requires i < |ms| && k < |ms| && ms[i].id != ms[k].id && Tells(ms, w, rest, k, reached)
    requires a.saved == rest.saved && a.outcomes == [OutcomeOf(ms[i], true)] + rest.outcomes
    requires a.ran == CodeOf(ms[i]) + rest.ran
    ensures Tells(ms, w, a, k, reached)
  {
    assert a.outcomes[0].id == ms[i].id;
    assert forall n :: 0 < n < |a.outcomes| ==> a.outcomes[n] == rest.outcomes[n - 1];
  }

  lemma TellsNow(ms: seq<Migration>, i: nat, state: seq<Record>, w: World)
    requires FirstPending(state, ms, i, i)
    ensures Tells(ms, w, ApplyFrom(ms, i, state, w), i, true)
  {
    assert ms[i].id !in IdsOf(state);
    var a := ApplyFrom(ms, i, state, w);
    if Good(ms, w, i) {
      var r := RecordOf(ms[i], w.now(i));
      var next := state + [r];
      var rest := ApplyFrom(ms, i + 1, next, w);
      IdsOfLast(state, r);
      KeepsSaved(ms, i + 1, next, w);
      assert next[|state|] == r && rest.saved[|state|] == r;
      NoSecond(ms, i + 1, next, w, |state|);
      assert a.outcomes[0].id == ms[i].id;
    }
  }

  /** An id in the state is neither saved nor told a second time. */
  lemma {:induction false} NoSecond(ms: seq<Migration>, i: nat, state: seq<Record>, w: World, at: nat)
    requires at < |state| && forall n :: 0 <= n < |state| && state[n].id == state[at].id ==> n == at
    ensures
      var a := ApplyFrom(ms, i, state, w);
      && (forall n :: 0 <= n < |a.outcomes| ==> a.outcomes[n].id != state[at].id)
      && (forall n :: 0 <= n < |a.saved| && a.saved[n].id == state[at].id ==> n == at)
      && state[at].id !in a.ran
    decreases |ms| - i
  {
    if i < |ms| {
      assert IdsOf(state)[at] == state[at].id;
      if ms[i].id in IdsOf(state) {
        NoSecond(ms, i + 1, state, w, at);
      } else {
        var next := state + [RecordOf(ms[i], w.now(i))];
        assert next[at] == state[at] && forall n :: 0 <= n < |state| ==> next[n] == state[n];
        NoSecond(ms, i + 1, next, w, at);
      }
    }
  }

  lemma {:induction false} ApplyFromTells(ms: seq<Migration>, i: nat, state: seq<Record>, w: World, k: nat)
    requires FirstPending(state, ms, i, k)
    ensures Tells(ms, w, ApplyFrom(ms, i, state, w), k, Reached(state, ms, i, w, k))
    decreases |ms| - i
  {
    if i == k {
      TellsNow(ms, i, state, w);
    } else if ms[i].id in IdsOf(state) {
      NotPending(state, ms, i, k);
      ReachedAfter(state, state, ms, i, w, k);
      ApplyFromTells(ms, i + 1, state, w, k);
    } else {
      PendingHere(state, ms, i);
      if Good(ms, w, i) {
        var next := state + [RecordOf(ms[i], w.now(i))];
        PendingAfter(state, ms, i, RecordOf(ms[i], w.now(i)), k);
        ReachedAfter(state, next, ms, i, w, k);
        ApplyFromTells(ms, i + 1, next, w, k);
        TellsLater(ms, w, ApplyFrom(ms, i, state, w), ApplyFrom(ms, i + 1, next, w), i, k,
                   Reached(state, ms, i, w, k));
      } else {
        assert !Reached(state, ms, i, w, k);
      }
    }
  }

  /** What one Apply does with each pending migration, for any list, any state file and any answers of the world:
      it comes to it if every pending one before it succeeded and was saved. Then its code runs, if it has any;
      the outcome tells whether that succeeded; and a record is added if, besides, the state could be saved. Of
      a migration it does not come to nothing is left. */
  lemma ApplyTells(saved: seq<Record>, ms: seq<Migration>, w: World, k: nat)
    requires w.loads && FirstPending(saved, ms, 0, k)
    ensures Tells(ms, w, ApplyTo(saved, ms, w), k, Reached(saved, ms, 0, w, k))
  {
    ApplyFromTells(ms, 0, saved, w, k);
  }

  lemma {:induction false} SavedFrom(ms: seq<Migration>, i: nat, state: seq<Record>, w: World, r: Record)
    returns (k: nat)
    requires r in ApplyFrom(ms, i, state, w).saved && r !in state
    ensures i <= k < |ms| && r == Record(ms[k].id, w.now(k), ms[k].description)
    ensures (ms[k].runs ==> w.succeeds(k)) && w.saves(k)
    decreases |ms| - i
  {
    if ms[i].id in IdsOf(state) {
      k := SavedFrom(ms, i + 1, state, w, r);
    } else if r == RecordOf(ms[i], w.now(i)) {
      k := i;
    } else {
      k := SavedFrom(ms, i + 1, state + [RecordOf(ms[i], w.now(i))], w, r);
    }
  }

  /** Whatever a state file holds newly is a migration whose code succeeded, and after which it could be saved. */
  lemma SavedOnlyAfterSuccess(saved: seq<Record>, ms: seq<Migration>, w: World, r: Record)
    requires r in ApplyTo(saved, ms, w).saved && r !in saved
    ensures exists k: nat ::
      && k < |ms| && r == Record(ms[k].id, w.now(k), ms[k].description)
      && (ms[k].runs ==> w.succeeds(k)) && w.saves(k)
  {
    var k := SavedFrom(ms, 0, saved, w, r);
  }

  lemma {:induction false} OkFrom(ms: seq<Migration>, i: nat, state: seq<Record>, w: World)
    ensures ApplyFrom(ms, i, state, w).ok <==> Reached(state, ms, i, w, |ms|)
    decreases |ms| - i
  {
    if i < |ms| {
      if ms[i].id in IdsOf(state) {
        ReachedAfter(state, state, ms, i, w, |ms|);
        OkFrom(ms, i + 1, state, w);
      } else {
        PendingHere(state, ms, i);
        if Good(ms, w, i) {
          ReachedAfter(state, state + [RecordOf(ms[i], w.now(i))], ms, i, w, |ms|);
          OkFrom(ms, i + 1, state + [RecordOf(ms[i], w.now(i))], w);
        }
      }
    }
  }

  /** An apply ends without an error exactly when the state could be read, and every pending migration succeeds
      and is saved. */
  lemma NoErrorIff(saved: seq<Record>, ms: seq<Migration>, w: World)
    ensures ApplyTo(saved, ms, w).ok <==>
      && w.loads
      && forall k :: FirstPending(saved, ms, 0, k) ==> (ms[k].runs ==> w.succeeds(k)) && w.saves(k)
  {
    OkFrom(ms, 0, saved, w);
  }

  // ----- any sequence of applies

  datatype Call = Call(migrations: seq<Migration>, world: World)

  /** Later lists only add migrations at the end. */
  predicate Grows(calls: seq<Call>) {
    forall i :: 0 < i < |calls| ==> calls[i - 1].migrations <= calls[i].migrations
  }

  function SavedAfter(saved: seq<Record>, calls: seq<Call>): seq<Record>
    decreases |calls|
  {
    if calls == [] then saved
    else SavedAfter(ApplyTo(saved, calls[0].migrations, calls[0].world).saved, calls[1..])
  }

  lemma PrefixGrows(saved: seq<string>, ms: seq<Migration>, more: seq<Migration>)
    requires IsPrefix(saved, ms) && ms <= more
    ensures IsPrefix(saved, more)
  {
    assert more[..|ms|] == ms;
    DedupPrefix(more, |ms|);
  }

  lemma {:induction false} KeepsSaved(ms: seq<Migration>, i: nat, state: seq<Record>, w: World)
    ensures
      var a := ApplyFrom(ms, i, state, w);
      && state <= a.saved && (Distinct(IdsOf(state)) ==> Distinct(IdsOf(a.saved)))
      && forall id :: id in IdsOf(state) ==> id !in a.ran
    decreases |ms| - i
  {
    if i < |ms| && ms[i].id in IdsOf(state) {
      KeepsSaved(ms, i + 1, state, w);
    } else if i < |ms| {
      var r := RecordOf(ms[i], w.now(i));
      IdsOfLast(state, r);
      KeepsSaved(ms, i + 1, state + [r], w);
    }
  }

  /** Over any sequence of applies of any lists, the state file only ever grows, and never comes to hold an id
      twice. */
  lemma {:induction false} SavedOnlyGrows(saved: seq<Record>, calls: seq<Call>)
    ensures saved <= SavedAfter(saved, calls)
    ensures Distinct(IdsOf(saved)) ==> Distinct(IdsOf(SavedAfter(saved, calls)))
    decreases |calls|
  {
    if calls != [] {
      KeepsSaved(calls[0].migrations, 0, saved, calls[0].world);
      SavedOnlyGrows(ApplyTo(saved, calls[0].migrations, calls[0].world).saved, calls[1..]);
    }
  }

  /** When later lists only add migrations at the end, what is saved stays a prefix of the deduplicated list. */
  lemma {:induction false} SavedIsPrefix(saved: seq<Record>, calls: seq<Call>)
    requires calls != [] && Grows(calls) && IsPrefix(IdsOf(saved), calls[0].migrations)
    ensures IsPrefix(IdsOf(SavedAfter(saved, calls)), calls[|calls| - 1].migrations)
    ensures saved <= SavedAfter(saved, calls)
    decreases |calls|
  {
    var rest := calls[1..];
    var next := ApplyTo(saved, calls[0].migrations, calls[0].world).saved;
    ApplyKeepsPrefix(saved, calls[0].migrations, calls[0].world);
    if rest != [] {
      assert forall i :: 0 <= i < |rest| ==> rest[i] == calls[i + 1];
      PrefixGrows(IdsOf(next), calls[0].migrations, rest[0].migrations);
      SavedIsPrefix(next, rest);
    }
  }

  /** The ids whose code the applies run, one list per call. */
  function RanIn(saved: seq<Record>, calls: seq<Call>, i: nat): seq<string>
    requires i < |calls|
    decreases i
  {
    if i == 0 then ApplyTo(saved, calls[0].migrations, calls[0].world).ran
    else RanIn(ApplyTo(saved, calls[0].migrations, calls[0].world).saved, calls[1..], i - 1)
  }

  lemma StillThere(saved: seq<Record>, more: seq<Record>, id: string)
    requires saved <= more && id in IdsOf(saved)
    ensures id in IdsOf(more)
  {
    var k :| 0 <= k < |saved| && IdsOf(saved)[k] == id;
    assert IdsOf(more)[k] == id;
  }

  /** A migration that was saved once is never run again by any later apply, whatever lists those applies are
      given and whatever the state file held besides. */
  lemma {:induction false} NeverRunsAgain(saved: seq<Record>, calls: seq<Call>, i: nat, id: string)
    requires i < |calls| && id in IdsOf(saved)
    ensures id !in RanIn(saved, calls, i)
    decreases i
  {
    var a := ApplyTo(saved, calls[0].migrations, calls[0].world);
    KeepsSaved(calls[0].migrations, 0, saved, calls[0].world);
    if i > 0 {
      StillThere(saved, a.saved, id);
      NeverRunsAgain(a.saved, calls[1..], i - 1, id);
    }
  }

  lemma {:induction false} NonePending(saved: seq<string>, ms: seq<Migration>)
    requires forall m :: m in ms ==> m.id in saved
    ensures PendingOf(saved, ms) == []
  {
    if ms != [] {
      assert ms == ms[..|ms| - 1] + [ms[|ms| - 1]];
      NonePending(saved, ms[..|ms| - 1]);
    }
  }

  lemma {:induction false} SavesAll(ms: seq<Migration>, i: nat, state: seq<Record>, w: World, k: nat)
    requires i <= k < |ms| && ApplyFrom(ms, i, state, w).ok
    ensures ms[k].id in IdsOf(ApplyFrom(ms, i, state, w).saved)
    decreases k - i
  {
    var r := RecordOf(ms[i], w.now(i));
    IdsOfLast(state, r);
    var next := if ms[i].id in IdsOf(state) then state else state + [r];
    if i == k {
      KeepsSaved(ms, i + 1, next, w);
      assert ms[k].id in IdsOf(next);
      StillThere(next, ApplyFrom(ms, i + 1, next, w).saved, ms[k].id);
    } else {
      SavesAll(ms, i + 1, next, w, k);
    }
  }

  lemma {:induction false} NothingLeft(ms: seq<Migration>, i: nat, state: seq<Record>, w: World)
    requires forall k :: i <= k < |ms| ==> ms[k].id in IdsOf(state)
    ensures ApplyFrom(ms, i, state, w) == Applied(state, [], [], true)
    decreases |ms| - i
  {
    if i < |ms| {
      NothingLeft(ms, i + 1, state, w);
    }
  }

  /** After an apply without an error, from whatever the state file held, nothing is pending, and applying the
      same list again runs nothing and changes nothing, whatever would fail. */
  lemma ApplyTwice(saved: seq<Record>, ms: seq<Migration>, w: World, again: World)
    requires ApplyTo(saved, ms, w).ok
    ensures
      var done := ApplyTo(saved, ms, w).saved;
      && PendingOf(IdsOf(done), ms) == []
      && ApplyTo(done, ms, again) == Applied(done, [], [], again.loads)
  {
    var done := ApplyTo(saved, ms, w).saved;
    forall k | 0 <= k < |ms| ensures ms[k].id in IdsOf(done) {
      SavesAll(ms, 0, saved, w, k);
    }
    NonePending(IdsOf(done), ms);
    NothingLeft(ms, 0, done, again);
  }

  // ----- the engine

  class Engine {
    /** The state file. */
    var saved: seq<Record>
    /** The ids whose code was run. */
    ghost var ran: seq<string>

    constructor ()
      ensures saved == [] && ran == []
    {
      saved, ran := [], [];
    }

    method LoadState(w: World) returns (state: Option<seq<Record>>)
      ensures state == if w.loads then Some(saved) else None
    {
      return if w.loads then Some(saved) else None;
    }

    /** The set of applied ids that Pending and Apply look ids up in. */
    method AppliedIds(state: seq<Record>) returns (applied: set<string>)
      ensures forall id :: id in applied <==> id in IdsOf(state)
    {
      applied := {};
      for i := 0 to |state|
        invariant forall id :: id in applied <==> id in IdsOf(state[..i])
      {
        assert state[..i + 1] == state[..i] + [state[i]];
        IdsOfLast(state[..i], state[i]);
        applied := applied + {state[i].id};
      }
      assert state[..|state|] == state;
    }

    method Pending(migrations: seq<Migration>, w: World) returns (pending: Option<seq<Migration>>)
      ensures pending == if w.loads then Some(PendingOf(IdsOf(saved), migrations)) else None
    {
      var state := LoadState(w);
      if state.None? {
        return None;
      }
      var applied := AppliedIds(state.value);
      var list := [];
      for i := 0 to |migrations|
        invariant list == PendingOf(IdsOf(saved), migrations[..i])
      {
        assert migrations[..i + 1][..i] == migrations[..i];
        if migrations[i].id !in applied {
          list := list + [migrations[i]];
        }
      }
      assert migrations[..|migrations|] == migrations;
      return Some(list);
    }

    method Apply(migrations: seq<Migration>, w: World) returns (outcomes: seq<Outcome>, ok: bool)
      modifies this
      ensures
        var a := ApplyTo(old(saved), migrations, w);
        saved == a.saved && outcomes == a.outcomes && ran == old(ran) + a.ran && ok == a.ok
    {
      outcomes := [];
      var loaded := LoadState(w);
      if loaded.None? {
        return [], false;
      }
      var state := loaded.value;
      var applied := AppliedIds(state);
      ghost var here: seq<string> := [];
      ghost var all := ApplyTo(saved, migrations, w);
      Onto0(ApplyFrom(migrations, 0, state, w));
      var i := 0;
      while i < |migrations|
        invariant 0 <= i <= |migrations|
        invariant (forall id :: id in applied <==> id in IdsOf(state)) && saved == state && ran == old(ran) + here
        invariant Onto(outcomes, here, ApplyFrom(migrations, i, state, w)) == all
      {
        var m := migrations[i];
        if m.id in applied {
          i := i + 1;
          continue;
        }
        var record := Record(m.id, w.now(i), m.description);
        IdsOfLast(state, record);
        OntoStep(outcomes, here, OutcomeOf(m, true), CodeOf(m), ApplyFrom(migrations, i + 1, state + [record], w));
        if m.runs {
          ran := ran + [m.id];
          if !w.succeeds(i) {
            outcomes := outcomes + [Outcome(m.id, m.description, false)];
            return outcomes, false;
          }
        }
        outcomes := outcomes + [Outcome(m.id, m.description, true)];
        here := here + CodeOf(m);
        state := state + [record];
        applied := applied + {m.id};
        if !w.saves(i) {
          return outcomes, false;
        }
        saved := state;
        i := i + 1;
      }
      ok := true;
    }
  }

  /** What an Apply returns in the end, when rest is what its remaining migrations bring. */
  ghost function Onto(outcomes: seq<Outcome>, ran: seq<string>, rest: Applied): Applied {
    Applied(rest.saved, outcomes + rest.outcomes, ran + rest.ran, rest.ok)
  }

  lemma Onto0(rest: Applied)
    ensures Onto([], [], rest) == rest
  {
  }

  lemma OntoStep(outcomes: seq<Outcome>, ran: seq<string>, o: Outcome, now: seq<string>, rest: Applied)
    ensures Onto(outcomes + [o], ran + now, rest) ==
      Onto(outcomes, ran, Applied(rest.saved, [o] + rest.outcomes, now + rest.ran, rest.ok))
  {
  }
}
