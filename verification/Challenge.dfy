/** One-time code challenges: pkg/owner/domain/challenge.go, kept in memory or in a store.

    Both backends are first given as step functions over the table of challenges, so that runs of calls can be
    reasoned about; the manager's methods below are proved to take exactly these steps. */
module Challenge {
  import opened Strings

  /** In seconds. */
  const DEFAULT_TTL := 10 * 60
  const DEFAULT_MAX_ATTEMPTS := 3

  /** Times are seconds after the zero time. */
  datatype Record = Record(
    id: nat, codeHash: string, salt: string, attempts: nat, maxAttempts: int, verified: bool, expiresAt: nat)

  type Table = map<string, Record>

  /** The zero time never expires. */
  predicate IsExpired(c: Record, now: nat) {
    c.expiresAt != 0 && now > c.expiresAt
  }

  /** Library code: lower-casing, and the salted hash of a code. */
  datatype Library = Library(lower: string -> string, hash: (string, string) -> string)

  function Key(lib: Library, email: string): string {
    lib.lower(TrimSpace(email))
  }

  /** The calls to the store that fail; a call that fails changes nothing. */
  datatype Faults = Faults(save: bool, get: bool, prune: bool, increment: bool, mark: bool)

  const NO_FAULTS := Faults(false, false, false, false, false)

  /** One call. The new challenge's id and salt are random, so they are part of the call, as are the answers of
      the store, which the in-memory manager does not ask. */
  datatype Call =
    | Create(email: string, code: string, at: nat, faults: Faults, ttl: int, id: nat, salt: string)
    | Verify(email: string, code: string, at: nat, faults: Faults)

  datatype Reply =
    | Created | EmptyEmail | EmptyCode | StoreFailed
    | Accepted | NotFound | Expired | TooManyAttempts | InvalidCode

  /** The table after a call, the reply, and the challenge whose hash was compared, if one was. */
  datatype Step = Step(table: Table, reply: Reply, compared: Option<nat>)

  datatype Backend = InMemory | Persistent

  function NewRecord(lib: Library, c: Call): Record
    requires c.Create?
  {
    Record(c.id, lib.hash(TrimSpace(c.code), c.salt), c.salt, 0, DEFAULT_MAX_ATTEMPTS, false,
           c.at + if c.ttl <= 0 then DEFAULT_TTL else c.ttl)
  }

  predicate Matches(lib: Library, r: Record, code: string) {
    r.codeHash == lib.hash(TrimSpace(code), r.salt)
  }

  function MemoryVerify(lib: Library, t: Table, key: string, code: string, now: nat): Step {
    if key !in t then Step(t, NotFound, None)
    else if IsExpired(t[key], now) then Step(t - {key}, Expired, None)
    else if Matches(lib, t[key], code) then Step(t - {key}, Accepted, Some(t[key].id))
    else
      var r := t[key].(attempts := t[key].attempts + 1);
      if r.attempts >= r.maxAttempts then Step(t - {key}, TooManyAttempts, Some(r.id))
      else Step(t[key := r], InvalidCode, Some(r.id))
  }

  function Pruned(t: Table, now: nat): Table {
    map key | key in t && !IsExpired(t[key], now) :: t[key]
  }

  /** The end of a verification in the store: the attempt is counted, and the code compared. */
  function CompareStored(lib: Library, t: Table, key: string, code: string, f: Faults): Step
    requires key in t
  {
    var r := t[key].(attempts := t[key].attempts + 1);
    if !Matches(lib, r, code) then
      Step(t[key := r], if r.attempts >= r.maxAttempts then TooManyAttempts else InvalidCode, Some(r.id))
    else if f.mark then Step(t[key := r], StoreFailed, Some(r.id))
    else Step(t[key := r.(verified := true)], Accepted, Some(r.id))
  }

  function StoreVerify(lib: Library, t: Table, key: string, code: string, now: nat, f: Faults): Step {
    if f.get then Step(t, StoreFailed, None)
    else if key !in t || t[key].verified then Step(t, NotFound, None)
    else if IsExpired(t[key], now) then Step(if f.prune then t else Pruned(t, now), Expired, None)
    else if t[key].attempts >= t[key].maxAttempts then Step(t, TooManyAttempts, None)
    else if f.increment then Step(t, StoreFailed, None)
    else CompareStored(lib, t, key, code, f)
  }

  function StepOf(lib: Library, b: Backend, t: Table, c: Call): Step {
    var key := Key(lib, c.email);
    if key == "" then Step(t, EmptyEmail, None)
    else if TrimSpace(c.code) == "" then Step(t, EmptyCode, None)
    else if c.Create? then
      if b.Persistent? && c.faults.save then Step(t, StoreFailed, None)
      else Step(t[key := NewRecord(lib, c)], Created, None)
    else if b.InMemory? then MemoryVerify(lib, t, key, c.code, c.at)
    else StoreVerify(lib, t, key, c.code, c.at, c.faults)
  }

  function Run(lib: Library, b: Backend, t: Table, calls: seq<Call>): (steps: seq<Step>)
    ensures |steps| == |calls|
    decreases |calls|
  {
    if calls == [] then []
    else
      var step := StepOf(lib, b, t, calls[0]);
      [step] + Run(lib, b, step.table, calls[1..])
  }

  // ----- every challenge is compared at most three times and accepted at most once

  function Comparisons(steps: seq<Step>, id: nat): nat {
    if steps == [] then 0
    else (if steps[0].compared == Some(id) then 1 else 0) + Comparisons(steps[1..], id)
  }

  function Acceptances(steps: seq<Step>, id: nat): nat {
    if steps == [] then 0
    else (if steps[0].compared == Some(id) && steps[0].reply == Accepted then 1 else 0)
         + Acceptances(steps[1..], id)
  }

  /** No call creates a challenge whose id is taken: ids are random. */
  predicate FreshIds(calls: seq<Call>, taken: set<nat>) {
    calls == [] ||
    if calls[0].Create? then calls[0].id !in taken && FreshIds(calls[1..], taken + {calls[0].id})
    else FreshIds(calls[1..], taken)
  }

  ghost predicate UniqueIds(t: Table) {
    forall j, k :: j in t && k in t && t[j].id == t[k].id ==> j == k
  }

  /** What every table of a run satisfies: ids are taken and name one record each, no record is past its
      limit, and the in-memory table drops a record as soon as it is used up. */
  ghost predicate Sound(b: Backend, t: Table, taken: set<nat>) {
    && (forall k :: k in t ==> t[k].id in taken && t[k].attempts <= t[k].maxAttempts == DEFAULT_MAX_ATTEMPTS)
    && UniqueIds(t)
    && (b.InMemory? ==> forall k :: k in t ==> !t[k].verified && t[k].attempts < t[k].maxAttempts)
  }

  /** How often the challenge may still be compared and accepted. */
  ghost predicate AtMost(t: Table, taken: set<nat>, id: nat, compared: nat, accepted: nat) {
    && (id !in taken ==> compared >= DEFAULT_MAX_ATTEMPTS && accepted >= 1)
    && forall k :: k in t && t[k].id == id && !t[k].verified ==>
         compared >= t[k].maxAttempts - t[k].attempts && accepted >= 1
  }

  function TakenAfter(c: Call, taken: set<nat>): set<nat> {
    if c.Create? then taken + {c.id} else taken
  }

  /** A step of a verification, seen from one challenge: what it uses up is taken off what was left. */
  ghost predicate Uses(step: Step, b: Backend, taken: set<nat>, id: nat, compared: nat, accepted: nat) {
    var left := compared - if step.compared == Some(id) then 1 else 0;
    var uses := accepted - if step.compared == Some(id) && step.reply == Accepted then 1 else 0;
    && left >= 0 && uses >= 0
    && Sound(b, step.table, taken) && AtMost(step.table, taken, id, left, uses)
  }

  lemma SmallerLimited(b: Backend, t: Table, smaller: Table, taken: set<nat>, id: nat, compared: nat, accepted: nat)
    requires Sound(b, t, taken) && AtMost(t, taken, id, compared, accepted)
    requires forall k :: k in smaller ==> k in t && smaller[k] == t[k]
    ensures Sound(b, smaller, taken) && AtMost(smaller, taken, id, compared, accepted)
  {
  }

  /** The record under the key was compared: it is dropped, or has one attempt more. */
  lemma ComparedLimited(
      b: Backend, t: Table, key: string, r: Record, taken: set<nat>, id: nat, compared: nat, accepted: nat)
    requires Sound(b, t, taken) && AtMost(t, taken, id, compared, accepted)
    requires key in t && !t[key].verified && t[key].attempts < t[key].maxAttempts
    requires r.id == t[key].id && r.attempts == t[key].attempts + 1 && r.maxAttempts == t[key].maxAttempts
    ensures
      var left := compared - if r.id == id then 1 else 0;
      var uses := accepted - if r.id == id && r.verified then 1 else 0;
      && left >= 0 && uses >= 0
      && Sound(b, t - {key}, taken) && AtMost(t - {key}, taken, id, left, uses)
      && (b.Persistent? || (!r.verified && r.attempts < r.maxAttempts) ==>
           Sound(b, t[key := r], taken) && AtMost(t[key := r], taken, id, left, uses))
  {
  }

  lemma MemoryLimited(
      lib: Library, t: Table, key: string, code: string, now: nat, taken: set<nat>, id: nat, compared: nat,
      accepted: nat)
    requires Sound(InMemory, t, taken) && AtMost(t, taken, id, compared, accepted)
    ensures Uses(MemoryVerify(lib, t, key, code, now), InMemory, taken, id, compared, accepted)
  {
    if key in t {
      SmallerLimited(InMemory, t, t - {key}, taken, id, compared, accepted);
      var r := t[key].(attempts := t[key].attempts + 1, verified := Matches(lib, t[key], code));
      ComparedLimited(InMemory, t, key, r, taken, id, compared, accepted);
    }
  }

  lemma CompareLimited(lib: Library, t: Table, key: string, code: string, f: Faults, taken: set<nat>, id: nat,
                       compared: nat, accepted: nat)
    requires Sound(Persistent, t, taken) && AtMost(t, taken, id, compared, accepted)
    requires key in t && !t[key].verified && t[key].attempts < t[key].maxAttempts
    ensures Uses(CompareStored(lib, t, key, code, f), Persistent, taken, id, compared, accepted)
  {
    var r := t[key].(attempts := t[key].attempts + 1, verified := Matches(lib, t[key], code) && !f.mark);
    ComparedLimited(Persistent, t, key, r, taken, id, compared, accepted);
  }

  lemma StoreLimited(lib: Library, t: Table, key: string, code: string, now: nat, f: Faults, taken: set<nat>, id: nat,
                     compared: nat, accepted: nat)
    requires Sound(Persistent, t, taken) && AtMost(t, taken, id, compared, accepted)
    ensures Uses(StoreVerify(lib, t, key, code, now, f), Persistent, taken, id, compared, accepted)
  {
    SmallerLimited(Persistent, t, Pruned(t, now), taken, id, compared, accepted);
    if key in t && !t[key].verified && t[key].attempts < t[key].maxAttempts {
      CompareLimited(lib, t, key, code, f, taken, id, compared, accepted);
    }
  }

  lemma CreateLimited(
      lib: Library, b: Backend, t: Table, c: Call, taken: set<nat>, id: nat, compared: nat, accepted: nat)
    requires c.Create? && c.id !in taken && Sound(b, t, taken) && AtMost(t, taken, id, compared, accepted)
    ensures Uses(StepOf(lib, b, t, c), b, taken + {c.id}, id, compared, accepted)
  {
    var next := StepOf(lib, b, t, c).table;
    assert forall k :: k in next && (k !in t || next[k] != t[k]) ==> next[k] == NewRecord(lib, c);
  }

  lemma StepLimited(lib: Library, b: Backend, t: Table, c: Call, taken: set<nat>, id: nat, compared: nat, accepted: nat)
    requires Sound(b, t, taken) && FreshIds([c], taken) && AtMost(t, taken, id, compared, accepted)
    ensures Uses(StepOf(lib, b, t, c), b, TakenAfter(c, taken), id, compared, accepted)
  {
    if c.Create? {
      CreateLimited(lib, b, t, c, taken, id, compared, accepted);
    } else if b.InMemory? {
      MemoryLimited(lib, t, Key(lib, c.email), c.code, c.at, taken, id, compared, accepted);
    } else {
      StoreLimited(lib, t, Key(lib, c.email), c.code, c.at, c.faults, taken, id, compared, accepted);
    }
  }

  lemma {:induction false} RunLimited(
      lib: Library, b: Backend, t: Table, calls: seq<Call>, taken: set<nat>, id: nat, compared: nat, accepted: nat)
    requires Sound(b, t, taken) && FreshIds(calls, taken) && AtMost(t, taken, id, compared, accepted)
    ensures Comparisons(Run(lib, b, t, calls), id) <= compared
    ensures Acceptances(Run(lib, b, t, calls), id) <= accepted
    decreases |calls|
  {
    if calls != [] {
      var c := calls[0];
      var step := StepOf(lib, b, t, c);
      StepLimited(lib, b, t, c, taken, id, compared, accepted);
      var left := compared - if step.compared == Some(id) then 1 else 0;
      var uses := accepted - if step.compared == Some(id) && step.reply == Accepted then 1 else 0;
      RunLimited(lib, b, step.table, calls[1..], TakenAfter(c, taken), id, left, uses);
    }
  }

  /** Over every run of either backend, on any clock, with a store that may fail at any call: a challenge's hash
      is compared at most three times, and it is accepted at most once. */
  lemma EachChallengeLimited(lib: Library, b: Backend, calls: seq<Call>, id: nat)
    requires FreshIds(calls, {})
    ensures Comparisons(Run(lib, b, map[], calls), id) <= DEFAULT_MAX_ATTEMPTS
    ensures Acceptances(Run(lib, b, map[], calls), id) <= 1
  {
    RunLimited(lib, b, map[], calls, {}, id, DEFAULT_MAX_ATTEMPTS, 1);
  }

  // ----- the two backends give the same verdict

  /** The clock does not go back. */
  ghost predicate Monotone(calls: seq<Call>) {
    forall i, j :: 0 <= i < j < |calls| ==> calls[i].at <= calls[j].at
  }

  ghost predicate Faultless(calls: seq<Call>) {
    forall i :: 0 <= i < |calls| ==> calls[i].faults == NO_FAULTS
  }

  /** The in-memory table and the store at one moment. What only memory still has is expired and was pruned
      from the store; what only the store still has is used up. */
  ghost predicate Agree(memory: Table, store: Table, now: nat) {
    && (forall k :: k in memory ==>
         && !memory[k].verified && memory[k].attempts < memory[k].maxAttempts
         && if k in store then store[k] == memory[k] else IsExpired(memory[k], now))
    && forall k :: k in store && k !in memory ==> store[k].verified || store[k].attempts >= store[k].maxAttempts
  }

  /** The replies are the same, or both refuse because no usable challenge is left. */
  predicate SameReply(memory: Reply, store: Reply) {
    || memory == store
    || (memory == NotFound && (store == TooManyAttempts || store == Expired))
    || (memory == Expired && store == NotFound)
  }

  lemma PruneAgrees(memory: Table, store: Table, now: nat)
    requires Agree(memory, store, now)
    ensures Agree(memory, Pruned(store, now), now)
  {
  }

  lemma RemoveAgrees(memory: Table, store: Table, key: string, now: nat)
    requires Agree(memory, store, now)
    requires key in store ==> store[key].verified || store[key].attempts >= store[key].maxAttempts
    ensures Agree(memory - {key}, store, now)
  {
  }

  lemma UpdateAgrees(memory: Table, store: Table, key: string, r: Record, now: nat)
    requires Agree(memory, store, now)
    ensures !r.verified && r.attempts < r.maxAttempts ==> Agree(memory[key := r], store[key := r], now)
    ensures r.verified || r.attempts >= r.maxAttempts ==> Agree(memory - {key}, store[key := r], now)
  {
  }

  lemma VerifyAgrees(lib: Library, memory: Table, store: Table, key: string, code: string, now: nat)
    requires Agree(memory, store, now)
    ensures
      var m, s := MemoryVerify(lib, memory, key, code, now), StoreVerify(lib, store, key, code, now, NO_FAULTS);
      && Agree(m.table, s.table, now) && SameReply(m.reply, s.reply) && m.compared == s.compared
  {
    PruneAgrees(memory, store, now);
    if key in memory {
      var ch := memory[key];
      if key !in store {
        RemoveAgrees(memory, store, key, now);
      } else if IsExpired(ch, now) {
        RemoveAgrees(memory, Pruned(store, now), key, now);
      } else {
        var r := ch.(attempts := ch.attempts + 1);
        UpdateAgrees(memory, store, key, if Matches(lib, ch, code) then r.(verified := true) else r, now);
      }
    }
  }

  lemma StepAgrees(lib: Library, memory: Table, store: Table, c: Call, now: nat)
    requires Agree(memory, store, now) && now <= c.at && c.faults == NO_FAULTS
    ensures
      var m, s := StepOf(lib, InMemory, memory, c), StepOf(lib, Persistent, store, c);
      && Agree(m.table, s.table, c.at) && SameReply(m.reply, s.reply) && m.compared == s.compared
  {
    assert Agree(memory, store, c.at);
    if c.Verify? {
      VerifyAgrees(lib, memory, store, Key(lib, c.email), c.code, c.at);
    }
  }

  lemma RunAt(lib: Library, b: Backend, t: Table, calls: seq<Call>, i: nat)
    requires i < |calls|
    ensures
      var step := StepOf(lib, b, t, calls[0]);
      Run(lib, b, t, calls)[i] == if i == 0 then step else Run(lib, b, step.table, calls[1..])[i - 1]
  {
  }

  /** On the same calls, with a clock that does not go back and a store that does not fail, both backends compare
      the same challenges and accept or refuse alike at every step. */
  lemma {:induction false} SameVerdicts(lib: Library, memory: Table, store: Table, calls: seq<Call>, now: nat, i: nat)
    requires Agree(memory, store, now) && Monotone(calls) && (calls != [] ==> now <= calls[0].at)
    requires Faultless(calls) && i < |calls|
    ensures
      var m, s := Run(lib, InMemory, memory, calls)[i], Run(lib, Persistent, store, calls)[i];
      && SameReply(m.reply, s.reply) && m.compared == s.compared && (m.reply == Accepted <==> s.reply == Accepted)
    decreases |calls|, 1
  {
    StepAgrees(lib, memory, store, calls[0], now);
    RunAt(lib, InMemory, memory, calls, i);
    RunAt(lib, Persistent, store, calls, i);
    if i > 0 {
      NextVerdicts(lib, StepOf(lib, InMemory, memory, calls[0]).table, StepOf(lib, Persistent, store, calls[0]).table,
                   calls, i);
    }
  }

  lemma {:induction false} NextVerdicts(lib: Library, memory: Table, store: Table, calls: seq<Call>, i: nat)
    requires Monotone(calls) && Faultless(calls) && 0 < i < |calls| && Agree(memory, store, calls[0].at)
    ensures
      var m, s := Run(lib, InMemory, memory, calls[1..])[i - 1], Run(lib, Persistent, store, calls[1..])[i - 1];
      && SameReply(m.reply, s.reply) && m.compared == s.compared && (m.reply == Accepted <==> s.reply == Accepted)
    decreases |calls|, 0
  {
    var rest := calls[1..];
    assert forall j :: 0 <= j < |rest| ==> rest[j] == calls[j + 1];
    SameVerdicts(lib, memory, store, rest, calls[0].at, i - 1);
  }

  // ----- a right code within the limit and before expiry is accepted

  function After(lib: Library, b: Backend, t: Table, calls: seq<Call>): Table
    decreases |calls|
  {
    if calls == [] then t else After(lib, b, StepOf(lib, b, t, calls[0]).table, calls[1..])
  }

  lemma {:induction false} RunLast(lib: Library, b: Backend, t: Table, calls: seq<Call>, last: Call)
    ensures Run(lib, b, t, calls + [last])[|calls|] == StepOf(lib, b, After(lib, b, t, calls), last)
    decreases |calls|
  {
    var all := calls + [last];
    if calls != [] {
      assert all[0] == calls[0] && all[1..] == calls[1..] + [last];
      RunLast(lib, b, StepOf(lib, b, t, calls[0]).table, calls[1..], last);
    }
  }

  lemma {:induction false} AfterAppend(lib: Library, b: Backend, t: Table, a: seq<Call>, rest: seq<Call>)
    ensures After(lib, b, t, a + rest) == After(lib, b, After(lib, b, t, a), rest)
    decreases |a|
  {
    if a == [] {
      assert a + rest == rest;
    } else {
      assert (a + rest)[0] == a[0] && (a + rest)[1..] == a[1..] + rest;
      AfterAppend(lib, b, StepOf(lib, b, t, a[0]).table, a[1..], rest);
    }
  }

  /** The tables of a run never hold two records with one id, which the store's own lookups rely on. */
  lemma {:induction false} ReachedUnique(lib: Library, b: Backend, t: Table, calls: seq<Call>, taken: set<nat>)
    requires Sound(b, t, taken) && FreshIds(calls, taken)
    ensures UniqueIds(After(lib, b, t, calls))
    decreases |calls|
  {
    if calls != [] {
      StepLimited(lib, b, t, calls[0], taken, 0, DEFAULT_MAX_ATTEMPTS, 1);
      ReachedUnique(lib, b, StepOf(lib, b, t, calls[0]).table, calls[1..], TakenAfter(calls[0], taken));
    }
  }

  /** A verification that reaches the challenge kept under the key. */
  predicate Tries(lib: Library, key: string, c: Call) {
    c.Verify? && Key(lib, c.email) == key && TrimSpace(c.code) != ""
  }

  predicate Replaces(lib: Library, key: string, c: Call) {
    c.Create? && Key(lib, c.email) == key && TrimSpace(c.code) != ""
  }

  function TryCount(lib: Library, key: string, calls: seq<Call>): nat {
    if calls == [] then 0
    else (if Tries(lib, key, calls[0]) then 1 else 0) + TryCount(lib, key, calls[1..])
  }

  predicate Guessed(lib: Library, key: string, r: Record, calls: seq<Call>) {
    exists i :: 0 <= i < |calls| && Tries(lib, key, calls[i]) && Matches(lib, r, calls[i].code)
  }

  /** No call in between creates another challenge for the same address. */
  predicate Undisturbed(lib: Library, key: string, calls: seq<Call>) {
    forall i :: 0 <= i < |calls| ==> !Replaces(lib, key, calls[i])
  }

  lemma {:induction false} GoneStaysGone(lib: Library, t: Table, key: string, calls: seq<Call>)
    requires key !in t && Undisturbed(lib, key, calls)
    ensures key !in After(lib, InMemory, t, calls)
    decreases |calls|
  {
    if calls != [] {
      assert !Replaces(lib, key, calls[0]);
      var rest := calls[1..];
      assert forall j :: 0 <= j < |rest| ==> rest[j] == calls[j + 1];
      GoneStaysGone(lib, StepOf(lib, InMemory, t, calls[0]).table, key, rest);
    }
  }

  lemma GuessedStep(lib: Library, key: string, r: Record, calls: seq<Call>)
    requires calls != []
    ensures Guessed(lib, key, r, calls) <==>
      ((Tries(lib, key, calls[0]) && Matches(lib, r, calls[0].code)) || Guessed(lib, key, r, calls[1..]))
  {
    var rest := calls[1..];
    assert forall j :: 0 <= j < |rest| ==> rest[j] == calls[j + 1];
    if Guessed(lib, key, r, calls) {
      var i :| 0 <= i < |calls| && Tries(lib, key, calls[i]) && Matches(lib, r, calls[i].code);
      assert i > 0 ==> rest[i - 1] == calls[i];
    }
  }

  /** What one call leaves of a challenge that has not expired. */
  lemma SurvivesStep(lib: Library, t: Table, key: string, c: Call)
    requires key != "" && key in t && !IsExpired(t[key], c.at) && !Replaces(lib, key, c)
    ensures
      var next, r := StepOf(lib, InMemory, t, c).table, t[key];
      if !Tries(lib, key, c) then key in next && next[key] == r
      else if Matches(lib, r, c.code) || r.attempts + 1 >= r.maxAttempts then key !in next
      else key in next && next[key] == r.(attempts := r.attempts + 1)
  {
  }

  /** What later calls leave of a challenge: it is still there, with one attempt more for every try, unless a
      try was right or the tries reached the limit. */
  lemma {:induction false} Survives(lib: Library, t: Table, key: string, calls: seq<Call>, now: nat)
    requires key != "" && key in t && t[key].attempts < t[key].maxAttempts && !IsExpired(t[key], now)
    requires Undisturbed(lib, key, calls) && forall i :: 0 <= i < |calls| ==> calls[i].at <= now
    ensures
      var after, r := After(lib, InMemory, t, calls), t[key];
      var attempts := r.attempts + TryCount(lib, key, calls);
      if attempts < r.maxAttempts && !Guessed(lib, key, r, calls)
      then key in after && after[key] == r.(attempts := attempts)
      else key !in after
    decreases |calls|
  {
    if calls != [] {
      var c, rest := calls[0], calls[1..];
      assert !Replaces(lib, key, c) && c.at <= now;
      GuessedStep(lib, key, t[key], calls);
      SurvivesStep(lib, t, key, c);
      SurvivesRest(lib, StepOf(lib, InMemory, t, c).table, key, t[key], calls, now);
    }
  }

  lemma {:induction false} SurvivesRest(lib: Library, t: Table, key: string, r: Record, calls: seq<Call>, now: nat)
    requires key != "" && calls != []
    requires key in t ==>
      t[key] == r.(attempts := t[key].attempts) && t[key].attempts < r.maxAttempts && !IsExpired(r, now)
    requires Undisturbed(lib, key, calls) && forall i :: 0 <= i < |calls| ==> calls[i].at <= now
    ensures
      var after := After(lib, InMemory, t, calls[1..]);
      if && key in t && t[key].attempts + TryCount(lib, key, calls[1..]) < r.maxAttempts
         && !Guessed(lib, key, r, calls[1..])
      then key in after && after[key] == r.(attempts := t[key].attempts + TryCount(lib, key, calls[1..]))
      else key !in after
    decreases |calls|, 0
  {
    var rest := calls[1..];
    assert forall j :: 0 <= j < |rest| ==> rest[j] == calls[j + 1];
    if key in t {
      Survives(lib, t, key, rest, now);
      assert Guessed(lib, key, t[key], rest) == Guessed(lib, key, r, rest);
    } else {
      GoneStaysGone(lib, t, key, rest);
    }
  }

  /** Whether a try was right depends on the hash and the salt of the record alone. */
  lemma SameGuesses(lib: Library, key: string, r: Record, s: Record, calls: seq<Call>)
    requires r.codeHash == s.codeHash && r.salt == s.salt
    ensures Guessed(lib, key, r, calls) <==> Guessed(lib, key, s, calls)
  {
  }

  lemma RestUndisturbed(lib: Library, key: string, calls: seq<Call>, now: nat)
    requires calls != [] && Undisturbed(lib, key, calls) && Faultless(calls)
    requires forall i :: 0 <= i < |calls| ==> calls[i].at <= now
    ensures !Replaces(lib, key, calls[0]) && calls[0].at <= now && calls[0].faults == NO_FAULTS
    ensures Undisturbed(lib, key, calls[1..]) && Faultless(calls[1..])
    ensures forall i :: 0 <= i < |calls[1..]| ==> calls[1..][i].at <= now
  {
    var rest := calls[1..];
    assert forall j :: 0 <= j < |rest| ==> rest[j] == calls[j + 1];
  }

  /** None of the calls replaces the challenge, guesses it, fails in the store, or comes later than now. */
  predicate Calm(lib: Library, key: string, r: Record, calls: seq<Call>, now: nat) {
    calls == [] ||
    (&& !Replaces(lib, key, calls[0]) && calls[0].at <= now && calls[0].faults == NO_FAULTS
     && !(Tries(lib, key, calls[0]) && Matches(lib, r, calls[0].code))
     && Calm(lib, key, r, calls[1..], now))
  }

  lemma {:induction false} IsCalm(lib: Library, key: string, r: Record, calls: seq<Call>, now: nat)
    requires Undisturbed(lib, key, calls) && Faultless(calls) && !Guessed(lib, key, r, calls)
    requires forall i :: 0 <= i < |calls| ==> calls[i].at <= now
    ensures Calm(lib, key, r, calls, now)
    decreases |calls|
  {
    if calls != [] {
      RestUndisturbed(lib, key, calls, now);
      GuessedStep(lib, key, r, calls);
      IsCalm(lib, key, r, calls[1..], now);
    }
  }

  /** The attempts after the calls, when there were some before, each try counting up to the limit. */
  function Tally(lib: Library, key: string, calls: seq<Call>, attempts: int, limit: int): int
    decreases |calls|
  {
    if calls == [] then attempts
    else Tally(lib, key, calls[1..], if Tries(lib, key, calls[0]) && attempts < limit then attempts + 1 else attempts,
               limit)
  }

  lemma {:induction false} TallyIs(lib: Library, key: string, calls: seq<Call>, attempts: int, limit: int)
    requires attempts <= limit
    ensures Tally(lib, key, calls, attempts, limit) == Min(attempts + TryCount(lib, key, calls), limit)
    decreases |calls|
  {
    if calls != [] {
      TallyIs(lib, key, calls[1..],
              if Tries(lib, key, calls[0]) && attempts < limit then attempts + 1 else attempts, limit);
    }
  }

  /** What later calls leave of a challenge in a store that does not fail, as long as no try was right: it is
      still there, with one attempt more for every try up to the limit. */
  lemma {:induction false} StaysStored(lib: Library, t: Table, key: string, r: Record, calls: seq<Call>, now: nat,
                                       a: nat)
    requires key != "" && key in t && t[key] == r.(attempts := a) && !r.verified && a <= r.maxAttempts
    requires !IsExpired(r, now) && Calm(lib, key, r, calls, now)
    ensures
      var after := After(lib, Persistent, t, calls);
      && key in after && after[key] == r.(attempts := after[key].attempts)
      && after[key].attempts == Tally(lib, key, calls, a, r.maxAttempts)
    decreases |calls|
  {
    if calls != [] {
      var next := StoredStep(lib, t, key, r, calls[0], a);
      StaysStored(lib, next, key, r, calls[1..], now,
                  if Tries(lib, key, calls[0]) && a < r.maxAttempts then a + 1 else a);
    }
  }

  lemma StillStored(lib: Library, t: Table, key: string, r: Record, calls: seq<Call>, now: nat)
    requires key != "" && key in t && t[key] == r && r.attempts == 0 <= r.maxAttempts && !r.verified
    requires !IsExpired(r, now) && Calm(lib, key, r, calls, now)
    ensures
      var after := After(lib, Persistent, t, calls);
      key in after && after[key] == r.(attempts := Min(TryCount(lib, key, calls), r.maxAttempts))
  {
    assert r.(attempts := 0) == r;
    StaysStored(lib, t, key, r, calls, now, 0);
    TallyIs(lib, key, calls, 0, r.maxAttempts);
  }

  lemma StoredStep(lib: Library, t: Table, key: string, r: Record, c: Call, a: nat) returns (next: Table)
    requires key != "" && key in t && t[key] == r.(attempts := a) && !r.verified && !IsExpired(r, c.at)
    requires !Replaces(lib, key, c) && c.faults == NO_FAULTS && !(Tries(lib, key, c) && Matches(lib, r, c.code))
    ensures next == StepOf(lib, Persistent, t, c).table && key in next
    ensures next[key] == r.(attempts := if Tries(lib, key, c) && a < r.maxAttempts then a + 1 else a)
  {
    next := StepOf(lib, Persistent, t, c).table;
  }

  /** Once the challenge has expired a try is refused, whatever came before it. */
  lemma {:induction false} ExpiredIsRefused(
      lib: Library, b: Backend, t: Table, key: string, expiresAt: nat, calls: seq<Call>, now: nat)
    requires key in t ==> t[key].expiresAt == expiresAt
    requires Undisturbed(lib, key, calls) && expiresAt != 0 && now > expiresAt
    ensures
      var after := After(lib, b, t, calls);
      key !in after || IsExpired(after[key], now)
    decreases |calls|
  {
    if calls != [] {
      assert !Replaces(lib, key, calls[0]);
      var rest := calls[1..];
      assert forall j :: 0 <= j < |rest| ==> rest[j] == calls[j + 1];
      ExpiredIsRefused(lib, b, StepOf(lib, b, t, calls[0]).table, key, expiresAt, rest, now);
    }
  }

  /** The calls before a challenge was created, its creation, and the calls up to its next verification. */
  function History(before: seq<Call>, create: Call, between: seq<Call>): seq<Call> {
    before + [create] + between
  }

  lemma AfterHistory(lib: Library, b: Backend, before: seq<Call>, create: Call, between: seq<Call>)
    ensures After(lib, b, map[], History(before, create, between)) ==
      After(lib, b, StepOf(lib, b, After(lib, b, map[], before), create).table, between)
  {
    AfterAppend(lib, b, map[], before + [create], between);
    AfterAppend(lib, b, map[], before, [create]);
    var t := After(lib, b, map[], before);
    assert After(lib, b, t, [create]) == StepOf(lib, b, t, create).table;
  }

  /** The code that a call gives is the one the challenge was created with, as far as its salted hash tells. */
  predicate RightCode(lib: Library, create: Call, c: Call)
    requires create.Create?
  {
    lib.hash(TrimSpace(c.code), create.salt) == lib.hash(TrimSpace(create.code), create.salt)
  }

  /** A call that verifies the address of the challenge, with a code that is not blank. */
  predicate TriesAddress(lib: Library, create: Call, c: Call) {
    c.Verify? && lib.lower(TrimSpace(c.email)) == lib.lower(TrimSpace(create.email)) && TrimSpace(c.code) != ""
  }

  function EarlierTries(lib: Library, create: Call, calls: seq<Call>): nat {
    if calls == [] then 0
    else (if TriesAddress(lib, create, calls[0]) then 1 else 0) + EarlierTries(lib, create, calls[1..])
  }

  predicate TriedRight(lib: Library, create: Call, calls: seq<Call>)
    requires create.Create?
  {
    exists i :: 0 <= i < |calls| && TriesAddress(lib, create, calls[i]) && RightCode(lib, create, calls[i])
  }

  lemma {:induction false} CountsTries(lib: Library, create: Call, calls: seq<Call>)
    ensures EarlierTries(lib, create, calls) == TryCount(lib, Key(lib, create.email), calls)
  {
    if calls != [] {
      CountsTries(lib, create, calls[1..]);
    }
  }

  /** A challenge that can be verified: its creation, later calls none of which replaces it, and a verification of
      the same address with a code that is not blank. The clock does not go back, and no store call fails. */
  ghost predicate Scene(lib: Library, b: Backend, before: seq<Call>, create: Call, between: seq<Call>, verify: Call) {
    && create.Create? && TrimSpace(create.code) != "" && lib.lower(TrimSpace(create.email)) != ""
    && (forall i :: 0 <= i < |between| && between[i].Create? && TrimSpace(between[i].code) != "" ==>
          lib.lower(TrimSpace(between[i].email)) != lib.lower(TrimSpace(create.email)))
    && TriesAddress(lib, create, verify)
    && Monotone(History(before, create, between) + [verify])
    && (b.Persistent? ==> Faultless(History(before, create, between) + [verify]))
  }

  function ReplyTo(lib: Library, b: Backend, before: seq<Call>, create: Call, between: seq<Call>, verify: Call): Reply {
    Run(lib, b, map[], History(before, create, between) + [verify])[|before| + 1 + |between|].reply
  }

  /** When the code stops being good: after the given time, ten minutes if none is given. */
  function Deadline(create: Call): int
    requires create.Create?
  {
    create.at + if create.ttl <= 0 then 600 else create.ttl
  }

  lemma SceneTimes(lib: Library, b: Backend, before: seq<Call>, create: Call, between: seq<Call>, verify: Call)
    requires Scene(lib, b, before, create, between, verify)
    ensures (forall i :: 0 <= i < |between| ==> create.at <= between[i].at <= verify.at) && create.at <= verify.at
    ensures b.Persistent? ==> Faultless(between) && verify.faults == NO_FAULTS
  {
    var history := History(before, create, between);
    var all, offset := history + [verify], |before| + 1;
    assert all[|history|] == verify && all[|before|] == create;
    assert forall i :: 0 <= i < |between| ==> between[i] == all[offset + i];
  }

  lemma SceneCalls(lib: Library, b: Backend, before: seq<Call>, create: Call, between: seq<Call>, verify: Call)
    requires Scene(lib, b, before, create, between, verify)
    ensures Undisturbed(lib, Key(lib, create.email), between) && Tries(lib, Key(lib, create.email), verify)
  {
  }

  lemma CreateSucceeds(lib: Library, b: Backend, before: seq<Call>, create: Call, between: seq<Call>, verify: Call)
    requires Scene(lib, b, before, create, between, verify)
    ensures b.Persistent? ==> !create.faults.save
  {
    assert (History(before, create, between) + [verify])[|before|] == create;
  }

  /** The table that the verification meets, without anything left to do but that one step. */
  lemma Meets(lib: Library, b: Backend, before: seq<Call>, create: Call, between: seq<Call>, verify: Call)
    returns (start: Table, met: Table)
    requires Scene(lib, b, before, create, between, verify)
    ensures
      var key := Key(lib, create.email);
      && key in start && start[key] == NewRecord(lib, create) && met == After(lib, b, start, between)
      && ReplyTo(lib, b, before, create, between, verify) == StepOf(lib, b, met, verify).reply
  {
    var earlier := After(lib, b, map[], before);
    start := StepOf(lib, b, earlier, create).table;
    met := After(lib, b, start, between);
    CreateSucceeds(lib, b, before, create, between, verify);
    CreatedIn(lib, b, earlier, create);
    AfterHistory(lib, b, before, create, between);
    LastReply(lib, b, History(before, create, between), verify, met, |before| + 1 + |between|);
  }

  lemma LastReply(lib: Library, b: Backend, calls: seq<Call>, last: Call, met: Table, n: nat)
    requires met == After(lib, b, map[], calls) && n == |calls|
    ensures Run(lib, b, map[], calls + [last])[n].reply == StepOf(lib, b, met, last).reply
  {
    RunLast(lib, b, map[], calls, last);
  }

  lemma CreatedIn(lib: Library, b: Backend, t: Table, create: Call)
    requires create.Create? && TrimSpace(create.code) != "" && Key(lib, create.email) != ""
    ensures
      var after, key := StepOf(lib, b, t, create).table, Key(lib, create.email);
      !(b.Persistent? && create.faults.save) ==> key in after && after[key] == NewRecord(lib, create)
  {
  }

  /** What a verification is told: as long as the code is good, no earlier try was right and fewer than three came,
      it is accepted when its code is right, told that this was the third try when it was, and told that the code
      is wrong otherwise. A used-up challenge is not found, or had too many tries; one past its deadline is not
      found or expired. */
  lemma ReplyWhen(lib: Library, b: Backend, before: seq<Call>, create: Call, between: seq<Call>, verify: Call)
    requires Scene(lib, b, before, create, between, verify)
    ensures
      var reply, tries := ReplyTo(lib, b, before, create, between, verify), EarlierTries(lib, create, between);
      var used := TriedRight(lib, create, between) || tries >= 3;
      if verify.at <= Deadline(create) then
        if !used then
          reply ==
            if RightCode(lib, create, verify) then Accepted else if tries == 2 then TooManyAttempts else InvalidCode
        else
          && (reply == NotFound || (b.Persistent? && reply == TooManyAttempts))
          && (b.Persistent? && !TriedRight(lib, create, between) ==> reply == TooManyAttempts)
      else
        && (reply == NotFound || reply == Expired)
        && (!used && (forall i :: 0 <= i < |between| ==> between[i].at <= Deadline(create)) ==> reply == Expired)
  {
    var key, r := Key(lib, create.email), NewRecord(lib, create);
    var start, met := Meets(lib, b, before, create, between, verify);
    SceneTimes(lib, b, before, create, between, verify);
    SceneCalls(lib, b, before, create, between, verify);
    CountsTries(lib, create, between);
    assert TriedRight(lib, create, between) == Guessed(lib, key, r, between);
    if verify.at > Deadline(create) {
      ExpiredIsRefused(lib, b, start, key, r.expiresAt, between, verify.at);
      if !TriedRight(lib, create, between) && EarlierTries(lib, create, between) < 3
        && forall i :: 0 <= i < |between| ==> between[i].at <= Deadline(create) {
        if b.InMemory? {
          Survives(lib, start, key, between, Deadline(create));
        } else {
          IsCalm(lib, key, r, between, Deadline(create));
          StillStored(lib, start, key, r, between, Deadline(create));
        }
      }
    } else if b.InMemory? {
      Survives(lib, start, key, between, verify.at);
    } else if !TriedRight(lib, create, between) {
      IsCalm(lib, key, r, between, verify.at);
      StillStored(lib, start, key, r, between, verify.at);
    } else {
      UsedUp(lib, start, key, between, verify.at);
    }
  }

  /** After a right try the challenge is verified, or had run out of attempts before. */
  lemma {:induction false} UsedUp(lib: Library, t: Table, key: string, calls: seq<Call>, now: nat)
    requires key != "" && key in t && t[key].attempts <= t[key].maxAttempts
    requires !IsExpired(t[key], now) && Undisturbed(lib, key, calls) && Faultless(calls)
    requires forall i :: 0 <= i < |calls| ==> calls[i].at <= now
    requires t[key].verified || t[key].attempts == t[key].maxAttempts || Guessed(lib, key, t[key], calls)
    ensures
      var after := After(lib, Persistent, t, calls);
      && key in after && !IsExpired(after[key], now)
      && (after[key].verified || after[key].attempts >= after[key].maxAttempts)
    decreases |calls|
  {
    if calls != [] {
      var c, rest := calls[0], calls[1..];
      RestUndisturbed(lib, key, calls, now);
      GuessedStep(lib, key, t[key], calls);
      var next := StepOf(lib, Persistent, t, c).table;
      UsedStep(lib, t, key, c, next);
      SameGuesses(lib, key, next[key], t[key], rest);
      UsedUp(lib, next, key, rest, now);
    }
  }

  lemma UsedStep(lib: Library, t: Table, key: string, c: Call, next: Table)
    requires key != "" && key in t && !IsExpired(t[key], c.at) && !Replaces(lib, key, c) && c.faults == NO_FAULTS
    requires t[key].attempts <= t[key].maxAttempts && next == StepOf(lib, Persistent, t, c).table
    ensures
      var r := t[key];
      && key in next && next[key] == r.(attempts := next[key].attempts, verified := next[key].verified)
      && next[key].attempts <= r.maxAttempts
      && (r.verified || r.attempts == r.maxAttempts || (Tries(lib, key, c) && Matches(lib, r, c.code)) ==>
            next[key].verified || next[key].attempts == r.maxAttempts)
  {
  }

  /** So it is accepted exactly when its code is right, the deadline has not passed, no earlier try was right and
      fewer than three came, in both backends and over every run. */
  lemma AcceptedIff(lib: Library, b: Backend, before: seq<Call>, create: Call, between: seq<Call>, verify: Call)
    requires Scene(lib, b, before, create, between, verify)
    ensures ReplyTo(lib, b, before, create, between, verify) == Accepted <==>
      && lib.hash(TrimSpace(verify.code), create.salt) == lib.hash(TrimSpace(create.code), create.salt)
      && verify.at <= create.at + (if create.ttl <= 0 then 600 else create.ttl)
      && EarlierTries(lib, create, between) < 3
      && forall i :: 0 <= i < |between| && TriesAddress(lib, create, between[i]) ==>
           lib.hash(TrimSpace(between[i].code), create.salt) != lib.hash(TrimSpace(create.code), create.salt)
  {
    ReplyWhen(lib, b, before, create, between, verify);
  }

  /** With a hash that tells codes apart, only the code itself is accepted, up to white space around it. */
  lemma OnlyTheCode(lib: Library, b: Backend, before: seq<Call>, create: Call, between: seq<Call>, verify: Call)
    requires Scene(lib, b, before, create, between, verify)
    requires forall x, y, salt :: lib.hash(x, salt) == lib.hash(y, salt) ==> x == y
    ensures ReplyTo(lib, b, before, create, between, verify) == Accepted ==>
      TrimSpace(verify.code) == TrimSpace(create.code)
  {
    AcceptedIff(lib, b, before, create, between, verify);
  }

  /** A blank address or a blank code is refused, by both backends and from any table, and changes nothing. */
  lemma BlankRefused(lib: Library, b: Backend, t: Table, c: Call)
    ensures lib.lower(TrimSpace(c.email)) == "" ==> StepOf(lib, b, t, c) == Step(t, EmptyEmail, None)
    ensures lib.lower(TrimSpace(c.email)) != "" && TrimSpace(c.code) == "" ==>
      StepOf(lib, b, t, c) == Step(t, EmptyCode, None)
  {
  }

  // ----- whatever fails, no other code is accepted

  lemma {:induction false} RunTake(lib: Library, b: Backend, t: Table, calls: seq<Call>, n: nat)
    requires n < |calls|
    ensures Run(lib, b, t, calls)[..n] == Run(lib, b, t, calls[..n])
    ensures Run(lib, b, t, calls)[n] == StepOf(lib, b, After(lib, b, t, calls[..n]), calls[n])
    decreases n
  {
    if n > 0 {
      var step := StepOf(lib, b, t, calls[0]);
      assert calls[..n][1..] == calls[1..][..n - 1];
      RunTake(lib, b, step.table, calls[1..], n - 1);
    }
  }

  /** The call puts a new challenge under the key. */
  predicate Makes(lib: Library, b: Backend, c: Call, key: string) {
    && c.Create? && lib.lower(TrimSpace(c.email)) == key != "" && TrimSpace(c.code) != ""
    && !(b.Persistent? && c.faults.save)
  }

  predicate AcceptedFor(lib: Library, c: Call, step: Step, key: string) {
    c.Verify? && lib.lower(TrimSpace(c.email)) == key && step.reply == Accepted
  }

  /** Call i put a challenge under the key, and no call since then did. */
  ghost predicate Latest(lib: Library, b: Backend, calls: seq<Call>, i: nat, key: string) {
    && i < |calls| && Makes(lib, b, calls[i], key)
    && forall j :: i < j < |calls| ==> !Makes(lib, b, calls[j], key)
  }

  ghost predicate NoneAccepted(lib: Library, calls: seq<Call>, steps: seq<Step>, i: nat, key: string)
    requires |steps| == |calls|
  {
    forall j :: i < j < |calls| ==> !AcceptedFor(lib, calls[j], steps[j], key)
  }

  predicate RecordOf(lib: Library, b: Backend, create: Call, r: Record)
    requires create.Create?
  {
    && r.codeHash == lib.hash(TrimSpace(create.code), create.salt) && r.salt == create.salt
    && r.expiresAt == Deadline(create) && (b.InMemory? ==> !r.verified)
  }

  /** The record under the key comes from call i; if it is not used up, no call since then accepted a code for it. */
  ghost predicate MadeBy(lib: Library, b: Backend, calls: seq<Call>, steps: seq<Step>, i: nat, key: string, r: Record)
    requires |steps| == |calls|
  {
    && Latest(lib, b, calls, i, key) && RecordOf(lib, b, calls[i], r)
    && (!r.verified ==> NoneAccepted(lib, calls, steps, i, key))
  }

  lemma StepKeepsOrigin(lib: Library, b: Backend, t: Table, c: Call, key: string)
    requires !Makes(lib, b, c, key) && key in StepOf(lib, b, t, c).table
    ensures
      var step := StepOf(lib, b, t, c);
      && key in t
      && step.table[key] == t[key].(attempts := step.table[key].attempts, verified := step.table[key].verified)
      && (b.InMemory? ==> step.table[key].verified == t[key].verified)
      && (!step.table[key].verified ==> !t[key].verified && !AcceptedFor(lib, c, step, key))
  {
  }

  lemma NoneAcceptedNext(lib: Library, calls: seq<Call>, steps: seq<Step>, n: nat, i: nat, key: string)
    requires |calls| == |steps| == n + 1
    requires NoneAccepted(lib, calls[..n], steps[..n], i, key) && !AcceptedFor(lib, calls[n], steps[n], key)
    ensures NoneAccepted(lib, calls, steps, i, key)
  {
    assert forall j :: 0 <= j < n ==> calls[j] == calls[..n][j] && steps[j] == steps[..n][j];
  }

  lemma OriginStays(lib: Library, b: Backend, calls: seq<Call>, steps: seq<Step>, n: nat, i: nat, key: string,
                    r: Record, next: Record)
    requires |calls| == |steps| == n + 1 && MadeBy(lib, b, calls[..n], steps[..n], i, key, r)
    requires !Makes(lib, b, calls[n], key) && next == r.(attempts := next.attempts, verified := next.verified)
    requires b.InMemory? ==> next.verified == r.verified
    requires !next.verified ==> !r.verified && !AcceptedFor(lib, calls[n], steps[n], key)
    ensures MadeBy(lib, b, calls, steps, i, key, next)
  {
    assert forall j :: 0 <= j < n ==> calls[j] == calls[..n][j];
    if !next.verified {
      NoneAcceptedNext(lib, calls, steps, n, i, key);
    }
  }

  lemma OriginNew(lib: Library, b: Backend, t: Table, c: Call, key: string)
    requires Makes(lib, b, c, key)
    ensures
      var next := StepOf(lib, b, t, c).table;
      && key in next && next[key] == NewRecord(lib, c) && next[key].expiresAt == Deadline(c)
  {
  }

  lemma {:induction false} Origin(lib: Library, b: Backend, calls: seq<Call>, key: string) returns (i: nat)
    requires key in After(lib, b, map[], calls)
    ensures MadeBy(lib, b, calls, Run(lib, b, map[], calls), i, key, After(lib, b, map[], calls)[key])
    decreases |calls|
  {
    var n := |calls| - 1;
    var init, c := calls[..n], calls[n];
    var t := After(lib, b, map[], init);
    assert calls == init + [c];
    AfterAppend(lib, b, map[], init, [c]);
    RunTake(lib, b, map[], calls, n);
    var steps := Run(lib, b, map[], calls);
    var step := steps[n];
    assert After(lib, b, t, [c]) == step.table;
    if Makes(lib, b, c, key) {
      i := n;
      OriginNew(lib, b, t, c, key);
    } else {
      StepKeepsOrigin(lib, b, t, c, key);
      i := Origin(lib, b, init, key);
      OriginStays(lib, b, calls, steps, n, i, key, t[key], step.table[key]);
    }
  }

  /** A right code: call i made the challenge, nothing replaced or used it up since, it is still good, and call n gives
      its code. */
  ghost predicate Earned(lib: Library, b: Backend, calls: seq<Call>, i: nat, n: nat) {
    && i < n < |calls| && calls[n].Verify?
    && var key := lib.lower(TrimSpace(calls[n].email));
    && Makes(lib, b, calls[i], key)
    && lib.hash(TrimSpace(calls[n].code), calls[i].salt) == lib.hash(TrimSpace(calls[i].code), calls[i].salt)
    && calls[n].at <= Deadline(calls[i])
    && forall j :: i < j < n ==>
         !Makes(lib, b, calls[j], key) && !AcceptedFor(lib, calls[j], Run(lib, b, map[], calls)[j], key)
  }

  /** Over every run of either backend, on any clock, and whatever the store fails to do: a code is accepted only if it
      is that of the latest challenge for its address, which has not expired and was not accepted before. */
  lemma OnlyEarned(lib: Library, b: Backend, calls: seq<Call>, n: nat)
    requires n < |calls| && Run(lib, b, map[], calls)[n].reply == Accepted
    ensures exists i :: Earned(lib, b, calls, i, n)
  {
    var before, c := calls[..n], calls[n];
    var t, key := After(lib, b, map[], before), Key(lib, c.email);
    RunTake(lib, b, map[], calls, n);
    AcceptedStep(lib, b, t, c);
    var i := Origin(lib, b, before, key);
    assert forall j :: 0 <= j < n ==> calls[j] == before[j];
    assert forall j :: 0 <= j < n ==> Run(lib, b, map[], calls)[j] == Run(lib, b, map[], before)[j];
    assert Earned(lib, b, calls, i, n);
  }

  lemma AcceptedStep(lib: Library, b: Backend, t: Table, c: Call)
    requires StepOf(lib, b, t, c).reply == Accepted
    ensures
      var key := Key(lib, c.email);
      && c.Verify? && key != "" && key in t && (b.Persistent? ==> !t[key].verified) && !IsExpired(t[key], c.at)
      && t[key].codeHash == lib.hash(TrimSpace(c.code), t[key].salt)
  {
  }

  /** A failing store: no reply but a store failure when a challenge could not be saved or looked up, which then
      changes nothing; and no store failure unless some call to the store failed. */
  lemma StoreFailures(lib: Library, b: Backend, t: Table, c: Call)
    requires lib.lower(TrimSpace(c.email)) != "" && TrimSpace(c.code) != ""
    ensures b.Persistent? && (if c.Create? then c.faults.save else c.faults.get) ==>
      StepOf(lib, b, t, c) == Step(t, StoreFailed, None)
    ensures c.Create? && (b.InMemory? || !c.faults.save) ==> StepOf(lib, b, t, c).reply == Created
    ensures StepOf(lib, b, t, c).reply == StoreFailed ==>
      && b.Persistent?
      && if c.Create? then c.faults.save else c.faults.get || c.faults.increment || c.faults.mark
  {
  }

  // ----- the manager

  /** A store that keeps one record per address. A call that fails changes nothing. */
  class Store {
    var records: Table

    constructor ()
      ensures records == map[]
    {
      records := map[];
    }

    method SaveChallenge(email: string, r: Record, fails: bool) returns (ok: bool)
      modifies this
      ensures ok == !fails && records == if fails then old(records) else old(records)[email := r]
    {
      if fails {
        return false;
      }
      records := records[email := r];
      return true;
    }

    method GetActiveChallenge(email: string) returns (r: Option<Record>)
      ensures r == if email in records && !records[email].verified then Some(records[email]) else None
    {
      if email !in records || records[email].verified {
        return None;
      }
      return Some(records[email]);
    }

    /** Looks the record up by its id, in any order; None when the call fails or no record has the id. */
    method IncrementAttempts(id: nat, fails: bool) returns (attempts: Option<nat>)
      modifies this
      ensures attempts.None? <==> fails || forall k :: k in old(records) ==> old(records)[k].id != id
      ensures attempts.None? ==> records == old(records)
      ensures attempts.Some? ==>
        exists k ::
          && k in old(records) && old(records)[k].id == id && attempts.value == old(records)[k].attempts + 1
          && records == old(records)[k := old(records)[k].(attempts := attempts.value)]
    {
      if fails {
        return None;
      }
      if found :| found in records && records[found].id == id {
        var r := records[found];
        records := records[found := r.(attempts := r.attempts + 1)];
        return Some(r.attempts + 1);
      }
      return None;
    }

    method MarkVerified(id: nat, fails: bool) returns (ok: bool)
      modifies this
      ensures ok <==> !fails && exists k :: k in old(records) && old(records)[k].id == id
      ensures !ok ==> records == old(records)
      ensures ok ==>
        exists k ::
          && k in old(records) && old(records)[k].id == id
          && records == old(records)[k := old(records)[k].(verified := true)]
    {
      if fails {
        return false;
      }
      if found :| found in records && records[found].id == id {
        records := records[found := records[found].(verified := true)];
        return true;
      }
      return false;
    }

    method PruneExpired(now: nat, fails: bool)
      modifies this
      ensures records == if fails then old(records) else Pruned(old(records), now)
    {
      if fails {
        return;
      }
      var rest := records.Keys;
      ghost var was := records;
      while rest != {}
        invariant rest <= was.Keys
        invariant records == map k | k in was && (k in rest || !IsExpired(was[k], now)) :: was[k]
        decreases |rest|
      {
        var k :| k in rest;
        if IsExpired(records[k], now) {
          records := records - {k};
        }
        rest := rest - {k};
      }
    }
  }

  class ChallengeManager {
    var challenges: Table
    const store: Store?
    const lib: Library

    constructor (store: Store?, lib: Library)
      ensures challenges == map[] && this.store == store && this.lib == lib
    {
      challenges, this.store, this.lib := map[], store, lib;
    }

    ghost function Kind(): Backend {
      if store == null then InMemory else Persistent
    }

    /** The challenges that count: the store's when there is one. */
    ghost function Contents(): Table
      reads this, store
    {
      if store == null then challenges else store.records
    }

    method CreateChallengeWithCode(email: string, code: string, ttl: int, now: nat, f: Faults, id: nat, salt: string)
      returns (reply: Reply)
      modifies this, store
      ensures var step := StepOf(lib, Kind(), old(Contents()), Create(email, code, now, f, ttl, id, salt));
        Contents() == step.table && reply == step.reply
    {
      var normEmail := Key(lib, email);
      if normEmail == "" {
        return EmptyEmail;
      }
      var cleanCode := TrimSpace(code);
      if cleanCode == "" {
        return EmptyCode;
      }
      var lifetime := if ttl <= 0 then DEFAULT_TTL else ttl;
      var ch := Record(id, lib.hash(cleanCode, salt), salt, 0, DEFAULT_MAX_ATTEMPTS, false, now + lifetime);
      if store != null {
        var saved := store.SaveChallenge(normEmail, ch, f.save);
        if !saved {
          return StoreFailed;
        }
      }
      challenges := challenges[normEmail := ch];
      return Created;
    }

    /** compared is the challenge whose hash was compared. */
    method VerifyCode(email: string, code: string, now: nat, f: Faults)
      returns (reply: Reply, ghost compared: Option<nat>)
      requires UniqueIds(Contents())
      modifies this, store
      ensures Step(Contents(), reply, compared) ==
        StepOf(lib, Kind(), old(Contents()), Verify(email, code, now, f))
    {
      var normEmail := Key(lib, email);
      var cleanCode := TrimSpace(code);
      if normEmail == "" {
        return EmptyEmail, None;
      }
      if cleanCode == "" {
        return EmptyCode, None;
      }
      if store != null {
        reply, compared := VerifyStored(normEmail, cleanCode, now, f, code);
      } else {
        reply, compared := VerifyInMemory(normEmail, cleanCode, now, code);
      }
    }

    method VerifyStored(normEmail: string, cleanCode: string, now: nat, f: Faults, ghost code: string)
      returns (reply: Reply, ghost compared: Option<nat>)
      requires store != null && cleanCode == TrimSpace(code) && UniqueIds(store.records)
      modifies this, store
      ensures Step(store.records, reply, compared) == StoreVerify(lib, old(store.records), normEmail, code, now, f)
    {
      compared := None;
      if f.get {
        return StoreFailed, compared;
      }
      var active := store.GetActiveChallenge(normEmail);
      if active.None? {
        return NotFound, compared;
      }
      var ch := active.value;
      if IsExpired(ch, now) {
        store.PruneExpired(now, f.prune);
        return Expired, compared;
      }
      if ch.attempts >= ch.maxAttempts {
        return TooManyAttempts, compared;
      }
      var newAttempts := store.IncrementAttempts(ch.id, f.increment);
      if newAttempts.None? {
        return StoreFailed, compared;
      }
      ch := ch.(attempts := newAttempts.value);
      assert store.records == old(store.records)[normEmail := ch];
      compared := Some(ch.id);
      reply := CompareCode(normEmail, ch, cleanCode, f, code, old(store.records));
    }

    /** The end of VerifyStored, once the attempt is counted. */
    method CompareCode(normEmail: string, ch: Record, cleanCode: string, f: Faults, ghost code: string, ghost t: Table)
      returns (reply: Reply)
      requires store != null && cleanCode == TrimSpace(code) && UniqueIds(store.records)
      requires normEmail in t && ch == t[normEmail].(attempts := t[normEmail].attempts + 1)
      requires store.records == t[normEmail := ch]
      modifies this, store
      ensures Step(store.records, reply, Some(ch.id)) == CompareStored(lib, t, normEmail, code, f)
    {
      if ch.codeHash != lib.hash(cleanCode, ch.salt) {
        if ch.attempts >= ch.maxAttempts {
          return TooManyAttempts;
        }
        return InvalidCode;
      }
      assert store.records[normEmail].id == ch.id;
      var marked := store.MarkVerified(ch.id, f.mark);
      if !marked {
        return StoreFailed;
      }
      challenges := challenges - {normEmail};
      return Accepted;
    }

    method VerifyInMemory(normEmail: string, cleanCode: string, now: nat, ghost code: string)
      returns (reply: Reply, ghost compared: Option<nat>)
      requires cleanCode == TrimSpace(code)
      modifies this
      ensures Step(challenges, reply, compared) == MemoryVerify(lib, old(challenges), normEmail, code, now)
    {
      compared := None;
      if normEmail !in challenges {
        return NotFound, compared;
      }
      var ch := challenges[normEmail];
      if IsExpired(ch, now) {
        challenges := challenges - {normEmail};
        return Expired, compared;
      }
      ch := ch.(attempts := ch.attempts + 1);
      challenges := challenges[normEmail := ch];
      compared := Some(ch.id);
      if ch.codeHash != lib.hash(cleanCode, ch.salt) {
        if ch.attempts >= ch.maxAttempts {
          challenges := challenges - {normEmail};
          return TooManyAttempts, compared;
        }
        return InvalidCode, compared;
      }
      challenges := challenges - {normEmail};
      return Accepted, compared;
    }
  }
}
