/** Checkpointed onboarding: the headless flow of pkg/onboard/application/service.go over the stages of
    pkg/onboard/domain/stage.go and the session file of pkg/onboard/infrastructure/sessionstore/manager.go.

    A run is given as a function of the session file, the options and the answers of the outside world. The
    service's methods are proved to take exactly these steps. */
module Onboard {
  import opened Strings

  /** The checkpointed stages; Other is any stage stageOrder does not list. */
  datatype Stage =
    | Init | DoctorPassed | KeypairReady | TokenClaimed | NetworkConfigured | ReposCloned | McpConfigured
    | DevStackReady | Completed
    | Other(name: string)

  /** stageOrder; a stage it does not list ranks 0. */
  function Rank(stage: Stage): nat {
    match stage
    case DoctorPassed => 1
    case KeypairReady => 2
    case TokenClaimed => 3
    case NetworkConfigured => 4
    case ReposCloned => 5
    case McpConfigured => 6
    case DevStackReady => 7
    case Completed => 8
    case _ => 0
  }

  predicate IsStageCompleted(current: Stage, target: Stage) {
    Rank(current) >= Rank(target)
  }

  datatype Session = Session(
    id: string, email: string, name: string, uid: string, stage: Stage, token: string, key: string,
    forgejo: string, wireguard: string, workspace: string, cloned: seq<string>)

  function NewSession(id: string, email: string, name: string): Session {
    Session(id, email, name, "", Init, "", "", "", "", "", [])
  }

  predicate Pending(s: Session) {
    s.stage != Completed
  }

  datatype Mode = Onboarding | Reset | Rollback | Bundle

  datatype Options = Options(
    mode: Mode, resume: bool, nonInteractive: bool, json: bool, dryRun: bool,
    token: string, email: string, name: string, workspace: string)

  datatype Claimed = Claimed(uid: string, email: string, name: string, forgejo: string, wireguard: string)

  /** The answers of the world during one run. The session file is read twice, and every read, removal and
      write of it may fail; a write that fails leaves the file alone. saves(r) tells whether the write made by
      the step of rank r succeeds. */
  datatype World = World(
    firstLoad: bool, secondLoad: bool, clears: bool, saves: nat -> bool, freshId: string,
    preflightErrors: bool, key: Option<string>, claim: Option<Claimed>, cloned: seq<string>,
    resumeAnswer: bool, proceedAnswer: bool, tokenAnswer: string)

  /** A run so far: the session at hand, the session file, every content the file was given, the steps that were
      started, and whether nothing has failed. */
  datatype Progress = Progress(
    sess: Session, file: Option<Session>, trace: seq<Option<Session>>, did: seq<nat>, ok: bool)

  function Written(p: Progress, content: Option<Session>): Progress {
    p.(file := content, trace := p.trace + [content])
  }

  // ----- one run

  /** Throwing the checkpoint away, as far as the file lets it, and starting over. */
  function Fresh(file: Option<Session>, o: Options, w: World, discard: bool): Progress {
    var sess := NewSession(w.freshId, o.email, o.name);
    var removed := discard && w.clears;
    var trace := (if removed then [None] else []) + if w.saves(0) then [Some(sess)] else [];
    Progress(sess, if w.saves(0) then Some(sess) else if removed then None else file, trace, [], true)
  }

  /** The saved session, when there is one that is not completed and both reads succeed. */
  function Loaded(file: Option<Session>, w: World): Option<Session> {
    if file.Some? && w.firstLoad && w.secondLoad && Pending(file.value) then file else None
  }

  function Inception(file: Option<Session>, o: Options, w: World): Progress {
    var p := Progress(NewSession("", "", ""), file, [], [], true);
    match Loaded(file, w)
    case None => Fresh(file, o, w, false)
    case Some(loaded) =>
      if o.resume then p.(sess := loaded)
      else if !o.nonInteractive && !o.json then
        if w.resumeAnswer then p.(sess := loaded) else Fresh(file, o, w, true)
      else if !o.dryRun && o.token != "" then p.(ok := false)
      else Fresh(file, o, w, true)
  }

  function ClaimToken(s: Session, o: Options, w: World): string {
    if TrimSpace(o.token) != "" then TrimSpace(o.token)
    else if s.token != "" then s.token
    else if o.nonInteractive || o.json then ""
    else w.tokenAnswer
  }

  /** What step n makes of the session; None when it fails before the session is saved. */
  function Attempt(n: nat, s: Session, o: Options, w: World): Option<Session> {
    match n
    case 1 =>
      if w.preflightErrors && (o.nonInteractive || !w.proceedAnswer) then None else Some(s.(stage := DoctorPassed))
    case 2 => if w.key.None? then None else Some(s.(key := w.key.value, stage := KeypairReady))
    case 3 =>
      var token := ClaimToken(s, o, w);
      if token == "" || w.claim.None? then None
      else
        var c := w.claim.value;
        Some(s.(token := token, uid := c.uid, email := c.email, name := c.name, forgejo := c.forgejo,
                wireguard := c.wireguard, stage := TokenClaimed))
    case 4 => Some(s.(stage := NetworkConfigured))
    case 5 => Some(s.(cloned := s.cloned + w.cloned, workspace := o.workspace, stage := ReposCloned))
    case 6 => Some(s.(stage := McpConfigured))
    case _ => Some(s.(stage := Completed))
  }

  function StepOf(n: nat, p: Progress, o: Options, w: World): Progress {
    if Rank(p.sess.stage) >= n then p
    else
      var started := p.(did := p.did + [n]);
      match Attempt(n, p.sess, o, w)
      case None => started.(ok := false)
      case Some(s) =>
        if w.saves(n) then Written(started, Some(s)).(sess := s) else started.(sess := s, ok := false)
  }

  /** A dry run starts the diagnostics that were not passed before, and stops there. */
  function Diagnosed(p: Progress): Progress {
    if Rank(p.sess.stage) >= 1 then p else p.(did := p.did + [1])
  }

  /** The steps from n on, up to the first that fails. */
  function StepsFrom(n: nat, p: Progress, o: Options, w: World): Progress
    decreases 8 - n
  {
    if n > 7 || !p.ok then p else StepsFrom(n + 1, StepOf(n, p, o, w), o, w)
  }

  function RunOf(file: Option<Session>, o: Options, w: World): Progress {
    var p := Progress(NewSession("", "", ""), file, [], [], true);
    match o.mode
    case Reset => if w.clears then Written(p, None) else p.(ok := false)
    case Rollback =>
      if !w.firstLoad then p.(ok := false)
      else if file.None? then p
      else if w.clears then Written(p, None)
      else p.(ok := false)
    case Bundle => p
    case Onboarding =>
      var start := Inception(file, o, w);
      if !o.dryRun then StepsFrom(1, start, o, w) else if start.ok then Diagnosed(start) else start
  }

  // ----- each run does exactly the missing steps, in order

  function Range(a: nat, b: nat): seq<nat>
    decreases b - a
  {
    if a < b then [a] + Range(a + 1, b) else []
  }

  /** The rank a session has once step n is done: the last step never leaves its own stage in the file. */
  function DoneRank(n: nat): nat {
    if n >= 7 then 8 else n
  }

  /** Whether the world and the options let step n do its work for a session with this token: the checks before the
      work pass or are waved through by someone who is asked; there is a key; there is a token, given, kept or
      asked for, and the claim is granted. */
  predicate Can(n: nat, kept: string, o: Options, w: World) {
    && (n == 1 && w.preflightErrors ==> !o.nonInteractive && w.proceedAnswer)
    && (n == 2 ==> w.key.Some?)
    && (n == 3 ==>
          && w.claim.Some?
          && (TrimSpace(o.token) != "" || kept != "" || (!o.nonInteractive && !o.json && w.tokenAnswer != "")))
  }

  /** The token of a claim: the given one, else the one kept from an earlier run, else the one asked for. */
  predicate ChoosesToken(token: string, kept: string, o: Options, w: World) {
    if TrimSpace(o.token) != "" then token == TrimSpace(o.token)
    else if kept != "" then token == kept
    else token == w.tokenAnswer
  }

  /** What the steps from a on, done without an error up to b - 1, put into a session. */
  predicate Fills(a: nat, b: nat, s: Session, t: Session, o: Options, w: World) {
    && t.id == s.id
    && (if a <= 2 < b then Some(t.key) == w.key else t.key == s.key)
    && (if a <= 3 < b then
          && ChoosesToken(t.token, s.token, o, w)
          && w.claim == Some(Claimed(t.uid, t.email, t.name, t.forgejo, t.wireguard))
        else
          && t.token == s.token && t.uid == s.uid && t.email == s.email && t.name == s.name
          && t.forgejo == s.forgejo && t.wireguard == s.wireguard)
    && (if a <= 5 < b then t.cloned == s.cloned + w.cloned && t.workspace == o.workspace
        else t.cloned == s.cloned && t.workspace == s.workspace)
  }

  /** A step does its work exactly when the world and the options let it; it fills in what is its own, keeps the
      rest, and moves the session to its stage, the last one to completed. */
  lemma AttemptMeans(n: nat, s: Session, o: Options, w: World)
    requires 1 <= n <= 7
    ensures Attempt(n, s, o, w).Some? <==> Can(n, s.token, o, w)
    ensures
      var t := Attempt(n, s, o, w);
      t.Some? ==>
        && Fills(n, n + 1, s, t.value, o, w)
        && t.value.stage == [DoctorPassed, KeypairReady, TokenClaimed, NetworkConfigured, ReposCloned, McpConfigured,
                             Completed][n - 1]
        && (n == 3 ==> t.value.token != "")
  {
  }

  /** The stages in order. */
  lemma RankMeans()
    ensures Rank(Init) == 0 && Rank(DoctorPassed) == 1 && Rank(KeypairReady) == 2 && Rank(TokenClaimed) == 3
    ensures Rank(NetworkConfigured) == 4 && Rank(ReposCloned) == 5 && Rank(McpConfigured) == 6
    ensures Rank(DevStackReady) == 7 && Rank(Completed) == 8 && forall name :: Rank(Other(name)) == 0
  {
  }

  /** What inception does with a saved session that is pending and can be read: it is taken up when the run resumes
      it, or someone who is asked wants to; it is kept, and the run refused, rather than that a given token is
      used on a new one without asking; otherwise, as when there is none, a new session is saved in its place. */
  lemma InceptionMeans(file: Option<Session>, o: Options, w: World)
    ensures
      var start := Inception(file, o, w);
      var usable := file.Some? && w.firstLoad && w.secondLoad && file.value.stage != Completed;
      var asks := !o.nonInteractive && !o.json;
      && start.did == []
      && (if usable && (o.resume || (asks && w.resumeAnswer)) then start == Progress(file.value, file, [], [], true)
          else if usable && !asks && !o.dryRun && o.token != "" then
            !start.ok && start.file == file && start.trace == []
          else
            && start.ok
            && start.sess == Session(w.freshId, o.email, o.name, "", Init, "", "", "", "", "", [])
            && start.file == (if w.saves(0) then Some(start.sess) else if usable && w.clears then None else file)
            && start.trace == (if usable && w.clears then [None] else [])
                              + (if w.saves(0) then [Some(start.sess)] else []))
  {
  }

  /** The runs that are no onboarding: a reset removes the file, a rollback does if there is one that can be read,
      and a bundle leaves it; they start no step and fail only when a call does. */
  lemma OtherModes(file: Option<Session>, o: Options, w: World)
    requires o.mode != Onboarding
    ensures
      var q := RunOf(file, o, w);
      var removes := o.mode == Reset || (o.mode == Rollback && w.firstLoad && file.Some?);
      && q.did == []
      && q.file == (if removes && w.clears then None else file)
      && q.trace == (if removes && w.clears then [None] else [])
      && (q.ok <==> (removes ==> w.clears) && (o.mode == Rollback ==> w.firstLoad))
  {
  }

  /** A dry run does nothing after inception but to start the checks a session without any stage lacks. */
  lemma DryRunMeans(file: Option<Session>, o: Options, w: World)
    requires o.mode == Onboarding && o.dryRun
    ensures
      var start, q := Inception(file, o, w), RunOf(file, o, w);
      q == start.(did := if start.ok && Rank(start.sess.stage) == 0 then [1] else [])
  {
  }

  function RankIn(file: Option<Session>): nat {
    if file.None? then 0 else Rank(file.value.stage)
  }

  /** The ranks of the contents the file was given. */
  function Ranks(trace: seq<Option<Session>>): (ranks: seq<nat>)
    ensures |ranks| == |trace|
  {
    if trace == [] then [] else Ranks(trace[..|trace| - 1]) + [RankIn(trace[|trace| - 1])]
  }

  /** The ranks that steps a to b - 1 leave in the file. */
  function Ladder(a: nat, b: nat): seq<nat>
    decreases b - a
  {
    if a < b then [DoneRank(a)] + Ladder(a + 1, b) else []
  }

  /** What the steps from n on do to a session that has done all before n: they run one after another up to
      some step k; every one of them was saved, except the last when it failed. */
  ghost predicate RunsTo(p: Progress, n: nat, q: Progress, k: nat) {
    && n <= k <= 8 && q.did == p.did + Range(n, k)
    && (if q.ok then k == 8 else k > n)
    && Ranks(q.trace) == Ranks(p.trace) + Ladder(n, if q.ok then k else k - 1)
    && q.sess.id == p.sess.id
    && (q.ok && n <= 7 ==> q.file == Some(q.sess) && q.sess.stage == Completed)
    && (q.ok || k > n + 1 ==> RankIn(q.file) == DoneRank(if q.ok then 7 else k - 2))
    && (!q.ok && k == n + 1 ==> q.file == p.file)
  }

  lemma OneStep(n: nat, p: Progress, o: Options, w: World)
    requires p.ok && 1 <= n <= 7 && Rank(p.sess.stage) == n - 1
    ensures
      var next := StepOf(n, p, o, w);
      && next.did == p.did + [n] && next.sess.id == p.sess.id
      && (next.ok ==>
           && Rank(next.sess.stage) == DoneRank(n)
           && next.trace == p.trace + [Some(next.sess)] && next.file == Some(next.sess))
      && (!next.ok ==> next.trace == p.trace && next.file == p.file)
  {
    AttemptMeans(n, p.sess, o, w);
  }

  lemma Assoc(a: seq<nat>, b: seq<nat>, c: seq<nat>)
    ensures a + b + c == a + (b + c)
  {
  }

  lemma Appended(did: seq<nat>, ranks: seq<nat>, n: nat, k: nat, b: nat)
    requires n < k && n < b
    ensures did + [n] + Range(n + 1, k) == did + Range(n, k)
    ensures ranks + [DoneRank(n)] + Ladder(n + 1, b) == ranks + Ladder(n, b)
  {
    Assoc(did, [n], Range(n + 1, k));
    Assoc(ranks, [DoneRank(n)], Ladder(n + 1, b));
  }

  lemma Extends(p: Progress, n: nat, next: Progress, q: Progress, k: nat)
    requires 1 <= n < 7 && next.did == p.did + [n] && next.sess.id == p.sess.id
    requires next.ok && Rank(next.sess.stage) == n
    requires next.trace == p.trace + [Some(next.sess)] && next.file == Some(next.sess)
    requires RunsTo(next, n + 1, q, k)
    ensures RunsTo(p, n, q, k)
  {
    assert next.trace[..|p.trace|] == p.trace;
    Appended(p.did, Ranks(p.trace), n, k, if q.ok then k else k - 1);
  }

  /** The step at hand fails, or is the last. */
  lemma RunsOne(p: Progress, n: nat, next: Progress)
    requires 1 <= n <= 7 && next.did == p.did + [n] && next.sess.id == p.sess.id && (next.ok ==> n == 7)
    requires next.ok ==> Rank(next.sess.stage) == 8
    requires next.ok ==> next.trace == p.trace + [Some(next.sess)] && next.file == Some(next.sess)
    requires !next.ok ==> next.trace == p.trace && next.file == p.file
    ensures RunsTo(p, n, next, n + 1)
  {
    assert Range(n + 1, n + 1) == [] && Range(n, n + 1) == [n];
    assert Ladder(n + 1, n + 1) == [] && Ladder(n, n + 1) == [DoneRank(n)] && Ladder(n, n) == [];
    if next.ok {
      assert next.trace[..|p.trace|] == p.trace;
    } else {
      assert Ranks(p.trace) + [] == Ranks(p.trace);
    }
  }

  lemma StepsNext(n: nat, p: Progress, o: Options, w: World) returns (next: Progress)
    requires p.ok && 1 <= n <= 7
    ensures next == StepOf(n, p, o, w)
    ensures StepsFrom(n, p, o, w) == if next.ok && n < 7 then StepsFrom(n + 1, next, o, w) else next
  {
    next := StepOf(n, p, o, w);
  }

  lemma {:induction false} MissingStepsFrom(n: nat, p: Progress, o: Options, w: World) returns (q: Progress, k: nat)
    requires p.ok && 1 <= n <= 7 && Rank(p.sess.stage) == n - 1
    ensures q == StepsFrom(n, p, o, w) && RunsTo(p, n, q, k)
    decreases 8 - n
  {
    var next := StepsNext(n, p, o, w);
    OneStep(n, p, o, w);
    if !next.ok || n == 7 {
      q, k := next, n + 1;
      RunsOne(p, n, next);
    } else {
      q, k := MissingStepsFrom(n + 1, next, o, w);
      Extends(p, n, next, q, k);
    }
  }

  lemma {:induction false} SkipsDone(n: nat, p: Progress, o: Options, w: World)
    requires p.ok && 1 <= n <= Rank(p.sess.stage) + 1
    ensures StepsFrom(n, p, o, w) ==
      if Rank(p.sess.stage) >= 7 then p else StepsFrom(Rank(p.sess.stage) + 1, p, o, w)
    decreases 8 - n
  {
    if n <= 7 && n <= Rank(p.sess.stage) {
      SkipsDone(n + 1, p, o, w);
    }
  }

  lemma LacksFrom(start: Progress, o: Options, w: World) returns (q: Progress, k: nat)
    requires start.ok && Rank(start.sess.stage) < 7
    ensures q == StepsFrom(1, start, o, w) && RunsTo(start, Rank(start.sess.stage) + 1, q, k)
  {
    SkipsDone(1, start, o, w);
    q, k := MissingStepsFrom(Rank(start.sess.stage) + 1, start, o, w);
  }

  lemma RunsSteps(file: Option<Session>, o: Options, w: World, start: Progress)
    requires o.mode == Onboarding && !o.dryRun && start == Inception(file, o, w)
    ensures RunOf(file, o, w) == StepsFrom(1, start, o, w)
  {
  }

  /** A run that is not a dry run starts, from the session inception gave it, exactly the steps that session
      lacks, one after another until one fails; it succeeds exactly when none does, and then the file holds a
      completed session. From a session that already is at dev_stack_ready or completed it starts none, and
      leaves the file to what it was. */
  lemma MissingSteps(file: Option<Session>, o: Options, w: World, start: Progress) returns (q: Progress, k: nat)
    requires o.mode == Onboarding && !o.dryRun && start == Inception(file, o, w) && start.ok
    ensures q == RunOf(file, o, w)
    ensures if Rank(start.sess.stage) < 7 then RunsTo(start, Rank(start.sess.stage) + 1, q, k) else q == start
  {
    RunsSteps(file, o, w, start);
    if Rank(start.sess.stage) < 7 {
      q, k := LacksFrom(start, o, w);
    } else {
      SkipsDone(1, start, o, w);
      q, k := start, 8;
    }
  }

  lemma FillsTwice(n: nat, s: Session, t: Session, u: Session, o: Options, w: World)
    requires 1 <= n <= 7 && Fills(n, n + 1, s, t, o, w) && Fills(n + 1, 8, t, u, o, w)
    ensures Fills(n, 8, s, u, o, w)
  {
  }

  lemma StepCan(n: nat, p: Progress, o: Options, w: World, kept: string, next: Progress)
    requires p.ok && 1 <= n <= 7 && Rank(p.sess.stage) == n - 1 && (n <= 3 ==> p.sess.token == kept)
    requires next == StepOf(n, p, o, w)
    ensures next.ok <==> Can(n, kept, o, w) && w.saves(n)
    ensures next.ok ==> Fills(n, n + 1, p.sess, next.sess, o, w) && (n < 3 ==> next.sess.token == kept)
    ensures next.ok && n < 7 ==> Rank(next.sess.stage) == n
  {
    AttemptMeans(n, p.sess, o, w);
    RankMeans();
  }

  lemma {:induction false} CompletesFrom(n: nat, p: Progress, o: Options, w: World, kept: string)
    requires p.ok && 1 <= n <= 7 && Rank(p.sess.stage) == n - 1 && (n <= 3 ==> p.sess.token == kept)
    ensures
      var q := StepsFrom(n, p, o, w);
      && (q.ok <==> forall m :: n <= m <= 7 ==> Can(m, kept, o, w) && w.saves(m))
      && (q.ok ==> Fills(n, 8, p.sess, q.sess, o, w))
    decreases 8 - n
  {
    var next := StepsNext(n, p, o, w);
    StepCan(n, p, o, w, kept, next);
    if next.ok && n < 7 {
      CompletesFrom(n + 1, next, o, w, kept);
      if StepsFrom(n + 1, next, o, w).ok {
        FillsTwice(n, p.sess, next.sess, StepsFrom(n + 1, next, o, w).sess, o, w);
      }
    }
  }

  /** An onboarding run succeeds exactly when every step its session lacks can be done and saved; then the file holds
      that session, completed, with what each of these steps brings. */
  lemma CompletesIff(file: Option<Session>, o: Options, w: World)
    requires o.mode == Onboarding && !o.dryRun
    requires Inception(file, o, w).ok && Rank(Inception(file, o, w).sess.stage) < 7
    ensures
      var s, q := Inception(file, o, w).sess, RunOf(file, o, w);
      && (q.ok <==> forall n :: Rank(s.stage) < n <= 7 ==> Can(n, s.token, o, w) && w.saves(n))
      && (q.ok ==> q.file == Some(q.sess) && q.sess.stage == Completed && Fills(Rank(s.stage) + 1, 8, s, q.sess, o, w))
  {
    var start := Inception(file, o, w);
    RunsSteps(file, o, w, start);
    SkipsDone(1, start, o, w);
    CompletesFrom(Rank(start.sess.stage) + 1, start, o, w, start.sess.token);
    var q, k := MissingSteps(file, o, w, start);
  }

  // ----- when the rank in the file never goes down

  ghost predicate NonDecreasing(ranks: seq<nat>) {
    forall i, j :: 0 <= i < j < |ranks| ==> ranks[i] <= ranks[j]
  }

  /** The ranks an observer of the file sees during a run, beginning with the one before it. */
  function Seen(file: Option<Session>, q: Progress): seq<nat> {
    [RankIn(file)] + Ranks(q.trace)
  }

  lemma {:induction false} LadderRises(a: nat, b: nat)
    requires b <= 8
    ensures |Ladder(a, b)| == if a < b then b - a else 0
    ensures forall i :: 0 <= i < |Ladder(a, b)| ==> Ladder(a, b)[i] == DoneRank(a + i)
    decreases b - a
  {
    if a < b {
      LadderRises(a + 1, b);
    }
  }

  lemma RanksAppend(trace: seq<Option<Session>>, content: Option<Session>)
    ensures Ranks(trace + [content]) == Ranks(trace) + [RankIn(content)]
  {
    assert (trace + [content])[..|trace|] == trace;
  }

  /** How a resumed run starts. */
  lemma ResumedStart(file: Option<Session>, o: Options, w: World)
    requires o.mode == Onboarding && o.resume
    ensures
      var start := Inception(file, o, w);
      && start.ok && start.did == []
      && match Loaded(file, w)
         case Some(s) => start.sess == s && start.file == file && Ranks(start.trace) == []
         case None =>
           && Rank(start.sess.stage) == 0
           && (if w.saves(0) then start.file == Some(start.sess) && Ranks(start.trace) == [0]
               else start.file == file && Ranks(start.trace) == [])
  {
    RanksAppend([], Some(NewSession(w.freshId, o.email, o.name)));
    assert [] + [Some(NewSession(w.freshId, o.email, o.name))] == [Some(NewSession(w.freshId, o.email, o.name))];
  }

  /** The ranks a resumed run writes. */
  lemma ResumedRanks(file: Option<Session>, o: Options, w: World, start: Progress) returns (q: Progress, b: nat)
    requires o.mode == Onboarding && o.resume && start == Inception(file, o, w) && start.ok
    ensures q == RunOf(file, o, w) && b <= 8
    ensures Ranks(q.trace) == Ranks(start.trace) + Ladder(Rank(start.sess.stage) + 1, b)
  {
    b := 0;
    if o.dryRun {
      q := RunOf(file, o, w);
    } else {
      var k;
      q, k := MissingSteps(file, o, w, start);
      if Rank(start.sess.stage) < 7 {
        b := if q.ok then k else k - 1;
      }
    }
  }

  lemma Rises(low: nat, first: seq<nat>, r: nat, b: nat)
    requires b <= 8 && low <= r && (first == [] || (first == [0] && low == 0))
    ensures NonDecreasing([low] + (first + Ladder(r + 1, b)))
  {
    LadderRises(r + 1, b);
  }

  lemma LowStart(file: Option<Session>, o: Options, w: World) returns (start: Progress)
    requires o.mode == Onboarding && o.resume && (RankIn(file) == 0 || Loaded(file, w).Some?)
    ensures start == Inception(file, o, w) && start.ok && RankIn(file) <= Rank(start.sess.stage)
    ensures Ranks(start.trace) == [] || (Ranks(start.trace) == [0] && RankIn(file) == 0)
  {
    start := Inception(file, o, w);
    ResumedStart(file, o, w);
  }

  lemma SeenRises(file: Option<Session>, start: Progress, q: Progress, b: nat)
    requires b <= 8 && RankIn(file) <= Rank(start.sess.stage)
    requires Ranks(start.trace) == [] || (Ranks(start.trace) == [0] && RankIn(file) == 0)
    requires Ranks(q.trace) == Ranks(start.trace) + Ladder(Rank(start.sess.stage) + 1, b)
    ensures NonDecreasing(Seen(file, q))
  {
    Rises(RankIn(file), Ranks(start.trace), Rank(start.sess.stage), b);
  }

  lemma RisesFrom(file: Option<Session>, o: Options, w: World)
    requires o.mode == Onboarding && o.resume
    requires RankIn(file) == 0 || Loaded(file, w).Some?
    ensures NonDecreasing(Seen(file, RunOf(file, o, w)))
  {
    var start := LowStart(file, o, w);
    var q, b := ResumedRanks(file, o, w, start);
    SeenRises(file, start, q, b);
  }

  /** A resumed run never lowers the rank in the file, whatever else fails, exactly when there is nothing to
      lose or the saved session is pending and both reads of it succeed. A completed session, or one that
      cannot be read, is replaced by a new one. */
  lemma ResumeKeepsRankIff(file: Option<Session>, o: Options, firstLoad: bool, secondLoad: bool)
    requires o.mode == Onboarding && o.resume
    ensures
      (forall w: World :: w.firstLoad == firstLoad && w.secondLoad == secondLoad ==>
         NonDecreasing(Seen(file, RunOf(file, o, w))))
      <==> RankIn(file) == 0 || (firstLoad && secondLoad && Pending(file.value))
  {
    if RankIn(file) == 0 || (firstLoad && secondLoad && Pending(file.value)) {
      forall w: World | w.firstLoad == firstLoad && w.secondLoad == secondLoad
        ensures NonDecreasing(Seen(file, RunOf(file, o, w)))
      {
        RisesFrom(file, o, w);
      }
    } else {
      var w := World(firstLoad, secondLoad, true, _ => true, "", false, None, None, [], true, true, "");
      StartsOver(file, o, w);
    }
  }

  lemma StartsOver(file: Option<Session>, o: Options, w: World)
    requires o.mode == Onboarding && o.resume && RankIn(file) > 0 && Loaded(file, w).None? && w.saves(0)
    ensures !NonDecreasing(Seen(file, RunOf(file, o, w)))
  {
    var start := Inception(file, o, w);
    ResumedStart(file, o, w);
    var q, b := ResumedRanks(file, o, w, start);
    assert Seen(file, q)[0] > Seen(file, q)[1] == 0;
  }

  /** A dry run leaves the session file alone exactly when it resumes a pending session that can be read:
      otherwise inception has already put a new session in its place. */
  lemma DryRunKeepsFileIff(file: Option<Session>, o: Options, firstLoad: bool, secondLoad: bool)
    requires o.mode == Onboarding && o.dryRun
    ensures
      (forall w: World :: w.firstLoad == firstLoad && w.secondLoad == secondLoad ==> RunOf(file, o, w).file == file)
      <==> file.Some? && firstLoad && secondLoad && Pending(file.value) && o.resume
  {
    if !(file.Some? && firstLoad && secondLoad && Pending(file.value) && o.resume) {
      var id := if file.Some? then file.value.id + "x" else "x";
      var w := World(firstLoad, secondLoad, true, _ => true, id, false, None, None, [], false, true, "");
      assert RunOf(file, o, w).file == Some(NewSession(id, o.email, o.name));
      assert |id| > 0 && (file.Some? ==> |id| == |file.value.id| + 1);
    }
  }

  /** With no saved session a dry run saves a new one. */
  lemma DryRunReplaces(o: Options, w: World)
    requires o.mode == Onboarding && o.dryRun && w.saves(0)
    ensures RunOf(None, o, w).file == Some(NewSession(w.freshId, o.email, o.name))
  {
  }

  // ----- any sequence of runs

  datatype Attempted = Attempted(options: Options, world: World)

  function FileAfter(file: Option<Session>, runs: seq<Attempted>): Option<Session>
    decreases |runs|
  {
    if runs == [] then file else FileAfter(RunOf(file, runs[0].options, runs[0].world).file, runs[1..])
  }

  /** The key EnsureKey returned during a run, if the run got that far. */
  function KeysOf(q: Progress, w: World): set<string> {
    if 2 in q.did && w.key.Some? then {w.key.value} else {}
  }

  function Keys(file: Option<Session>, runs: seq<Attempted>): set<string>
    decreases |runs|
  {
    if runs == [] then {}
    else
      var q := RunOf(file, runs[0].options, runs[0].world);
      KeysOf(q, runs[0].world) + Keys(q.file, runs[1..])
  }

  /** What a saved session is worth: it is never left at the rank before the last, from rank 2 on it holds a
      key EnsureKey returned, and from rank 3 on an invite token. */
  predicate Sound(s: Session, keys: set<string>) {
    var rank := Rank(s.stage);
    rank != 7 && (rank >= 2 ==> s.key in keys) && (rank >= 3 ==> s.token != "")
  }

  predicate SoundFile(file: Option<Session>, keys: set<string>) {
    file.Some? ==> Sound(file.value, keys)
  }

  lemma AttemptSound(n: nat, s: Session, o: Options, w: World, keys: set<string>)
    requires 1 <= n <= 7 && Rank(s.stage) == n - 1 && Sound(s, keys)
    requires n == 2 && w.key.Some? ==> w.key.value in keys
    ensures var t := Attempt(n, s, o, w); t.Some? ==> Sound(t.value, keys)
  {
    AttemptMeans(n, s, o, w);
  }

  lemma StepKeepsSound(n: nat, p: Progress, o: Options, w: World, keys: set<string>)
    requires 1 <= n <= 7 && p.ok && Rank(p.sess.stage) >= n - 1
    requires Sound(p.sess, keys + KeysOf(p, w)) && SoundFile(p.file, keys + KeysOf(p, w))
    ensures
      var q := StepOf(n, p, o, w);
      && (q.ok ==> Sound(q.sess, keys + KeysOf(q, w)) && Rank(q.sess.stage) >= n)
      && SoundFile(q.file, keys + KeysOf(q, w))
  {
    var q := StepOf(n, p, o, w);
    if Rank(p.sess.stage) < n {
      AttemptMeans(n, p.sess, o, w);
      assert q.did == p.did + [n] && KeysOf(p, w) <= KeysOf(q, w);
      AttemptSound(n, p.sess, o, w, keys + KeysOf(q, w));
    }
  }

  lemma {:induction false} StepsKeepSound(n: nat, p: Progress, o: Options, w: World, keys: set<string>)
    requires 1 <= n <= 8 && (p.ok ==> Rank(p.sess.stage) >= n - 1 && Sound(p.sess, keys + KeysOf(p, w)))
    requires SoundFile(p.file, keys + KeysOf(p, w))
    ensures SoundFile(StepsFrom(n, p, o, w).file, keys + KeysOf(StepsFrom(n, p, o, w), w))
    decreases 8 - n
  {
    if n <= 7 && p.ok {
      StepKeepsSound(n, p, o, w, keys);
      StepsKeepSound(n + 1, StepOf(n, p, o, w), o, w, keys);
    }
  }

  lemma RunKeepsSound(file: Option<Session>, o: Options, w: World, keys: set<string>)
    requires SoundFile(file, keys)
    ensures SoundFile(RunOf(file, o, w).file, keys + KeysOf(RunOf(file, o, w), w))
  {
    if o.mode == Onboarding {
      var start := Inception(file, o, w);
      assert keys + KeysOf(start, w) == keys;
      StepsKeepSound(1, start, o, w, keys);
    }
  }

  /** Over any sequence of runs, of any kind, that may fail at any call and at any write: what the file holds in
      the end is sound, and its key is one that EnsureKey returned in some run. */
  lemma {:induction false} FileAlwaysSound(file: Option<Session>, runs: seq<Attempted>, keys: set<string>)
    requires SoundFile(file, keys)
    ensures SoundFile(FileAfter(file, runs), keys + Keys(file, runs))
    decreases |runs|
  {
    if runs == [] {
      assert keys + Keys(file, runs) == keys;
    } else {
      var q := RunOf(file, runs[0].options, runs[0].world);
      var more := KeysOf(q, runs[0].world);
      RunKeepsSound(file, runs[0].options, runs[0].world, keys);
      FileAlwaysSound(q.file, runs[1..], keys + more);
      assert keys + more + Keys(q.file, runs[1..]) == keys + Keys(file, runs);
    }
  }

  /** From a sound file, and so after any runs that began with one or with none, an onboarding run without an
      error that is not a dry run leaves a completed session in the file. */
  lemma ErrorFreeCompletes(file: Option<Session>, runs: seq<Attempted>, keys: set<string>, o: Options, w: World)
    requires SoundFile(file, keys) && o.mode == Onboarding && !o.dryRun
    requires RunOf(FileAfter(file, runs), o, w).ok
    ensures
      var after := RunOf(FileAfter(file, runs), o, w).file;
      after.Some? && after.value.stage == Completed
  {
    var before := FileAfter(file, runs);
    FileAlwaysSound(file, runs, keys);
    NotStuck(before, keys + Keys(file, runs), o, w);
    var q, k := MissingSteps(before, o, w, Inception(before, o, w));
  }

  lemma NotStuck(file: Option<Session>, keys: set<string>, o: Options, w: World)
    requires SoundFile(file, keys) && o.mode == Onboarding && !o.dryRun && RunOf(file, o, w).ok
    ensures Inception(file, o, w).ok && Rank(Inception(file, o, w).sess.stage) < 7
  {
  }

  // ----- resumed runs

  /** The outcomes of a sequence of runs, each on the file the one before it left. */
  function Results(file: Option<Session>, runs: seq<Attempted>): (qs: seq<Progress>)
    ensures |qs| == |runs|
    decreases |runs|
  {
    if runs == [] then []
    else
      var q := RunOf(file, runs[0].options, runs[0].world);
      [q] + Results(q.file, runs[1..])
  }

  /** The ranks written to the file, one run after another. */
  function Log(qs: seq<Progress>): seq<nat> {
    if qs == [] then [] else Ranks(qs[0].trace) + Log(qs[1..])
  }

  function LastFile(file: Option<Session>, qs: seq<Progress>): Option<Session> {
    if qs == [] then file else qs[|qs| - 1].file
  }

  predicate Resumes(r: Attempted) {
    && r.options.mode == Onboarding && r.options.resume && !r.options.dryRun
    && r.world.firstLoad && r.world.secondLoad
  }

  /** Every run of the sequence resumes a session that is still pending when it starts. */
  predicate ResumesThroughout(file: Option<Session>, runs: seq<Attempted>)
    decreases |runs|
  {
    runs == [] ||
    (&& Resumes(runs[0]) && file.Some? && Pending(file.value)
     && ResumesThroughout(RunOf(file, runs[0].options, runs[0].world).file, runs[1..]))
  }

  /** One run of such a sequence, from rank r: the steps before k are in the file afterwards. */
  ghost predicate Reaches(r: nat, q: Progress, k: nat) {
    && r < k <= 8 && Ranks(q.trace) == Ladder(r + 1, k) && (q.ok ==> k == 8) && (!q.ok ==> k <= 7)
    && RankIn(q.file) == (if k > r + 1 then DoneRank(k - 1) else r)
  }

  lemma Reached(start: Progress, r: nat, q: Progress, k: nat) returns (reached: nat)
    requires r < 7 && RunsTo(start, r + 1, q, k) && start.trace == [] && RankIn(start.file) == r
    ensures Reaches(r, q, reached)
  {
    reached := if q.ok then k else k - 1;
    Assoc([], [], Ladder(r + 1, reached));
  }

  lemma LoadedStart(file: Option<Session>, o: Options, w: World)
    requires Resumes(Attempted(o, w)) && file.Some? && Pending(file.value)
    ensures Inception(file, o, w) == Progress(file.value, file, [], [], true)
  {
  }

  lemma LoadedSteps(file: Option<Session>, o: Options, w: World, start: Progress)
    requires Resumes(Attempted(o, w)) && file.Some? && Pending(file.value)
    requires start == Progress(file.value, file, [], [], true)
    ensures RunOf(file, o, w) == StepsFrom(1, start, o, w)
  {
    LoadedStart(file, o, w);
    RunsSteps(file, o, w, start);
  }

  lemma StepsReach(start: Progress, o: Options, w: World) returns (q: Progress, k: nat)
    requires start.ok && start.trace == [] && start.file == Some(start.sess) && Rank(start.sess.stage) < 7
    ensures q == StepsFrom(1, start, o, w) && Reaches(Rank(start.sess.stage), q, k)
  {
    q, k := LacksFrom(start, o, w);
    k := Reached(start, Rank(start.sess.stage), q, k);
  }

  lemma ResumedRun(file: Option<Session>, o: Options, w: World) returns (q: Progress, k: nat)
    requires Resumes(Attempted(o, w)) && file.Some? && Pending(file.value) && RankIn(file) < 7
    ensures q == RunOf(file, o, w) && Reaches(RankIn(file), q, k)
  {
    var start := Progress(file.value, file, [], [], true);
    q, k := StepsReach(start, o, w);
    LoadedSteps(file, o, w, start);
  }

  /** Outcomes that carry on from one another, from rank r: nothing follows a completed one. */
  ghost predicate CarryOn(r: nat, qs: seq<Progress>)
    decreases |qs|
  {
    qs == [] ||
    exists k: nat :: Reaches(r, qs[0], k) && (k == 8 ==> |qs| == 1) && CarryOn(RankIn(qs[0].file), qs[1..])
  }

  lemma FirstResult(file: Option<Session>, runs: seq<Attempted>, q: Progress)
    requires runs != [] && q == RunOf(file, runs[0].options, runs[0].world)
    ensures Results(file, runs) == [q] + Results(q.file, runs[1..])
    ensures ResumesThroughout(file, runs) ==>
      Resumes(runs[0]) && file.Some? && Pending(file.value) && ResumesThroughout(q.file, runs[1..])
  {
  }

  lemma {:induction false} ResumedCarryOn(file: Option<Session>, runs: seq<Attempted>)
    requires ResumesThroughout(file, runs) && RankIn(file) < 7
    ensures CarryOn(RankIn(file), Results(file, runs))
    decreases |runs|, 1
  {
    if runs != [] {
      var q, k := ResumedRun(file, runs[0].options, runs[0].world);
      FirstResult(file, runs, q);
      RestCarriesOn(RankIn(file), q, k, runs);
    }
  }

  lemma {:induction false} RestCarriesOn(r: nat, q: Progress, k: nat, runs: seq<Attempted>)
    requires runs != [] && r < 7 && Reaches(r, q, k) && ResumesThroughout(q.file, runs[1..])
    ensures CarryOn(r, [q] + Results(q.file, runs[1..]))
    decreases |runs|, 0
  {
    if k < 8 {
      ResumedCarryOn(q.file, runs[1..]);
    } else {
      NoneAfterCompleted(q.file, runs[1..]);
    }
    CarriesOn(r, q, Results(q.file, runs[1..]), k);
  }

  lemma NoneAfterCompleted(file: Option<Session>, runs: seq<Attempted>)
    requires ResumesThroughout(file, runs) && RankIn(file) == 8
    ensures runs == []
  {
  }

  lemma CarriesOn(r: nat, q: Progress, rest: seq<Progress>, k: nat)
    requires Reaches(r, q, k) && (k == 8 ==> rest == []) && CarryOn(RankIn(q.file), rest)
    ensures CarryOn(r, [q] + rest)
  {
    var qs := [q] + rest;
    assert qs[0] == q && qs[1..] == rest;
  }

  /** The log of outcomes that carry on: the steps before m, each once. */
  ghost predicate Logged(r: nat, qs: seq<Progress>, file: Option<Session>, m: nat) {
    && r + 1 <= m <= 8 && Log(qs) == Ladder(r + 1, m)
    && RankIn(LastFile(file, qs)) == if m > r + 1 then DoneRank(m - 1) else r
  }

  lemma LogsOne(r: nat, qs: seq<Progress>, file: Option<Session>)
    requires |qs| == 1 && Reaches(r, qs[0], 8)
    ensures Logged(r, qs, file, 8)
  {
    LogOfOne(qs);
  }

  lemma LogsNext(r: nat, qs: seq<Progress>, file: Option<Session>, k: nat, m: nat)
    requires qs != [] && Reaches(r, qs[0], k) && k < 8 && Logged(k - 1, qs[1..], qs[0].file, m)
    ensures Logged(r, qs, file, m)
  {
    LadderSplit(r + 1, k, m);
  }

  lemma {:induction false} CarryOnLog(r: nat, qs: seq<Progress>, file: Option<Session>) returns (m: nat)
    requires CarryOn(r, qs) && r < 7 && RankIn(file) == r
    ensures Logged(r, qs, file, m)
    decreases |qs|
  {
    if qs == [] {
      m := r + 1;
    } else {
      var k: nat :| Reaches(r, qs[0], k) && (k == 8 ==> |qs| == 1) && CarryOn(RankIn(qs[0].file), qs[1..]);
      if k == 8 {
        m := 8;
        LogsOne(r, qs, file);
      } else {
        m := CarryOnLog(k - 1, qs[1..], qs[0].file);
        LogsNext(r, qs, file, k, m);
      }
    }
  }

  lemma LogOfOne(qs: seq<Progress>)
    requires |qs| == 1
    ensures Log(qs) == Ranks(qs[0].trace)
  {
    assert Log(qs[1..]) == [];
    Assoc(Ranks(qs[0].trace), [], []);
  }

  lemma {:induction false} LadderSplit(a: nat, b: nat, c: nat)
    requires a <= b <= c
    ensures Ladder(a, c) == Ladder(a, b) + Ladder(b, c)
    decreases b - a
  {
    if a < b {
      LadderSplit(a + 1, b, c);
    }
  }

  /** However often resumed runs fail, the checkpoints they write are those of the missing steps, in order and
      each exactly once: no finished step is done again. From dev_stack_ready on nothing is ever written. */
  lemma {:induction false} EachStepOnce(file: Option<Session>, runs: seq<Attempted>) returns (m: nat)
    requires ResumesThroughout(file, runs)
    ensures
      var qs := Results(file, runs);
      if RankIn(file) < 7 then
        && RankIn(file) + 1 <= m <= 8 && Log(qs) == Ladder(RankIn(file) + 1, m)
        && RankIn(LastFile(file, qs)) == if m > RankIn(file) + 1 then DoneRank(m - 1) else RankIn(file)
      else Log(qs) == [] && LastFile(file, qs) == file
    decreases |runs|
  {
    if RankIn(file) < 7 {
      ResumedCarryOn(file, runs);
      m := CarryOnLog(RankIn(file), Results(file, runs), file);
    } else {
      m := 8;
      StaysStuck(file, runs);
    }
  }

  /** A session at dev_stack_ready, which no run leaves in the file, would stay there: a resumed run succeeds
      without starting a step. */
  lemma StuckRun(file: Option<Session>, o: Options, w: World)
    requires Resumes(Attempted(o, w)) && file.Some? && file.value.stage == DevStackReady
    ensures RunOf(file, o, w) == Progress(file.value, file, [], [], true)
  {
    var start := Progress(file.value, file, [], [], true);
    LoadedSteps(file, o, w, start);
    SkipsDone(1, start, o, w);
  }

  lemma {:induction false} StaysStuck(file: Option<Session>, runs: seq<Attempted>)
    requires ResumesThroughout(file, runs) && RankIn(file) >= 7
    ensures Log(Results(file, runs)) == [] && LastFile(file, Results(file, runs)) == file
    decreases |runs|
  {
    if runs != [] {
      var q := Progress(file.value, file, [], [], true);
      StuckRun(file, runs[0].options, runs[0].world);
      FirstResult(file, runs, q);
      StaysStuck(file, runs[1..]);
      StuckOnce(q, Results(file, runs[1..]), file);
    }
  }

  lemma StuckOnce(q: Progress, rest: seq<Progress>, file: Option<Session>)
    requires q.trace == [] && q.file == file && Log(rest) == [] && LastFile(file, rest) == file
    ensures Log([q] + rest) == [] && LastFile(file, [q] + rest) == file
  {
    assert ([q] + rest)[1..] == rest;
  }

  // ----- the service

  /** The session object the steps fill in. */
  class SessionState {
    var id: string
    var email: string
    var name: string
    var uid: string
    var currentStage: Stage
    var inviteToken: string
    var sshPublicKey: string
    var forgejoToken: string
    var wireGuardConfig: string
    var workspacePath: string
    var clonedRepos: seq<string>

    constructor (s: Session)
      ensures Value() == s
    {
      id, email, name, uid, currentStage, inviteToken := s.id, s.email, s.name, s.uid, s.stage, s.token;
      sshPublicKey, forgejoToken, wireGuardConfig := s.key, s.forgejo, s.wireguard;
      workspacePath, clonedRepos := s.workspace, s.cloned;
    }

    function Value(): Session
      reads this
    {
      Session(id, email, name, uid, currentStage, inviteToken, sshPublicKey, forgejoToken, wireGuardConfig,
              workspacePath, clonedRepos)
    }
  }

  class Service {
    /** The session file. */
    var file: Option<Session>
    /** What the file was given, and the steps announced, since the run began. */
    ghost var trace: seq<Option<Session>>
    var did: seq<nat>

    constructor (file: Option<Session>)
      ensures this.file == file && trace == [] && did == []
    {
      this.file, trace, did := file, [], [];
    }

    ghost function Now(sess: SessionState, ok: bool): Progress
      reads this, sess
    {
      Progress(sess.Value(), file, trace, did, ok)
    }

    method Save(sess: SessionState, succeeds: bool) returns (ok: bool)
      modifies this
      ensures ok == succeeds && did == old(did)
      ensures file == if ok then Some(sess.Value()) else old(file)
      ensures trace == if ok then old(trace) + [Some(sess.Value())] else old(trace)
    {
      if succeeds {
        file := Some(sess.Value());
        trace := trace + [file];
      }
      return succeeds;
    }

    method Clear(succeeds: bool) returns (ok: bool)
      modifies this
      ensures ok == succeeds && did == old(did)
      ensures file == if ok then None else old(file)
      ensures trace == if ok then old(trace) + [None] else old(trace)
    {
      if succeeds {
        file := None;
        trace := trace + [None];
      }
      return succeeds;
    }

    method HasPending(w: World) returns (pending: bool)
      ensures pending <==> file.Some? && w.firstLoad && Pending(file.value)
    {
      return file.Some? && w.firstLoad && file.value.stage != Completed;
    }

    method StartFresh(o: Options, w: World, discard: bool) returns (sess: SessionState)
      requires trace == [] && did == []
      modifies this
      ensures fresh(sess) && Now(sess, true) == Fresh(old(file), o, w, discard)
    {
      if discard {
        var _ := Clear(w.clears);
      }
      sess := new SessionState(NewSession(w.freshId, o.email, o.name));
      var _ := Save(sess, w.saves(0));
    }

    /** The session a run works on; ok is false when a token would be thrown away with the checkpoint. */
    method Incept(o: Options, w: World) returns (sess: SessionState, ok: bool)
      requires trace == [] && did == []
      modifies this
      ensures fresh(sess) && Now(sess, ok) == Inception(old(file), o, w)
    {
      var pending := HasPending(w);
      if pending && w.secondLoad {
        var loaded := new SessionState(file.value);
        if o.resume {
          return loaded, true;
        } else if !o.nonInteractive && !o.json {
          if w.resumeAnswer {
            return loaded, true;
          }
          sess := StartFresh(o, w, true);
          return sess, true;
        } else {
          if !o.dryRun && o.token != "" {
            sess := new SessionState(NewSession("", "", ""));
            return sess, false;
          }
          sess := StartFresh(o, w, true);
          return sess, true;
        }
      }
      sess := StartFresh(o, w, false);
      ok := true;
    }

    method StepDiagnostics(sess: SessionState, o: Options, w: World) returns (ok: bool)
      modifies this, sess
      ensures
        Now(sess, ok) == if o.dryRun then Diagnosed(old(Now(sess, true))) else StepOf(1, old(Now(sess, true)), o, w)
    {
      if IsStageCompleted(sess.currentStage, DoctorPassed) {
        return true;
      }
      did := did + [1];
      if o.dryRun {
        return true;
      }
      if w.preflightErrors {
        if o.nonInteractive || !w.proceedAnswer {
          return false;
        }
      }
      sess.currentStage := DoctorPassed;
      ok := Save(sess, w.saves(1));
    }

    method StepKeypair(sess: SessionState, o: Options, w: World) returns (ok: bool)
      modifies this, sess
      ensures Now(sess, ok) == StepOf(2, old(Now(sess, true)), o, w)
    {
      if IsStageCompleted(sess.currentStage, KeypairReady) {
        return true;
      }
      did := did + [2];
      if w.key.None? {
        return false;
      }
      sess.sshPublicKey := w.key.value;
      sess.currentStage := KeypairReady;
      ok := Save(sess, w.saves(2));
    }

    /** The token a claim is made with; empty when there is none. */
    method ResolveToken(sess: SessionState, o: Options, w: World) returns (token: string)
      ensures token == ClaimToken(sess.Value(), o, w)
    {
      token := TrimSpace(o.token);
      if token == "" {
        token := sess.inviteToken;
      }
      if token == "" {
        if o.nonInteractive || o.json {
          return "";
        }
        token := w.tokenAnswer;
      }
    }

    method StepClaim(sess: SessionState, o: Options, w: World) returns (ok: bool)
      modifies this, sess
      ensures Now(sess, ok) == StepOf(3, old(Now(sess, true)), o, w)
    {
      if IsStageCompleted(sess.currentStage, TokenClaimed) {
        return true;
      }
      did := did + [3];
      var token := ResolveToken(sess, o, w);
      if token == "" || w.claim.None? {
        return false;
      }
      FillClaim(sess, token, w.claim.value);
      ok := Save(sess, w.saves(3));
    }

    method FillClaim(sess: SessionState, token: string, claim: Claimed)
      modifies sess
      ensures sess.Value() == old(sess.Value()).(token := token, uid := claim.uid, email := claim.email,
        name := claim.name, forgejo := claim.forgejo, wireguard := claim.wireguard, stage := TokenClaimed)
    {
      sess.inviteToken := token;
      sess.uid := claim.uid;
      sess.email := claim.email;
      sess.name := claim.name;
      sess.forgejoToken := claim.forgejo;
      sess.wireGuardConfig := claim.wireguard;
      sess.currentStage := TokenClaimed;
    }

    method StepNetwork(sess: SessionState, o: Options, w: World) returns (ok: bool)
      modifies this, sess
      ensures Now(sess, ok) == StepOf(4, old(Now(sess, true)), o, w)
    {
      if IsStageCompleted(sess.currentStage, NetworkConfigured) {
        return true;
      }
      did := did + [4];
      sess.currentStage := NetworkConfigured;
      ok := Save(sess, w.saves(4));
    }

    method StepWorkspace(sess: SessionState, o: Options, w: World) returns (ok: bool)
      modifies this, sess
      ensures Now(sess, ok) == StepOf(5, old(Now(sess, true)), o, w)
    {
      if IsStageCompleted(sess.currentStage, ReposCloned) {
        return true;
      }
      did := did + [5];
      for i := 0 to |w.cloned|
        modifies sess
        invariant sess.Value() == old(sess.Value()).(cloned := old(sess.clonedRepos) + w.cloned[..i])
      {
        assert w.cloned[..i + 1] == w.cloned[..i] + [w.cloned[i]];
        sess.clonedRepos := sess.clonedRepos + [w.cloned[i]];
      }
      assert w.cloned[..|w.cloned|] == w.cloned;
      sess.workspacePath := o.workspace;
      sess.currentStage := ReposCloned;
      ok := Save(sess, w.saves(5));
    }

    method StepMcp(sess: SessionState, o: Options, w: World) returns (ok: bool)
      modifies this, sess
      ensures Now(sess, ok) == StepOf(6, old(Now(sess, true)), o, w)
    {
      if IsStageCompleted(sess.currentStage, McpConfigured) {
        return true;
      }
      did := did + [6];
      sess.currentStage := McpConfigured;
      ok := Save(sess, w.saves(6));
    }

    method StepStack(sess: SessionState, o: Options, w: World) returns (ok: bool)
      modifies this, sess
      ensures Now(sess, ok) == StepOf(7, old(Now(sess, true)), o, w)
    {
      if IsStageCompleted(sess.currentStage, DevStackReady) {
        return true;
      }
      did := did + [7];
      sess.currentStage := DevStackReady;
      sess.currentStage := Completed;
      ok := Save(sess, w.saves(7));
    }

    /** The steps of Run, each returning at once when it fails. */
    method RunSteps(sess: SessionState, o: Options, w: World) returns (ok: bool)
      modifies this, sess
      ensures Now(sess, ok) ==
        if o.dryRun then Diagnosed(old(Now(sess, true))) else StepsFrom(1, old(Now(sess, true)), o, w)
    {
      ok := StepDiagnostics(sess, o, w);
      if o.dryRun {
        return;
      }
      if ok {
        ok := StepKeypair(sess, o, w);
      }
      if ok {
        ok := StepClaim(sess, o, w);
      }
      if ok {
        ok := StepNetwork(sess, o, w);
      }
      if ok {
        ok := StepWorkspace(sess, o, w);
      }
      if ok {
        ok := StepMcp(sess, o, w);
      }
      if ok {
        ok := StepStack(sess, o, w);
      }
    }

    /** A whole run; a service lives for one. */
    method Run(o: Options, w: World) returns (ok: bool)
      requires trace == [] && did == []
      modifies this
      ensures
        var q := RunOf(old(file), o, w);
        file == q.file && trace == q.trace && did == q.did && ok == q.ok
    {
      match o.mode {
        case Reset =>
          ok := Clear(w.clears);
          return;
        case Rollback =>
          if !w.firstLoad {
            return false;
          }
          if file.None? {
            return true;
          }
          ok := Clear(w.clears);
          return;
        case Bundle =>
          return true;
        case Onboarding =>
      }
      var sess;
      sess, ok := Incept(o, w);
      if !ok {
        return;
      }
      ok := RunSteps(sess, o, w);
    }
  }
}
