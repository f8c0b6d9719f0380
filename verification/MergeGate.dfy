/** The merge gate: pkg/pr/application/gate.go, mergeGated of pkg/pr/application/service.go, and the second
    copy of the gate in pkg/release/application/service.go. */
module MergeGate {
  import opened Strings
  import opened Checks

  datatype Options = Options(wait: bool, allowNoChecks: bool, overrideSet: bool, overrideReason: string)

  /** The resolved timeout, poll interval and register window, in one unit of time. */
  datatype Timing = Timing(timeout: int, interval: int, window: int)

  const DEFAULT_TIMEOUT := 20 * 60
  const DEFAULT_INTERVAL := 10
  const DEFAULT_WINDOW := 60

  /** Unset or nonsensical durations, in seconds, fall back to the defaults. */
  function Resolve(timeout: int, interval: int, window: int): Timing {
    Timing(if timeout <= 0 then DEFAULT_TIMEOUT else timeout,
           if interval <= 0 then DEFAULT_INTERVAL else interval,
           if window <= 0 then DEFAULT_WINDOW else window)
  }

  /** One poll: the checks the forge reports, None when they cannot be read, and the clock right after. */
  datatype Poll = Poll(checks: Option<seq<Check>>, at: int)

  /** What the outside world answers during one merge attempt: the clock at the start, the polls, the clock
      after the loop, and whether a comment and the merge itself succeed. */
  datatype World = World(start: int, polls: seq<Poll>, end: int, commentOk: bool, mergeOk: bool)

  /** How the polling loop ends; Waiting when it is still polling after the last poll of the trace. */
  datatype Waited = Unreadable(index: nat) | Ended(index: nat, timedOut: bool) | Waiting

  function CountPending(checks: seq<Check>): nat {
    if checks == [] then 0
    else CountPending(checks[..|checks| - 1]) + if checks[|checks| - 1].bucket == "pending" then 1 else 0
  }

  lemma {:induction false} CountPendingZero(checks: seq<Check>)
    ensures CountPending(checks) == 0 <==> forall c :: c in checks ==> !Pending(c)
  {
    if checks != [] {
      var init, last := checks[..|checks| - 1], checks[|checks| - 1];
      CountPendingZero(init);
      assert checks == init + [last] && last in checks;
    }
  }

  function NameSet(checks: seq<Check>): set<string> {
    set c | c in checks :: c.name
  }

  /** A list that may end the wait: nothing pending, and not empty before the register window is over. */
  predicate Complete(checks: seq<Check>, elapsed: int, window: int) {
    CountPending(checks) == 0 && (|checks| > 0 || elapsed >= window)
  }

  /** The polling loop from poll i on; names are those of the poll before, None for the first. */
  function WaitFrom(w: World, i: nat, names: Option<set<string>>, wait: bool, t: Timing): Waited
    decreases |w.polls| - i
  {
    if i >= |w.polls| then Waiting
    else
      match w.polls[i].checks
      case None => Unreadable(i)
      case Some(checks) =>
        var elapsed := w.polls[i].at - w.start;
        var stable := names == Some(NameSet(checks));
        var firstEmpty := names == None && |checks| == 0 && elapsed >= t.window;
        if !wait then Ended(i, false)
        else if Complete(checks, elapsed, t.window) && (stable || firstEmpty) then Ended(i, false)
        else if elapsed >= t.timeout then Ended(i, true)
        else WaitFrom(w, i + 1, Some(NameSet(checks)), wait, t)
  }

  function Wait(w: World, wait: bool, t: Timing): Waited {
    WaitFrom(w, 0, None, wait, t)
  }

  // ----- the loop, told without its state

  predicate Readable(w: World, i: nat) {
    i < |w.polls| && w.polls[i].checks.Some?
  }

  function ChecksAt(w: World, i: nat): seq<Check>
    requires Readable(w, i)
  {
    w.polls[i].checks.value
  }

  function Elapsed(w: World, i: nat): int
    requires i < |w.polls|
  {
    w.polls[i].at - w.start
  }

  /** Poll i settles the wait: nothing is pending, and either it has the names of the poll before or it is
      the first poll, reports nothing, and the register window has passed. An empty list never settles
      before the window has passed. */
  predicate Settles(w: World, i: nat, t: Timing)
    requires Readable(w, i) && (i > 0 ==> Readable(w, i - 1))
  {
    var checks := ChecksAt(w, i);
    && (forall c :: c in checks ==> !Pending(c))
    && (checks == [] ==> Elapsed(w, i) >= t.window)
    && (if i == 0 then checks == [] else NameSet(ChecksAt(w, i - 1)) == NameSet(checks))
  }

  /** Neither settled nor timed out at poll i. */
  predicate GoesOn(w: World, i: nat, t: Timing)
    requires Readable(w, i) && (i > 0 ==> Readable(w, i - 1))
  {
    !Settles(w, i, t) && Elapsed(w, i) < t.timeout
  }

  ghost predicate WaitsUntil(w: World, n: nat, t: Timing) {
    && (forall j :: 0 <= j < n ==> Readable(w, j))
    && forall j :: 0 <= j < n ==> GoesOn(w, j, t)
  }

  /** The loop ends at the first poll that settles or times out, and fails at the first that is unreadable. */
  lemma {:induction false} WaitMeans(w: World, i: nat, t: Timing)
    requires i <= |w.polls| && WaitsUntil(w, i, t)
    ensures
      var names := if i == 0 then None else Some(NameSet(ChecksAt(w, i - 1)));
      match WaitFrom(w, i, names, true, t)
      case Waiting => WaitsUntil(w, |w.polls|, t)
      case Unreadable(n) => i <= n < |w.polls| && WaitsUntil(w, n, t) && !Readable(w, n)
      case Ended(n, timedOut) =>
        && i <= n < |w.polls| && WaitsUntil(w, n, t) && Readable(w, n)
        && timedOut == !Settles(w, n, t)
        && (timedOut ==> Elapsed(w, n) >= t.timeout)
    decreases |w.polls| - i
  {
    if i < |w.polls| && Readable(w, i) {
      CountPendingZero(ChecksAt(w, i));
      if GoesOn(w, i, t) {
        WaitMeans(w, i + 1, t);
      }
    }
  }

  /** The clock does not go back, and every sleep lasts at least the poll interval. */
  ghost predicate SleepsFully(w: World, t: Timing) {
    && (|w.polls| > 0 ==> w.polls[0].at >= w.start)
    && forall i :: 0 < i < |w.polls| ==> w.polls[i].at >= w.polls[i - 1].at + t.interval
  }

  lemma {:induction false} ElapsedGrows(w: World, t: Timing, i: nat)
    requires SleepsFully(w, t) && i < |w.polls|
    ensures Elapsed(w, i) >= i * t.interval
  {
    if i > 0 {
      ElapsedGrows(w, t, i - 1);
      assert i * t.interval == (i - 1) * t.interval + t.interval;
    }
  }

  /** Division rounding up. */
  function CeilDiv(a: int, b: int): int
    requires b > 0
  {
    (a + b - 1) / b
  }

  /** How many polls a wait has made. */
  function Polls(w: World, r: Waited): nat {
    match r
    case Unreadable(i) => i + 1
    case Ended(i, _) => i + 1
    case Waiting => |w.polls|
  }

  /** With real sleeps the loop polls at most ceil(timeout / interval) + 1 times, however it ends. */
  lemma PollBound(w: World, t: Timing)
    requires t.interval > 0 && t.timeout > 0 && SleepsFully(w, t)
    ensures Polls(w, Wait(w, true, t)) <= CeilDiv(t.timeout, t.interval) + 1
    ensures |w.polls| >= CeilDiv(t.timeout, t.interval) + 1 ==> !Wait(w, true, t).Waiting?
  {
    WaitMeans(w, 0, t);
    var bound := CeilDiv(t.timeout, t.interval);
    CeilDivCovers(t.timeout, t.interval);
    if bound < |w.polls| && Readable(w, bound) && (bound > 0 ==> Readable(w, bound - 1)) {
      ElapsedGrows(w, t, bound);
      assert !GoesOn(w, bound, t);
    }
  }

  lemma CeilDivCovers(a: int, b: int)
    requires a > 0 && b > 0
    ensures CeilDiv(a, b) >= 0 && CeilDiv(a, b) * b >= a
  {
    var q := CeilDiv(a, b);
    assert a + b - 1 == q * b + (a + b - 1) % b;
    assert (a + b - 1) % b <= b - 1;
  }

  // ----- verdicts

  datatype How = ChecksPassed | NoChecksAccepted | Overridden(reason: string)

  datatype Verdict = Merge(how: How) | Refuse(reason: Reason) | UsageError | CannotRead | CannotComment | Undecided

  /** What both gates do once no other rule has allowed the merge: judge the list, then look for an override. */
  function JudgeList(checks: seq<Check>, o: Options, commentOk: bool): Verdict {
    match Evaluated(checks)
    case Allowed => Merge(ChecksPassed)
    case Refused(reason) =>
      var trimmed := TrimSpace(o.overrideReason);
      if trimmed == "" then Refuse(reason)
      else if commentOk then Merge(Overridden(trimmed))
      else CannotComment
  }

  /** The pull-request gate. */
  function PrVerdict(w: World, o: Options, t: Timing): Verdict {
    if o.overrideSet && TrimSpace(o.overrideReason) == "" then UsageError
    else
      match Wait(w, o.wait, t)
      case Unreadable(_) => CannotRead
      case Waiting => Undecided
      case Ended(i, _) =>
        var checks := if Readable(w, i) then ChecksAt(w, i) else [];
        if |checks| == 0 && o.allowNoChecks && (!o.wait || w.end - w.start >= t.window) then Merge(NoChecksAccepted)
        else JudgeList(checks, o, w.commentOk)
  }

  /** The release gate: no usage check, and no second look at the register window. */
  function ReleaseVerdict(w: World, o: Options, t: Timing): Verdict {
    match Wait(w, o.wait, t)
    case Unreadable(_) => CannotRead
    case Waiting => Undecided
    case Ended(i, _) =>
      var checks := if Readable(w, i) then ChecksAt(w, i) else [];
      if |checks| == 0 && o.allowNoChecks then Merge(NoChecksAccepted) else JudgeList(checks, o, w.commentOk)
  }

  /** The comment an overridden merge leaves. */
  function OverrideComments(v: Verdict): seq<string> {
    match v
    case Merge(Overridden(reason)) => ["override: " + reason]
    case _ => []
  }

  lemma {:induction false} EndedReadable(w: World, i: nat, names: Option<set<string>>, wait: bool, t: Timing)
    ensures WaitFrom(w, i, names, wait, t).Ended? ==> Readable(w, WaitFrom(w, i, names, wait, t).index)
    decreases |w.polls| - i
  {
    if Readable(w, i) {
      EndedReadable(w, i + 1, Some(NameSet(ChecksAt(w, i))), wait, t);
    }
  }

  /** The last list that the wait read, if it ended with one. */
  function LastList(w: World, o: Options, t: Timing): Option<seq<Check>> {
    match Wait(w, o.wait, t)
    case Ended(i, _) => if Readable(w, i) then Some(ChecksAt(w, i)) else None
    case _ => None
  }

  /** Nonempty, and every check passed or was skipped. */
  predicate Green(checks: seq<Check>) {
    checks != [] && forall c :: c in checks ==> c.bucket == "pass" || c.bucket == "skipping"
  }

  /** No checks, which the options accept; the pull-request gate looks at the register window once more. */
  predicate EmptyAccepted(w: World, o: Options, t: Timing, release: bool, checks: seq<Check>) {
    checks == [] && o.allowNoChecks && (release || !o.wait || w.end - w.start >= t.window)
  }

  /** The verdict of either gate. */
  function VerdictOf(w: World, o: Options, t: Timing, release: bool): Verdict {
    if release then ReleaseVerdict(w, o, t) else PrVerdict(w, o, t)
  }

  /** A merge happens in three cases only: the last list is nonempty and all green; it is empty and that is
      accepted; or there is an override and its comment could be written. And in the third case only, whatever
      else the options say, a comment is left, with the given reason. */
  lemma MergeOnlyWhen(w: World, o: Options, t: Timing, release: bool)
    ensures
      var v, last, reason := VerdictOf(w, o, t, release), LastList(w, o, t), TrimSpace(o.overrideReason);
      var excused := last.Some? && (Green(last.value) || EmptyAccepted(w, o, t, release, last.value));
      && (v.Merge? <==>
            && last.Some? && (release || !(o.overrideSet && reason == ""))
            && (excused || (reason != "" && w.commentOk)))
      && OverrideComments(v) == (if v.Merge? && !excused then ["override: " + reason] else [])
      && (v == Merge(NoChecksAccepted) <==> v.Merge? && last.Some? && EmptyAccepted(w, o, t, release, last.value))
      && (v == Merge(ChecksPassed) <==> v.Merge? && last.Some? && Green(last.value))
  {
    EndedReadable(w, 0, None, o.wait, t);
    if Wait(w, o.wait, t).Ended? {
      AllowedIff(ChecksAt(w, Wait(w, o.wait, t).index));
    }
  }

  /** Why there is no merge: a blank override is a usage error of the pull-request gate; checks that cannot be
      read, and a comment that cannot be written, are named; without an override the judgement of the list is. */
  lemma NoMergeWhen(w: World, o: Options, t: Timing, release: bool)
    ensures
      var v, last, reason := VerdictOf(w, o, t, release), LastList(w, o, t), TrimSpace(o.overrideReason);
      !v.Merge? ==>
        if !release && o.overrideSet && reason == "" then v == UsageError
        else if last.Some? then
          if reason != "" then v == CannotComment && !w.commentOk
          else v.Refuse? && Evaluated(last.value) == Refused(v.reason)
        else if Wait(w, o.wait, t).Waiting? then v == Undecided
        else v == CannotRead
  {
    EndedReadable(w, 0, None, o.wait, t);
  }

  /** Without waiting the first poll decides. */
  lemma WithoutWaiting(w: World, t: Timing)
    ensures Wait(w, false, t) ==
      if w.polls == [] then Waiting
      else if w.polls[0].checks.None? then Unreadable(0)
      else Ended(0, false)
  {
  }

  /** A time that is given is kept; otherwise a wait lasts twenty minutes, polls come ten seconds apart, and
      checks have a minute to register. */
  lemma ResolvedTimes(timeout: int, interval: int, window: int)
    ensures
      var t := Resolve(timeout, interval, window);
      && (if timeout > 0 then t.timeout == timeout else t.timeout == 1200)
      && (if interval > 0 then t.interval == interval else t.interval == 10)
      && (if window > 0 then t.window == window else t.window == 60)
  {
  }

  // ----- the two gates compared

  /** A run of the clock that does not go back, up to the reading after the loop. */
  ghost predicate Monotone(w: World) {
    && (|w.polls| > 0 ==> w.polls[0].at >= w.start)
    && (forall i, j :: 0 <= i < j < |w.polls| ==> w.polls[i].at <= w.polls[j].at)
    && (forall i :: 0 <= i < |w.polls| ==> w.polls[i].at <= w.end)
  }

  /** The options under which the release gate is the pull-request gate. */
  predicate GatesAgree(o: Options, t: Timing) {
    !o.wait || !o.allowNoChecks || t.timeout >= t.window
  }

  /** With the same timings and no blank override, the two gates give the same verdict in every world exactly
      when nobody waits, an empty list is not accepted, or the timeout is no shorter than the register window. */
  lemma GatesAgreeIff(o: Options, t: Timing)
    requires t.timeout > 0 && !(o.overrideSet && TrimSpace(o.overrideReason) == "")
    ensures (forall w :: Monotone(w) ==> PrVerdict(w, o, t) == ReleaseVerdict(w, o, t)) <==> GatesAgree(o, t)
  {
    if GatesAgree(o, t) {
      forall w | Monotone(w) ensures PrVerdict(w, o, t) == ReleaseVerdict(w, o, t) {
        SameVerdict(w, o, t);
      }
    } else {
      var w := World(0, [Poll(Some([]), t.timeout)], t.timeout, true, true);
      TimesOutEmpty(w, o, t);
    }
  }

  lemma SameVerdict(w: World, o: Options, t: Timing)
    requires Monotone(w) && GatesAgree(o, t) && !(o.overrideSet && TrimSpace(o.overrideReason) == "")
    ensures PrVerdict(w, o, t) == ReleaseVerdict(w, o, t)
  {
    EndedReadable(w, 0, None, o.wait, t);
    if o.wait {
      WaitMeans(w, 0, t);
    }
  }

  /** One empty poll that times out before the register window: the release gate merges, the other does not. */
  lemma TimesOutEmpty(w: World, o: Options, t: Timing)
    requires !GatesAgree(o, t) && !(o.overrideSet && TrimSpace(o.overrideReason) == "")
    requires |w.polls| == 1 && w.polls[0].checks == Some([]) && w.polls[0].at == w.end == w.start + t.timeout
    ensures ReleaseVerdict(w, o, t) == Merge(NoChecksAccepted) != PrVerdict(w, o, t)
  {
    assert Wait(w, true, t) == Ended(0, true);
    AllowedIff([]);
  }

  // ----- the services

  /** The effects of a merge attempt on the remote host. */
  class Forge {
    var comments: seq<string>
    var merges: nat

    constructor ()
      ensures comments == [] && merges == 0
    {
      comments, merges := [], 0;
    }
  }

  method CheckNameSet(checks: seq<Check>) returns (names: set<string>)
    ensures names == NameSet(checks)
  {
    names := {};
    for i := 0 to |checks|
      invariant names == NameSet(checks[..i])
    {
      assert checks[..i + 1] == checks[..i] + [checks[i]];
      names := names + {checks[i].name};
    }
    assert checks[..|checks|] == checks;
  }

  /** Two sets of equal size are the same when one has no name the other lacks. */
  method SameCheckNameSet(a: set<string>, b: set<string>) returns (same: bool)
    ensures same <==> a == b
  {
    if |a| != |b| {
      return false;
    }
    var rest := a;
    while rest != {}
      invariant rest <= a && a - rest <= b
      decreases |rest|
    {
      var name :| name in rest;
      if name !in b {
        return false;
      }
      rest := rest - {name};
    }
    SubsetOfSameSize(a, b);
    return true;
  }

  lemma SubsetOfSameSize(a: set<string>, b: set<string>)
    requires a <= b && |a| == |b|
    ensures a == b
  {
    assert b == a + (b - a) && |b| == |a| + |b - a|;
  }

  class PrService {
    const timing: Timing
    const forge: Forge

    constructor (timeout: int, interval: int, window: int, forge: Forge)
      ensures timing == Resolve(timeout, interval, window) && this.forge == forge
    {
      this.timing, this.forge := Resolve(timeout, interval, window), forge;
    }

    /** The polling loop of enforceGate. */
    method PollChecks(w: World, wait: bool) returns (r: Waited, last: seq<Check>)
      ensures r == Wait(w, wait, timing)
      ensures r.Ended? ==> Readable(w, r.index) && last == ChecksAt(w, r.index)
    {
      last := [];
      var lastNames: set<string> := {};
      var polled := false;
      var i := 0;
      while i < |w.polls|
        invariant 0 <= i <= |w.polls|
        invariant WaitFrom(w, i, if polled then Some(lastNames) else None, wait, timing) == Wait(w, wait, timing)
      {
        if w.polls[i].checks.None? {
          return Unreadable(i), [];
        }
        last := w.polls[i].checks.value;
        if !wait {
          return Ended(i, false), last;
        }
        var names := CheckNameSet(last);
        var elapsed := w.polls[i].at - w.start;
        var complete := CountPending(last) == 0 && (|last| > 0 || elapsed >= timing.window);
        var same := SameCheckNameSet(lastNames, names);
        var stable := polled && same;
        var firstEmpty := !polled && |last| == 0 && elapsed >= timing.window;
        if complete && (stable || firstEmpty) {
          return Ended(i, false), last;
        }
        lastNames, polled := names, true;
        if elapsed >= timing.timeout {
          return Ended(i, true), last;
        }
        i := i + 1;
      }
      return Waiting, last;
    }

    method EnforceGate(w: World, o: Options) returns (v: Verdict)
      modifies forge`comments
      ensures v == PrVerdict(w, o, timing)
      ensures forge.comments == old(forge.comments) + OverrideComments(v)
    {
      if o.overrideSet && TrimSpace(o.overrideReason) == "" {
        return UsageError;
      }
      var waited, last := PollChecks(w, o.wait);
      if waited.Unreadable? {
        return CannotRead;
      }
      if waited.Waiting? {
        return Undecided;
      }
      if |last| == 0 && o.allowNoChecks && (!o.wait || w.end - w.start >= timing.window) {
        return Merge(NoChecksAccepted);
      }
      var result := EvaluateChecks(last);
      if result.Allowed? {
        return Merge(ChecksPassed);
      }
      var reason := TrimSpace(o.overrideReason);
      if reason != "" {
        if !w.commentOk {
          return CannotComment;
        }
        forge.comments := forge.comments + ["override: " + reason];
        return Merge(Overridden(reason));
      }
      return Refuse(result.reason);
    }

    /** mergeGated: asks the host to merge exactly when the gate allows it. */
    method MergeGated(w: World, o: Options) returns (v: Verdict, merged: bool)
      modifies forge
      ensures v == PrVerdict(w, o, timing)
      ensures merged <==> v.Merge? && w.mergeOk
      ensures forge.merges == old(forge.merges) + (if v.Merge? then 1 else 0)
      ensures forge.comments == old(forge.comments) + OverrideComments(v)
      ensures forge.merges > old(forge.merges) ==>
        var last := LastList(w, o, timing);
        && last.Some?
        && forge.comments == old(forge.comments)
             + if Green(last.value) || EmptyAccepted(w, o, timing, false, last.value) then []
               else ["override: " + TrimSpace(o.overrideReason)]
    {
      MergeOnlyWhen(w, o, timing, false);
      v := EnforceGate(w, o);
      merged := false;
      if v.Merge? {
        forge.merges := forge.merges + 1;
        merged := w.mergeOk;
      }
    }
  }

  class ReleaseService {
    const timing: Timing
    const forge: Forge

    constructor (timeout: int, interval: int, window: int, forge: Forge)
      ensures timing == Resolve(timeout, interval, window) && this.forge == forge
    {
      this.timing, this.forge := Resolve(timeout, interval, window), forge;
    }

    /** The second copy of the loop: the same exits, in the same order. */
    method WaitForChecks(w: World, wait: bool) returns (r: Waited, last: seq<Check>)
      ensures r == Wait(w, wait, timing)
      ensures r.Ended? ==> Readable(w, r.index) && last == ChecksAt(w, r.index)
    {
      last := [];
      var lastNames: set<string> := {};
      var polled := false;
      var i := 0;
      while i < |w.polls|
        invariant 0 <= i <= |w.polls|
        invariant WaitFrom(w, i, if polled then Some(lastNames) else None, wait, timing) == Wait(w, wait, timing)
      {
        if w.polls[i].checks.None? {
          return Unreadable(i), [];
        }
        last := w.polls[i].checks.value;
        if !wait {
          return Ended(i, false), last;
        }
        var names := CheckNameSet(last);
        var elapsed := w.polls[i].at - w.start;
        var complete := CountPending(last) == 0 && (|last| > 0 || elapsed >= timing.window);
        var same := SameCheckNameSet(lastNames, names);
        if complete && ((polled && same) || (!polled && |last| == 0 && elapsed >= timing.window)) {
          return Ended(i, false), last;
        }
        lastNames, polled := names, true;
        if elapsed >= timing.timeout {
          return Ended(i, true), last;
        }
        i := i + 1;
      }
      return Waiting, last;
    }

    method EnforceGate(w: World, o: Options) returns (v: Verdict)
      modifies forge`comments
      ensures v == ReleaseVerdict(w, o, timing)
      ensures forge.comments == old(forge.comments) + OverrideComments(v)
    {
      var waited, checks := WaitForChecks(w, o.wait);
      if waited.Unreadable? {
        return CannotRead;
      }
      if waited.Waiting? {
        return Undecided;
      }
      if |checks| == 0 && o.allowNoChecks {
        return Merge(NoChecksAccepted);
      }
      var evaluation := EvaluateChecks(checks);
      if evaluation.Allowed? {
        return Merge(ChecksPassed);
      }
      var reason := TrimSpace(o.overrideReason);
      if reason != "" {
        if !w.commentOk {
          return CannotComment;
        }
        forge.comments := forge.comments + ["override: " + reason];
        return Merge(Overridden(reason));
      }
      return Refuse(evaluation.reason);
    }
  }
}
