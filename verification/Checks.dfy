/** Judging a list of status checks: pkg/pr/domain/checks.go and CheckState of pkg/release/domain/release.go. */
module Checks {
  import opened Strings

  datatype Check = Check(name: string, bucket: string)

  /** Why a merge is refused; the message wording is left to the command line. */
  datatype Reason =
    | NoChecks | ChecksFailed(names: seq<string>) | StillRunning(names: seq<string>) | UnknownState(check: Check)

  datatype GateResult = Allowed | Refused(reason: Reason)

  predicate Failing(c: Check) { c.bucket == "fail" || c.bucket == "cancel" }

  predicate Pending(c: Check) { c.bucket == "pending" }

  predicate Neutral(c: Check) { c.bucket == "pass" || c.bucket == "skipping" }

  predicate Unknown(c: Check) { !Failing(c) && !Pending(c) && !Neutral(c) }

  /** The names of the checks that satisfy p, in order. */
  function NamesOf(checks: seq<Check>, p: Check -> bool): seq<string> {
    if checks == [] then []
    else
      var last := checks[|checks| - 1];
      NamesOf(checks[..|checks| - 1], p) + if p(last) then [last.name] else []
  }

  lemma {:induction false} NamesOfEmpty(checks: seq<Check>, p: Check -> bool)
    ensures NamesOf(checks, p) == [] <==> forall c :: c in checks ==> !p(c)
  {
    if checks != [] {
      var init, last := checks[..|checks| - 1], checks[|checks| - 1];
      NamesOfEmpty(init, p);
      assert checks == init + [last];
    }
  }

  /** The first check in no known state. */
  function FirstUnknown(checks: seq<Check>): (r: Option<Check>)
    ensures r.None? <==> forall c :: c in checks ==> !Unknown(c)
    ensures r.Some? ==> r.value in checks && Unknown(r.value)
  {
    if checks == [] then None
    else if Unknown(checks[0]) then Some(checks[0])
    else
      assert checks == [checks[0]] + checks[1..];
      FirstUnknown(checks[1..])
  }

  lemma {:induction false} FirstUnknownSnoc(checks: seq<Check>, c: Check)
    ensures FirstUnknown(checks + [c]) ==
      if FirstUnknown(checks).Some? then FirstUnknown(checks) else if Unknown(c) then Some(c) else None
  {
    if checks == [] {
      assert checks + [c] == [c];
      assert FirstUnknown([c][1..]) == None;
    } else {
      assert (checks + [c])[1..] == checks[1..] + [c];
      FirstUnknownSnoc(checks[1..], c);
    }
  }

  /** Refused for the empty list first, then for failures, then for pending checks, then for unknown states. */
  function Evaluated(checks: seq<Check>): GateResult {
    var failed, pending := NamesOf(checks, Failing), NamesOf(checks, Pending);
    if checks == [] then Refused(NoChecks)
    else if failed != [] then Refused(ChecksFailed(failed))
    else if pending != [] then Refused(StillRunning(pending))
    else
      match FirstUnknown(checks)
      case Some(c) => Refused(UnknownState(c))
      case None => Allowed
  }

  method EvaluateChecks(checks: seq<Check>) returns (r: GateResult)
    ensures r == Evaluated(checks)
  {
    if |checks| == 0 {
      return Refused(NoChecks);
    }
    var failed: seq<string> := [];
    var pending: seq<string> := [];
    var unknown: Option<Check> := None;
    for i := 0 to |checks|
      invariant failed == NamesOf(checks[..i], Failing)
      invariant pending == NamesOf(checks[..i], Pending)
      invariant unknown == FirstUnknown(checks[..i])
    {
      var c := checks[i];
      assert checks[..i + 1] == checks[..i] + [c];
      FirstUnknownSnoc(checks[..i], c);
      if c.bucket == "fail" || c.bucket == "cancel" {
        failed := failed + [c.name];
      } else if c.bucket == "pending" {
        pending := pending + [c.name];
      } else if c.bucket != "pass" && c.bucket != "skipping" && unknown == None {
        unknown := Some(c);
      }
    }
    assert checks[..|checks|] == checks;
    if |failed| > 0 {
      return Refused(ChecksFailed(failed));
    }
    if |pending| > 0 {
      return Refused(StillRunning(pending));
    }
    if unknown.Some? {
      return Refused(UnknownState(unknown.value));
    }
    return Allowed;
  }

  /** Allowed exactly for a nonempty list in which every check passed or was skipped. */
  lemma AllowedIff(checks: seq<Check>)
    ensures Evaluated(checks) == Allowed <==> checks != [] && forall c :: c in checks ==> Neutral(c)
  {
    NamesOfEmpty(checks, Failing);
    NamesOfEmpty(checks, Pending);
  }

  /** Why a list is refused: it is empty; else some checks failed or were cancelled, and all of them are named; else
      some are pending, and all of them are named; else one is in no known state, and the first such is shown. */
  lemma RefusedWhy(checks: seq<Check>)
    ensures
      var r := Evaluated(checks);
      if checks == [] then r == Refused(NoChecks)
      else if exists c :: c in checks && (c.bucket == "fail" || c.bucket == "cancel") then
        && r.Refused? && r.reason.ChecksFailed?
        && NamesThese(r.reason.names, checks, (c: Check) => c.bucket == "fail" || c.bucket == "cancel")
      else if exists c :: c in checks && c.bucket == "pending" then
        r.Refused? && r.reason.StillRunning? && NamesThese(r.reason.names, checks, (c: Check) => c.bucket == "pending")
      else if exists c :: c in checks && c.bucket != "pass" && c.bucket != "skipping" then
        && r.Refused? && r.reason.UnknownState?
        && IsFirst(r.reason.check, checks, (c: Check) => c.bucket != "pass" && c.bucket != "skipping")
      else r == Allowed
  {
    NamesOfEmpty(checks, Failing);
    NamesOfEmpty(checks, Pending);
    NamesOfThese(checks, Failing, (c: Check) => c.bucket == "fail" || c.bucket == "cancel");
    NamesOfThese(checks, Pending, (c: Check) => c.bucket == "pending");
    if forall c :: c in checks ==> c.bucket != "fail" && c.bucket != "cancel" && c.bucket != "pending" {
      FirstUnknownIs(checks);
    }
  }

  /** The names are those of the checks with the property, in order. */
  ghost predicate NamesThese(names: seq<string>, checks: seq<Check>, p: Check -> bool) {
    if checks == [] then names == []
    else
      var init, last := checks[..|checks| - 1], checks[|checks| - 1];
      if p(last) then names != [] && names[|names| - 1] == last.name && NamesThese(names[..|names| - 1], init, p)
      else NamesThese(names, init, p)
  }

  ghost predicate IsFirst(c: Check, checks: seq<Check>, p: Check -> bool) {
    exists i :: 0 <= i < |checks| && c == checks[i] && p(c) && forall j :: 0 <= j < i ==> !p(checks[j])
  }

  lemma {:induction false} NamesOfThese(checks: seq<Check>, p: Check -> bool, q: Check -> bool)
    requires forall c :: p(c) <==> q(c)
    ensures NamesThese(NamesOf(checks, p), checks, q)
  {
    if checks != [] {
      var init, last := checks[..|checks| - 1], checks[|checks| - 1];
      NamesOfThese(init, p, q);
      assert NamesOf(init, p) + [] == NamesOf(init, p);
      assert (NamesOf(init, p) + [last.name])[..|NamesOf(init, p)|] == NamesOf(init, p);
    }
  }

  lemma {:induction false} FirstUnknownIs(checks: seq<Check>)
    requires forall c :: c in checks ==> c.bucket != "fail" && c.bucket != "cancel" && c.bucket != "pending"
    ensures FirstUnknown(checks).Some? ==>
      IsFirst(FirstUnknown(checks).value, checks, (c: Check) => c.bucket != "pass" && c.bucket != "skipping")
  {
    if checks != [] {
      var rest := checks[1..];
      assert checks == [checks[0]] + rest && checks[0] in checks;
      if Neutral(checks[0]) {
        FirstUnknownIs(rest);
        if FirstUnknown(rest).Some? {
          FirstLater(FirstUnknown(rest).value, checks, (c: Check) => c.bucket != "pass" && c.bucket != "skipping");
        }
      }
    }
  }

  lemma FirstLater(c: Check, checks: seq<Check>, p: Check -> bool)
    requires checks != [] && !p(checks[0]) && IsFirst(c, checks[1..], p)
    ensures IsFirst(c, checks, p)
  {
    var rest := checks[1..];
    var i :| 0 <= i < |rest| && c == rest[i] && p(c) && forall j :: 0 <= j < i ==> !p(rest[j]);
    assert forall j :: 0 < j < i + 1 ==> checks[j] == rest[j - 1];
    assert checks[i + 1] == rest[i];
  }

  /** CheckState of the release commands, which stops at the first failure. */
  method CheckState(checks: seq<Check>) returns (state: string)
    ensures state == Summary(Evaluated(checks))
  {
    if |checks| == 0 {
      return "none";
    }
    NamesOfEmpty(checks, Failing);
    NamesOfEmpty(checks, Pending);
    var pending := false;
    var unknown := false;
    for i := 0 to |checks|
      invariant forall j :: 0 <= j < i ==> !Failing(checks[j])
      invariant pending <==> exists j :: 0 <= j < i && Pending(checks[j])
      invariant unknown <==> exists j :: 0 <= j < i && Unknown(checks[j])
    {
      var bucket := checks[i].bucket;
      if bucket == "fail" || bucket == "cancel" {
        assert checks[i] in checks && Failing(checks[i]);
        return "fail";
      } else if bucket == "pending" {
        pending := true;
      } else if bucket != "pass" && bucket != "skipping" {
        unknown := true;
      }
    }
    if pending {
      return "pending";
    }
    if unknown {
      return "unknown";
    }
    return "pass";
  }

  /** The release summary of a gate result. */
  function Summary(r: GateResult): string {
    match r
    case Allowed => "pass"
    case Refused(NoChecks) => "none"
    case Refused(ChecksFailed(_)) => "fail"
    case Refused(StillRunning(_)) => "pending"
    case Refused(UnknownState(_)) => "unknown"
  }

  /** The state of a list: none for the empty one; else the worst of its checks, where a failure comes first, then a
      pending check, then one in no known state. */
  lemma StateMeans(checks: seq<Check>)
    ensures
      var state := Summary(Evaluated(checks));
      if checks == [] then state == "none"
      else if exists c :: c in checks && (c.bucket == "fail" || c.bucket == "cancel") then state == "fail"
      else if exists c :: c in checks && c.bucket == "pending" then state == "pending"
      else if exists c :: c in checks && c.bucket != "pass" && c.bucket != "skipping" then state == "unknown"
      else state == "pass"
  {
    RefusedWhy(checks);
  }
}
