/** Audit reports: merging and exit codes of pkg/audit/domain/audit.go, accepted messages of
    pkg/audit/domain/accepted.go, and the merged run of pkg/audit/application/service.go. */
module AuditReport {
  import opened Strings

  datatype Severity = Error | Warn | Info

  datatype Finding = Finding(
    id: string, severity: Severity, subject: string, expected: string, actual: string, fix: string)

  datatype Accepted = Accepted(check: string, message: string, reason: string, until: string)

  datatype Report = Report(findings: seq<Finding>, unverified: seq<string>, accepted: seq<Accepted>)

  const NEW_REPORT := Report([], [], [])

  const CLONE_BEHIND := "clone.behind"

  predicate ErrorIn(findings: seq<Finding>) {
    exists i :: 0 <= i < |findings| && findings[i].severity == Error
  }

  predicate HasErrors(r: Report) {
    ErrorIn(r.findings)
  }

  function ExitCode(r: Report): nat {
    if HasErrors(r) then 1 else if |r.unverified| > 0 then 2 else 0
  }

  // ----- merging

  function WithUnverified(list: seq<string>, message: string): seq<string> {
    var m := TrimSpace(message);
    if m == "" || m in list then list else list + [m]
  }

  function WithAllUnverified(list: seq<string>, messages: seq<string>): seq<string>
    decreases |messages|
  {
    if messages == [] then list else WithAllUnverified(WithUnverified(list, messages[0]), messages[1..])
  }

  function WithAccepted(list: seq<Accepted>, item: Accepted): seq<Accepted> {
    if exists i :: 0 <= i < |list| && list[i].check == item.check && list[i].message == item.message then list
    else list + [item]
  }

  function WithAllAccepted(list: seq<Accepted>, items: seq<Accepted>): seq<Accepted>
    decreases |items|
  {
    if items == [] then list else WithAllAccepted(WithAccepted(list, items[0]), items[1..])
  }

  predicate Seen(findings: seq<Finding>, subject: string) {
    exists i :: 0 <= i < |findings| && findings[i].id == CLONE_BEHIND && findings[i].subject == subject
  }

  /** What a merge takes over: all findings but a clone that is behind and was reported behind before. */
  function TakenOver(have: seq<Finding>, more: seq<Finding>): seq<Finding>
    decreases |more|
  {
    if more == [] then []
    else
      var rest, last := TakenOver(have, more[..|more| - 1]), more[|more| - 1];
      if last.id == CLONE_BEHIND && Seen(have, last.subject) then rest else rest + [last]
  }

  function Merged(r: Report, other: Report): Report {
    Report(r.findings + TakenOver(r.findings, other.findings),
           WithAllUnverified(r.unverified, other.unverified),
           WithAllAccepted(r.accepted, other.accepted))
  }

  function MergedAll(reports: seq<Report>): Report {
    if reports == [] then NEW_REPORT
    else Merged(MergedAll(reports[..|reports| - 1]), reports[|reports| - 1])
  }

  lemma {:induction false} TakenIn(have: seq<Finding>, more: seq<Finding>, f: Finding)
    ensures f in TakenOver(have, more) <==> f in more && !(f.id == CLONE_BEHIND && Seen(have, f.subject))
    decreases |more|
  {
    if more != [] {
      var init, last := more[..|more| - 1], more[|more| - 1];
      assert more == init + [last];
      TakenIn(have, init, f);
    }
  }

  lemma SeenConcat(a: seq<Finding>, b: seq<Finding>, s: string)
    ensures Seen(a + b, s) <==> Seen(a, s) || Seen(b, s)
  {
    var all := a + b;
    assert forall i :: 0 <= i < |a| ==> all[i] == a[i];
    assert forall j :: 0 <= j < |b| ==> all[|a| + j] == b[j];
    if Seen(b, s) {
      var j :| 0 <= j < |b| && b[j].id == CLONE_BEHIND && b[j].subject == s;
      assert all[|a| + j].subject == s;
    }
    if Seen(a, s) {
      var i :| 0 <= i < |a| && a[i].id == CLONE_BEHIND && a[i].subject == s;
      assert all[i].subject == s;
    }
  }

  lemma {:induction false} TakenOverSeen(have: seq<Finding>, more: seq<Finding>, s: string)
    ensures Seen(have, s) || Seen(TakenOver(have, more), s) <==> Seen(have, s) || Seen(more, s)
    decreases |more|
  {
    if more != [] {
      var init, last := more[..|more| - 1], more[|more| - 1];
      assert more == init + [last] && [last][0] == last;
      TakenOverSeen(have, init, s);
      SeenConcat(init, [last], s);
      SeenConcat(TakenOver(have, init), [last], s);
    }
  }

  /** The report calls this clone behind. */
  ghost predicate CallsBehind(r: Report, s: string) {
    exists f :: f in r.findings && f.id == "clone.behind" && f.subject == s
  }

  lemma CallsBehindIff(r: Report, s: string)
    ensures Seen(r.findings, s) <==> CallsBehind(r, s)
  {
    if f :| f in r.findings && f.id == "clone.behind" && f.subject == s {
      var i :| 0 <= i < |r.findings| && r.findings[i] == f;
    }
  }

  /** Some report says that this clone is behind. */
  ghost predicate SeenIn(reports: seq<Report>, s: string) {
    exists i :: 0 <= i < |reports| && CallsBehind(reports[i], s)
  }

  lemma SeenInLast(init: seq<Report>, last: Report, s: string)
    ensures SeenIn(init + [last], s) <==> SeenIn(init, s) || CallsBehind(last, s)
  {
    var all := init + [last];
    assert all[|init|] == last;
    assert forall i :: 0 <= i < |init| ==> all[i] == init[i];
    if SeenIn(init, s) {
      var i :| 0 <= i < |init| && CallsBehind(init[i], s);
      assert CallsBehind(all[i], s);
    }
  }

  lemma {:induction false} MergedAllSeen(reports: seq<Report>, s: string)
    ensures Seen(MergedAll(reports).findings, s) <==> SeenIn(reports, s)
  {
    if reports != [] {
      var n := |reports| - 1;
      var before := MergedAll(reports[..n]);
      MergedAllSeen(reports[..n], s);
      TakenOverSeen(before.findings, reports[n].findings, s);
      SeenConcat(before.findings, TakenOver(before.findings, reports[n].findings), s);
      CallsBehindIff(reports[n], s);
      SeenInLast(reports[..n], reports[n], s);
      assert reports == reports[..n] + [reports[n]];
    }
  }

  /** A finding of r that is kept when r is merged after these reports. */
  ghost predicate Kept(before: seq<Report>, r: Report, f: Finding) {
    f in r.findings && !(f.id == "clone.behind" && SeenIn(before, f.subject))
  }

  ghost predicate KeptIn(reports: seq<Report>, f: Finding) {
    exists i :: 0 <= i < |reports| && Kept(reports[..i], reports[i], f)
  }

  lemma KeptInLast(reports: seq<Report>, f: Finding)
    requires reports != []
    ensures
      var n := |reports| - 1;
      KeptIn(reports, f) <==> KeptIn(reports[..n], f) || Kept(reports[..n], reports[n], f)
  {
    var n := |reports| - 1;
    var init := reports[..n];
    assert forall i :: 0 <= i < n ==> init[..i] == reports[..i] && init[i] == reports[i];
    if KeptIn(init, f) {
      var i :| 0 <= i < n && Kept(init[..i], init[i], f);
      assert Kept(reports[..i], reports[i], f);
    }
  }

  /** The findings of a merged run: those of its parts, but for the behind clones that an earlier part called
      behind. */
  lemma {:induction false} MergedFindings(reports: seq<Report>, f: Finding)
    ensures f in MergedAll(reports).findings <==> KeptIn(reports, f)
  {
    if reports != [] {
      var n := |reports| - 1;
      MergedFindings(reports[..n], f);
      TakenIn(MergedAll(reports[..n]).findings, reports[n].findings, f);
      MergedAllSeen(reports[..n], f.subject);
      KeptInLast(reports, f);
    }
  }

  // ----- which errors are kept

  /** The ERRORs, in order. */
  function ErrorsOf(findings: seq<Finding>): seq<Finding> {
    if findings == [] then []
    else
      var last := findings[|findings| - 1];
      ErrorsOf(findings[..|findings| - 1]) + if last.severity == Error then [last] else []
  }

  function AllErrors(reports: seq<Report>): seq<Finding> {
    if reports == [] then []
    else AllErrors(reports[..|reports| - 1]) + ErrorsOf(reports[|reports| - 1].findings)
  }

  lemma {:induction false} ErrorsConcat(a: seq<Finding>, b: seq<Finding>)
    ensures ErrorsOf(a + b) == ErrorsOf(a) + ErrorsOf(b)
  {
    if b == [] {
      assert a + b == a;
    } else {
      assert (a + b)[..|a + b| - 1] == a + b[..|b| - 1];
      ErrorsConcat(a, b[..|b| - 1]);
    }
  }

  /** No ERROR is about a clone that was called behind before. */
  ghost predicate NoneBehind(have: seq<Finding>, more: seq<Finding>) {
    forall f :: f in more && f.severity == Error && f.id == CLONE_BEHIND ==> !Seen(have, f.subject)
  }

  lemma NoneBehindLast(have: seq<Finding>, init: seq<Finding>, last: Finding)
    ensures NoneBehind(have, init + [last]) <==>
      NoneBehind(have, init) && (last.severity == Error && last.id == CLONE_BEHIND ==> !Seen(have, last.subject))
  {
    var all := init + [last];
    assert all[|init|] == last;
    assert forall f :: f in init ==> f in all;
  }

  lemma {:induction false} TakenErrors(have: seq<Finding>, more: seq<Finding>)
    ensures
      var kept, all := ErrorsOf(TakenOver(have, more)), ErrorsOf(more);
      if NoneBehind(have, more) then kept == all else |kept| < |all|
    decreases |more|
  {
    if more != [] {
      var init, last := more[..|more| - 1], more[|more| - 1];
      assert more == init + [last];
      TakenErrors(have, init);
      NoneBehindLast(have, init, last);
      assert (TakenOver(have, init) + [last])[..|TakenOver(have, init)|] == TakenOver(have, init);
    }
  }

  ghost predicate AllNew(before: seq<Report>, r: Report) {
    forall f :: f in r.findings && f.severity == Error && f.id == "clone.behind" ==> !SeenIn(before, f.subject)
  }

  ghost predicate EveryErrorNew(reports: seq<Report>) {
    forall i :: 0 <= i < |reports| ==> AllNew(reports[..i], reports[i])
  }

  lemma EveryErrorNewLast(reports: seq<Report>)
    requires reports != []
    ensures
      var n := |reports| - 1;
      EveryErrorNew(reports) <==> EveryErrorNew(reports[..n]) && AllNew(reports[..n], reports[n])
  {
    var n := |reports| - 1;
    var init := reports[..n];
    assert forall i :: 0 <= i < n ==> init[..i] == reports[..i] && init[i] == reports[i];
    if EveryErrorNew(reports) {
      forall i | 0 <= i < n ensures AllNew(init[..i], init[i]) {
        assert AllNew(reports[..i], reports[i]);
      }
    }
    if EveryErrorNew(init) && AllNew(reports[..n], reports[n]) {
      forall i | 0 <= i <= n ensures AllNew(reports[..i], reports[i]) {
        assert i < n ==> AllNew(init[..i], init[i]);
      }
    }
  }

  lemma AllNewIff(before: seq<Report>, r: Report)
    ensures AllNew(before, r) <==> NoneBehind(MergedAll(before).findings, r.findings)
  {
    forall s ensures Seen(MergedAll(before).findings, s) <==> SeenIn(before, s) {
      MergedAllSeen(before, s);
    }
  }

  lemma {:induction false} MergedErrors(reports: seq<Report>)
    ensures
      var kept, all := ErrorsOf(MergedAll(reports).findings), AllErrors(reports);
      if EveryErrorNew(reports) then kept == all else |kept| < |all|
  {
    if reports != [] {
      var n := |reports| - 1;
      var before := MergedAll(reports[..n]).findings;
      MergedErrors(reports[..n]);
      TakenErrors(before, reports[n].findings);
      ErrorsConcat(before, TakenOver(before, reports[n].findings));
      AllNewIff(reports[..n], reports[n]);
      EveryErrorNewLast(reports);
    }
  }

  /** A merged run keeps every ERROR of its parts, each as often as it comes and in order, exactly when none of
      them is about a clone that an earlier part already called behind. */
  lemma EveryErrorKeptIff(reports: seq<Report>)
    ensures ErrorsOf(MergedAll(reports).findings) == AllErrors(reports) <==> EveryErrorNew(reports)
  {
    MergedErrors(reports);
  }

  /** The findings of the first report that calls a clone behind. */
  ghost function FirstBehind(reports: seq<Report>, s: string): seq<Finding> {
    if reports == [] then []
    else
      var n := |reports| - 1;
      if SeenIn(reports[..n], s) then FirstBehind(reports[..n], s)
      else if CallsBehind(reports[n], s) then reports[n].findings
      else []
  }

  lemma {:induction false} KeptBehind(reports: seq<Report>, f: Finding)
    requires f.id == "clone.behind"
    ensures KeptIn(reports, f) <==> f in FirstBehind(reports, f.subject)
  {
    if reports != [] {
      var n := |reports| - 1;
      KeptBehind(reports[..n], f);
      KeptInLast(reports, f);
      if KeptIn(reports[..n], f) {
        KeptIsSeen(reports[..n], f);
      }
    }
  }

  lemma KeptIsSeen(reports: seq<Report>, f: Finding)
    requires f.id == "clone.behind" && KeptIn(reports, f)
    ensures SeenIn(reports, f.subject)
  {
    var i :| 0 <= i < |reports| && Kept(reports[..i], reports[i], f);
    assert CallsBehind(reports[i], f.subject);
  }

  /** A finding that some part has and the merged run does not. */
  ghost predicate Lost(reports: seq<Report>, f: Finding) {
    (exists i :: 0 <= i < |reports| && f in reports[i].findings) && f !in MergedAll(reports).findings
  }

  /** A finding vanishes altogether exactly when it is about a behind clone and the first part that calls that
      clone behind says something else of it. */
  lemma {:induction false} LostIff(reports: seq<Report>, f: Finding)
    ensures Lost(reports, f) <==>
      && (exists i :: 0 <= i < |reports| && f in reports[i].findings)
      && f.id == "clone.behind" && f !in FirstBehind(reports, f.subject)
  {
    MergedFindings(reports, f);
    if f.id == "clone.behind" {
      KeptBehind(reports, f);
    } else {
      forall i | 0 <= i < |reports| && f in reports[i].findings ensures KeptIn(reports, f) {
        assert Kept(reports[..i], reports[i], f);
      }
    }
  }

  /** An ERROR among the findings that are kept. */
  ghost predicate AnyNewError(reports: seq<Report>) {
    exists f :: KeptIn(reports, f) && f.severity == Error
  }

  /** So a merged run has an ERROR exactly when one of those that are kept is an ERROR. */
  lemma {:induction false} MergedAllErrors(reports: seq<Report>)
    ensures HasErrors(MergedAll(reports)) <==> AnyNewError(reports)
  {
    var merged := MergedAll(reports).findings;
    if HasErrors(MergedAll(reports)) {
      var i :| 0 <= i < |merged| && merged[i].severity == Error;
      MergedFindings(reports, merged[i]);
    }
    if AnyNewError(reports) {
      var f :| KeptIn(reports, f) && f.severity == Error;
      MergedFindings(reports, f);
    }
  }

  /** A clone that is behind is never an ERROR. */
  predicate BehindIsNoError(r: Report) {
    forall i :: 0 <= i < |r.findings| && r.findings[i].id == "clone.behind" ==> r.findings[i].severity != Error
  }

  ghost predicate AnyErrors(reports: seq<Report>) {
    exists i :: 0 <= i < |reports| && HasErrors(reports[i])
  }

  /** So every ERROR is kept as long as no clone.behind finding is one. */
  lemma {:induction false} NoErrorLost(reports: seq<Report>)
    requires forall i :: 0 <= i < |reports| ==> BehindIsNoError(reports[i])
    ensures ErrorsOf(MergedAll(reports).findings) == AllErrors(reports)
    ensures HasErrors(MergedAll(reports)) <==> AnyErrors(reports)
  {
    forall i | 0 <= i < |reports| ensures AllNew(reports[..i], reports[i]) {
      assert BehindIsNoError(reports[i]);
    }
    EveryErrorKeptIff(reports);
    MergedAllErrors(reports);
    if AnyNewError(reports) {
      var f :| KeptIn(reports, f) && f.severity == Error;
      var i :| 0 <= i < |reports| && Kept(reports[..i], reports[i], f);
      assert HasErrors(reports[i]);
    }
    if AnyErrors(reports) {
      var i :| 0 <= i < |reports| && HasErrors(reports[i]);
      var j :| 0 <= j < |reports[i].findings| && reports[i].findings[j].severity == Error;
      assert Kept(reports[..i], reports[i], reports[i].findings[j]);
    }
  }

  /** One can be lost: an ERROR about a clone that was already reported behind is dropped. */
  lemma ErrorCanBeLost(warning: Finding, failure: Finding)
    requires warning.id == failure.id == "clone.behind" && warning.subject == failure.subject
    requires warning.severity == Warn && failure.severity == Error
    ensures
      var first, second := Report([warning], [], []), Report([failure], [], []);
      HasErrors(second) && ExitCode(MergedAll([first, second])) == 0
  {
    var first, second := Report([warning], [], []), Report([failure], [], []);
    assert second.findings[0] == failure;
    PairMerged(first, second);
    TakenAlone([], warning);
    assert [] + [warning] == [warning] && [warning][0] == warning;
    TakenAlone([warning], failure);
    assert Merged(NEW_REPORT, first) == first;
    assert Merged(first, second) == Report([warning] + [], [], []);
  }

  lemma TakenAlone(have: seq<Finding>, f: Finding)
    ensures TakenOver(have, [f]) == if f.id == "clone.behind" && Seen(have, f.subject) then [] else [f]
  {
    assert [f][..0] == [] && [] + [f] == [f];
  }

  lemma PairMerged(a: Report, b: Report)
    ensures MergedAll([a, b]) == Merged(Merged(NEW_REPORT, a), b)
  {
    assert [a, b][..1] == [a] && [a][..0] == [];
    assert MergedAll([a]) == Merged(MergedAll([]), a);
  }

  /** Whether a list of messages holds this one, once trimmed. */
  predicate Mentions(messages: seq<string>, m: string) {
    m != "" && exists i :: 0 <= i < |messages| && TrimSpace(messages[i]) == m
  }

  lemma {:induction false} WithAllUnverifiedIs(list: seq<string>, messages: seq<string>, m: string)
    requires Distinct(list)
    ensures Distinct(WithAllUnverified(list, messages)) && list <= WithAllUnverified(list, messages)
    ensures m in WithAllUnverified(list, messages) <==> m in list || Mentions(messages, m)
    decreases |messages|
  {
    if messages != [] {
      var rest := messages[1..];
      assert forall i :: 0 <= i < |rest| ==> rest[i] == messages[i + 1];
      var next := WithUnverified(list, messages[0]);
      WithAllUnverifiedIs(next, rest, m);
      assert m in next <==> m in list || (m != "" && TrimSpace(messages[0]) == m);
      MentionsStep(messages, m);
    }
  }

  lemma MentionsStep(messages: seq<string>, m: string)
    requires messages != []
    ensures Mentions(messages, m) <==> (m != "" && TrimSpace(messages[0]) == m) || Mentions(messages[1..], m)
  {
    var rest := messages[1..];
    if Mentions(messages, m) {
      var i :| 0 <= i < |messages| && TrimSpace(messages[i]) == m;
      assert i > 0 ==> rest[i - 1] == messages[i];
    }
    if Mentions(rest, m) {
      var j :| 0 <= j < |rest| && TrimSpace(rest[j]) == m;
      assert messages[j + 1] == rest[j];
    }
  }

  /** Some report has this message, once trimmed. */
  ghost predicate MentionedIn(reports: seq<Report>, m: string) {
    exists i :: 0 <= i < |reports| && Mentions(reports[i].unverified, m)
  }

  lemma MentionedInLast(init: seq<Report>, last: Report, m: string)
    ensures MentionedIn(init + [last], m) <==> MentionedIn(init, m) || Mentions(last.unverified, m)
  {
    var all := init + [last];
    assert all[|init|] == last;
    assert forall i :: 0 <= i < |init| ==> all[i] == init[i];
    if MentionedIn(init, m) {
      var i :| 0 <= i < |init| && Mentions(init[i].unverified, m);
      assert Mentions(all[i].unverified, m);
    }
  }

  /** The unverified messages of a merged run: those of its parts, trimmed, none blank, each once. */
  lemma {:induction false} MergedAllUnverified(reports: seq<Report>, m: string)
    ensures Distinct(MergedAll(reports).unverified)
    ensures m in MergedAll(reports).unverified <==> MentionedIn(reports, m)
  {
    if reports != [] {
      var n := |reports| - 1;
      MergedAllUnverified(reports[..n], m);
      WithAllUnverifiedIs(MergedAll(reports[..n]).unverified, reports[n].unverified, m);
      MentionedInLast(reports[..n], reports[n], m);
      assert reports == reports[..n] + [reports[n]];
    }
  }

  lemma {:induction false} UnverifiedGrow(list: seq<string>, messages: seq<string>)
    ensures list <= WithAllUnverified(list, messages)
    decreases |messages|
  {
    if messages != [] {
      UnverifiedGrow(WithUnverified(list, messages[0]), messages[1..]);
    }
  }

  lemma {:induction false} AcceptedGrow(list: seq<Accepted>, items: seq<Accepted>)
    ensures list <= WithAllAccepted(list, items)
    decreases |items|
  {
    if items != [] {
      AcceptedGrow(WithAccepted(list, items[0]), items[1..]);
    }
  }

  /** A merge only ever appends to what the report has. */
  lemma MergeAppends(r: Report, other: Report)
    ensures
      var after := Merged(r, other);
      r.findings <= after.findings && r.unverified <= after.unverified && r.accepted <= after.accepted
  {
    UnverifiedGrow(r.unverified, other.unverified);
    AcceptedGrow(r.accepted, other.accepted);
  }

  // ----- the accepted messages of a merged run

  predicate SamePair(a: Accepted, b: Accepted) {
    a.check == b.check && a.message == b.message
  }

  /** The item is in the list, and the first there with its check and its message. */
  ghost predicate FirstOfPair(items: seq<Accepted>, a: Accepted) {
    exists i :: 0 <= i < |items| && items[i] == a && forall j :: 0 <= j < i ==> !SamePair(items[j], a)
  }

  predicate NoPairTwice(items: seq<Accepted>) {
    forall i, j :: 0 <= i < j < |items| ==> !SamePair(items[i], items[j])
  }

  lemma {:induction false} AcceptedLast(list: seq<Accepted>, items: seq<Accepted>)
    requires items != []
    ensures WithAllAccepted(list, items) ==
      WithAccepted(WithAllAccepted(list, items[..|items| - 1]), items[|items| - 1])
    decreases |items|
  {
    if |items| > 1 {
      AcceptedLast(WithAccepted(list, items[0]), items[1..]);
      assert items[1..][..|items| - 2] == items[..|items| - 1][1..];
    }
  }

  lemma {:induction false} AcceptedTwice(list: seq<Accepted>, a: seq<Accepted>, b: seq<Accepted>)
    ensures WithAllAccepted(WithAllAccepted(list, a), b) == WithAllAccepted(list, a + b)
    decreases |a|
  {
    if a == [] {
      assert a + b == b;
    } else {
      assert (a + b)[1..] == a[1..] + b;
      AcceptedTwice(WithAccepted(list, a[0]), a[1..], b);
    }
  }

  lemma FirstOfPairLast(items: seq<Accepted>, last: Accepted, a: Accepted)
    ensures FirstOfPair(items + [last], a) <==>
      FirstOfPair(items, a) || (a == last && forall j :: 0 <= j < |items| ==> !SamePair(items[j], a))
  {
    var all := items + [last];
    assert all[|items|] == last && forall i :: 0 <= i < |items| ==> all[i] == items[i];
    if FirstOfPair(items, a) {
      var i :| 0 <= i < |items| && items[i] == a && forall j :: 0 <= j < i ==> !SamePair(items[j], a);
      assert all[i] == a;
    }
  }

  /** Some item has this check and message, and the first such stands for them. */
  lemma {:induction false} PairHasFirst(items: seq<Accepted>, a: Accepted, k: nat) returns (first: Accepted)
    requires k < |items| && SamePair(items[k], a)
    ensures FirstOfPair(items, first) && SamePair(first, a)
  {
    if j :| 0 <= j < k && SamePair(items[j], a) {
      first := PairHasFirst(items, a, j);
    } else {
      first := items[k];
    }
  }

  lemma {:induction false} AcceptedOnce(items: seq<Accepted>)
    ensures NoPairTwice(WithAllAccepted([], items))
    ensures forall a :: a in WithAllAccepted([], items) <==> FirstOfPair(items, a)
    decreases |items|
  {
    if items != [] {
      var init, last := items[..|items| - 1], items[|items| - 1];
      var before := WithAllAccepted([], init);
      AcceptedOnce(init);
      AcceptedLast([], items);
      assert items == init + [last];
      var known := exists j :: 0 <= j < |init| && SamePair(init[j], last);
      assert known <==> exists i :: 0 <= i < |before| && SamePair(before[i], last) by {
        if j :| 0 <= j < |init| && SamePair(init[j], last) {
          var first := PairHasFirst(init, last, j);
          assert first in before;
        }
        if i :| 0 <= i < |before| && SamePair(before[i], last) {
          assert before[i] in before;
        }
      }
      forall a ensures a in WithAllAccepted([], items) <==> FirstOfPair(items, a) {
        FirstOfPairLast(init, last, a);
      }
    }
  }

  function AllAccepted(reports: seq<Report>): seq<Accepted> {
    if reports == [] then [] else AllAccepted(reports[..|reports| - 1]) + reports[|reports| - 1].accepted
  }

  lemma {:induction false} MergedIsAll(reports: seq<Report>)
    ensures MergedAll(reports).accepted == WithAllAccepted([], AllAccepted(reports))
  {
    if reports != [] {
      var n := |reports| - 1;
      MergedIsAll(reports[..n]);
      AcceptedTwice([], AllAccepted(reports[..n]), reports[n].accepted);
    }
  }

  /** The accepted messages of a merged run: of those of its parts with one check and one message the first, and no
      check and message twice. */
  lemma MergedAllAccepted(reports: seq<Report>)
    ensures NoPairTwice(MergedAll(reports).accepted)
    ensures forall a :: a in MergedAll(reports).accepted <==> FirstOfPair(AllAccepted(reports), a)
  {
    MergedIsAll(reports);
    AcceptedOnce(AllAccepted(reports));
  }

  ghost predicate AnyMention(reports: seq<Report>) {
    exists m :: MentionedIn(reports, m)
  }

  /** A merged run exits 1 exactly when some part has an ERROR that is not lost, and otherwise 2 exactly when some
      part still has a message that is not blank. */
  lemma ExitCodeIff(reports: seq<Report>)
    ensures ExitCode(MergedAll(reports)) ==
      if AnyNewError(reports) then 1 else if AnyMention(reports) then 2 else 0
  {
    MergedAllErrors(reports);
    var unverified := MergedAll(reports).unverified;
    if |unverified| > 0 {
      MergedAllUnverified(reports, unverified[0]);
      assert unverified[0] in unverified;
    }
    forall m | MentionedIn(reports, m) ensures |unverified| > 0 {
      MergedAllUnverified(reports, m);
    }
  }

  // ----- accepted messages

  datatype Entry = Entry(check: string, pattern: string, reason: string, until: string)

  /** Library code: letter case folding, and whether a text is a date of the form 2006-01-02. */
  datatype Library = Library(fold: string -> string, isDate: string -> bool)

  /** Dates of that form are in the order of their text. A malformed date counts as past. */
  predicate IsExpired(lib: Library, e: Entry, today: string) {
    var until := TrimSpace(e.until);
    until != "" && (!lib.isDate(until) || Before(until, today))
  }

  predicate SameCheck(lib: Library, e: Entry, check: string) {
    lib.fold(TrimSpace(e.check)) == lib.fold(TrimSpace(check))
  }

  predicate Covers(lib: Library, e: Entry, check: string, message: string, today: string) {
    && SameCheck(lib, e, check) && !IsExpired(lib, e, today) && TrimSpace(e.pattern) != ""
    && Contains(message, e.pattern)
  }

  /** The first entry that covers a message. */
  function CoveredBy(lib: Library, entries: seq<Entry>, check: string, message: string, today: string): Option<Entry> {
    if entries == [] then None
    else if Covers(lib, entries[0], check, message, today) then Some(entries[0])
    else CoveredBy(lib, entries[1..], check, message, today)
  }

  /** The two sides a list of messages is split into. */
  datatype Sides = Sides(remaining: seq<string>, accepted: seq<Accepted>)

  function SidesOf(lib: Library, check: string, messages: seq<string>, entries: seq<Entry>, today: string): Sides {
    if messages == [] then Sides([], [])
    else
      var before, m := SidesOf(lib, check, messages[..|messages| - 1], entries, today), messages[|messages| - 1];
      match CoveredBy(lib, entries, check, m, today)
      case None => before.(remaining := before.remaining + [m])
      case Some(e) => before.(accepted := before.accepted + [Accepted(check, m, e.reason, e.until)])
  }

  function Messages(accepted: seq<Accepted>): seq<string> {
    seq(|accepted|, i requires 0 <= i < |accepted| => accepted[i].message)
  }

  /** The whole is an interleaving of the two sides: every message of it is on exactly one, in the same order. */
  ghost predicate Interleaves(left: seq<string>, right: seq<string>, whole: seq<string>) {
    if whole == [] then left == [] && right == []
    else
      var m, rest := whole[|whole| - 1], whole[..|whole| - 1];
      || (left != [] && left[|left| - 1] == m && Interleaves(left[..|left| - 1], right, rest))
      || (right != [] && right[|right| - 1] == m && Interleaves(left, right[..|right| - 1], rest))
  }

  /** The entry is past its date: it has one, and that is malformed or a day before today. */
  predicate PastDate(lib: Library, e: Entry, today: string) {
    TrimSpace(e.until) != "" && (lib.isDate(TrimSpace(e.until)) ==> Before(TrimSpace(e.until), today))
  }

  /** The entry accepts the message: it is for that check, not past its date, and its pattern, which is not blank,
      occurs in the message. */
  ghost predicate Accepts(lib: Library, e: Entry, check: string, message: string, today: string) {
    && lib.fold(TrimSpace(e.check)) == lib.fold(TrimSpace(check))
    && !PastDate(lib, e, today) && TrimSpace(e.pattern) != ""
    && exists i: nat :: OccursAt(message, e.pattern, i)
  }

  predicate OccursAt(message: string, pattern: string, i: nat) {
    i + |pattern| <= |message| && message[i..i + |pattern|] == pattern
  }

  lemma CoversMeans(lib: Library, e: Entry, check: string, message: string, today: string)
    ensures Covers(lib, e, check, message, today) <==> Accepts(lib, e, check, message, today)
  {
    forall i: nat | i <= |message| ensures e.pattern <= message[i..] <==> OccursAt(message, e.pattern, i) {
      if i + |e.pattern| <= |message| {
        assert message[i..][..|e.pattern|] == message[i..i + |e.pattern|];
      }
    }
  }

  /** The first entry that accepts the message. */
  ghost predicate FirstToAccept(lib: Library, e: Entry, entries: seq<Entry>, check: string, message: string,
                                today: string) {
    exists i ::
      && 0 <= i < |entries| && entries[i] == e && Accepts(lib, e, check, message, today)
      && forall j :: 0 <= j < i ==> !Accepts(lib, entries[j], check, message, today)
  }

  lemma {:induction false} CoveredByMeans(lib: Library, entries: seq<Entry>, check: string, message: string,
                                          today: string)
    ensures
      match CoveredBy(lib, entries, check, message, today)
      case None => forall i :: 0 <= i < |entries| ==> !Accepts(lib, entries[i], check, message, today)
      case Some(e) => FirstToAccept(lib, e, entries, check, message, today)
  {
    if entries != [] {
      var rest := entries[1..];
      assert forall i :: 0 < i < |entries| ==> entries[i] == rest[i - 1];
      CoversMeans(lib, entries[0], check, message, today);
      CoveredByMeans(lib, rest, check, message, today);
      if !Accepts(lib, entries[0], check, message, today) && CoveredBy(lib, rest, check, message, today).Some? {
        var e := CoveredBy(lib, rest, check, message, today).value;
        var i :| 0 <= i < |rest| && rest[i] == e && Accepts(lib, e, check, message, today)
          && forall j :: 0 <= j < i ==> !Accepts(lib, rest[j], check, message, today);
        assert entries[i + 1] == e;
      }
    }
  }

  /** Every accepted message carries the reason and the date of the first entry that accepts it. */
  ghost predicate AcceptedRight(lib: Library, check: string, entries: seq<Entry>, today: string, a: Accepted) {
    exists e ::
      FirstToAccept(lib, e, entries, check, a.message, today) && a == Accepted(check, a.message, e.reason, e.until)
  }

  /** Accepting splits the messages of a check in two without losing, doubling or reordering any. On the accepted side
      are those that some entry accepts, each under the first such entry; no entry accepts any on the other. */
  lemma {:induction false} EachOnOneSide(
      lib: Library, check: string, messages: seq<string>, entries: seq<Entry>, today: string)
    ensures
      var s := SidesOf(lib, check, messages, entries, today);
      && Interleaves(s.remaining, Messages(s.accepted), messages)
      && (forall i, k :: 0 <= i < |s.remaining| && 0 <= k < |entries| ==>
            !Accepts(lib, entries[k], check, s.remaining[i], today))
      && (forall i :: 0 <= i < |s.accepted| ==> AcceptedRight(lib, check, entries, today, s.accepted[i]))
  {
    if messages != [] {
      var n := |messages| - 1;
      var before, m := SidesOf(lib, check, messages[..n], entries, today), messages[n];
      EachOnOneSide(lib, check, messages[..n], entries, today);
      CoveredByMeans(lib, entries, check, m, today);
      match CoveredBy(lib, entries, check, m, today) {
        case None =>
          assert (before.remaining + [m])[..|before.remaining|] == before.remaining;
        case Some(e) =>
          var item := Accepted(check, m, e.reason, e.until);
          assert AcceptedRight(lib, check, entries, today, item);
          assert Messages(before.accepted + [item]) == Messages(before.accepted) + [m];
          assert (Messages(before.accepted) + [m])[..|before.accepted|] == Messages(before.accepted);
      }
    }
  }

  lemma {:induction false} InterleavesCounts(left: seq<string>, right: seq<string>, whole: seq<string>)
    requires Interleaves(left, right, whole)
    ensures |left| + |right| == |whole| && multiset(left) + multiset(right) == multiset(whole)
    decreases |whole|
  {
    if whole != [] {
      var m, rest := whole[|whole| - 1], whole[..|whole| - 1];
      assert whole == rest + [m];
      if left != [] && left[|left| - 1] == m && Interleaves(left[..|left| - 1], right, rest) {
        assert left == left[..|left| - 1] + [m];
        InterleavesCounts(left[..|left| - 1], right, rest);
      } else {
        assert right == right[..|right| - 1] + [m];
        InterleavesCounts(left, right[..|right| - 1], rest);
      }
    }
  }

  function ExpiredFor(lib: Library, check: string, entries: seq<Entry>, today: string): seq<Entry> {
    if entries == [] then []
    else
      var e := entries[|entries| - 1];
      ExpiredFor(lib, check, entries[..|entries| - 1], today)
      + if SameCheck(lib, e, check) && IsExpired(lib, e, today) then [e] else []
  }

  /** The expired entries are those for the check that are past their date. */
  lemma {:induction false} ExpiredMeans(lib: Library, check: string, entries: seq<Entry>, today: string, e: Entry)
    ensures e in ExpiredFor(lib, check, entries, today) <==>
      e in entries && lib.fold(TrimSpace(e.check)) == lib.fold(TrimSpace(check)) && PastDate(lib, e, today)
  {
    if entries != [] {
      var init, last := entries[..|entries| - 1], entries[|entries| - 1];
      assert entries == init + [last];
      ExpiredMeans(lib, check, init, today, e);
    }
  }

  method FirstCover(lib: Library, entries: seq<Entry>, check: string, message: string, today: string)
    returns (r: Option<Entry>)
    ensures r == CoveredBy(lib, entries, check, message, today)
  {
    for i := 0 to |entries|
      invariant CoveredBy(lib, entries, check, message, today) == CoveredBy(lib, entries[i..], check, message, today)
    {
      var entry := entries[i];
      assert entries[i..][0] == entry && entries[i..][1..] == entries[i + 1..];
      if !SameCheck(lib, entry, check) {
        continue;
      }
      if IsExpired(lib, entry, today) || TrimSpace(entry.pattern) == "" {
        continue;
      }
      if !Contains(message, entry.pattern) {
        continue;
      }
      return Some(entry);
    }
    return None;
  }

  method ApplyAccepted(lib: Library, check: string, unverified: seq<string>, entries: seq<Entry>, today: string)
    returns (remaining: seq<string>, accepted: seq<Accepted>, expired: seq<Entry>)
    ensures Sides(remaining, accepted) == SidesOf(lib, check, unverified, entries, today)
    ensures expired == ExpiredFor(lib, check, entries, today)
  {
    remaining, accepted, expired := [], [], [];
    for i := 0 to |entries|
      invariant expired == ExpiredFor(lib, check, entries[..i], today)
    {
      assert entries[..i + 1][..i] == entries[..i];
      if SameCheck(lib, entries[i], check) && IsExpired(lib, entries[i], today) {
        expired := expired + [entries[i]];
      }
    }
    assert entries[..|entries|] == entries;
    for i := 0 to |unverified|
      invariant Sides(remaining, accepted) == SidesOf(lib, check, unverified[..i], entries, today)
    {
      assert unverified[..i + 1][..i] == unverified[..i];
      var message := unverified[i];
      var cover := FirstCover(lib, entries, check, message, today);
      if cover.Some? {
        accepted := accepted + [Accepted(check, message, cover.value.reason, cover.value.until)];
      } else {
        remaining := remaining + [message];
      }
    }
    assert unverified[..|unverified|] == unverified;
  }

  // ----- the report object

  class ReportBuilder {
    var findings: seq<Finding>
    var unverified: seq<string>
    var accepted: seq<Accepted>

    constructor ()
      ensures Value() == NEW_REPORT
    {
      findings, unverified, accepted := [], [], [];
    }

    function Value(): Report
      reads this
    {
      Report(findings, unverified, accepted)
    }

    method Add(f: Finding)
      modifies this`findings
      ensures findings == old(findings) + [f]
    {
      findings := findings + [f];
    }

    method AddUnverified(message: string)
      modifies this`unverified
      ensures unverified == WithUnverified(old(unverified), message)
    {
      var m := TrimSpace(message);
      if m == "" {
        return;
      }
      for i := 0 to |unverified|
        invariant forall j :: 0 <= j < i ==> unverified[j] != m
        invariant unverified == old(unverified)
      {
        if unverified[i] == m {
          return;
        }
      }
      unverified := unverified + [m];
    }

    method AddAccepted(item: Accepted)
      modifies this`accepted
      ensures accepted == WithAccepted(old(accepted), item)
    {
      for i := 0 to |accepted|
        invariant forall j :: 0 <= j < i ==> !(accepted[j].check == item.check && accepted[j].message == item.message)
        invariant accepted == old(accepted)
      {
        if accepted[i].check == item.check && accepted[i].message == item.message {
          return;
        }
      }
      accepted := accepted + [item];
    }

    method SeenBehind() returns (seen: set<string>)
      ensures forall s :: s in seen <==> Seen(findings, s)
    {
      seen := {};
      for i := 0 to |findings|
        invariant forall s :: s in seen <==>
          exists j :: 0 <= j < i && findings[j].id == CLONE_BEHIND && findings[j].subject == s
      {
        if findings[i].id == CLONE_BEHIND {
          seen := seen + {findings[i].subject};
        }
      }
    }

    method Merge(other: Report)
      modifies this
      ensures Value() == Merged(old(Value()), other)
    {
      var seen := SeenBehind();
      for i := 0 to |other.findings|
        modifies this`findings
        invariant findings == old(findings) + TakenOver(old(findings), other.findings[..i])
      {
        assert other.findings[..i + 1][..i] == other.findings[..i];
        var f := other.findings[i];
        if f.id == CLONE_BEHIND && f.subject in seen {
          continue;
        }
        Add(f);
      }
      assert other.findings[..|other.findings|] == other.findings;
      for i := 0 to |other.unverified|
        modifies this`unverified
        invariant WithAllUnverified(unverified, other.unverified[i..]) ==
          WithAllUnverified(old(unverified), other.unverified)
      {
        assert other.unverified[i..][1..] == other.unverified[i + 1..];
        AddUnverified(other.unverified[i]);
      }
      for i := 0 to |other.accepted|
        modifies this`accepted
        invariant WithAllAccepted(accepted, other.accepted[i..]) == WithAllAccepted(old(accepted), other.accepted)
      {
        assert other.accepted[i..][1..] == other.accepted[i + 1..];
        AddAccepted(other.accepted[i]);
      }
    }

    method GetExitCode() returns (code: nat)
      ensures code == ExitCode(Value())
    {
      for i := 0 to |findings|
        invariant forall j :: 0 <= j < i ==> findings[j].severity != Error
      {
        if findings[i].severity == Error {
          return 1;
        }
      }
      if |unverified| > 0 {
        return 2;
      }
      return 0;
    }
  }

  /** What one check brings: its report and one line of detail. */
  datatype Result = Result(report: Report, detail: string)

  function Reports(results: seq<Result>): seq<Report> {
    seq(|results|, i requires 0 <= i < |results| => results[i].report)
  }

  /** The details that are there, in order. */
  function Details(results: seq<Result>): seq<string> {
    if results == [] then []
    else
      var last := results[|results| - 1].detail;
      Details(results[..|results| - 1]) + if last == "" then [] else [last]
  }

  /** The details are joined in order, without the empty ones. */
  lemma {:induction false} DetailsAddUp(a: seq<Result>, b: seq<Result>)
    ensures Details(a + b) == Details(a) + Details(b)
    ensures |b| == 1 ==> Details(b) == if b[0].detail == "" then [] else [b[0].detail]
    decreases |b|
  {
    if b == [] {
      assert a + b == a;
    } else {
      var n := |b| - 1;
      assert (a + b)[..|a + b| - 1] == a + b[..n] && (a + b)[|a + b| - 1] == b[n];
      DetailsAddUp(a, b[..n]);
    }
  }

  lemma MergedNext(results: seq<Result>, i: nat)
    requires i < |results|
    ensures MergedAll(Reports(results[..i + 1])) == Merged(MergedAll(Reports(results[..i])), results[i].report)
    ensures Details(results[..i + 1]) ==
      Details(results[..i]) + if results[i].detail == "" then [] else [results[i].detail]
  {
    var next := Reports(results[..i + 1]);
    assert results[..i + 1][..i] == results[..i];
    assert next[..i] == Reports(results[..i]) && next[i] == results[i].report;
  }

  /** All: every result merged into one new report, and the details joined. */
  method MergeAll(results: seq<Result>) returns (report: ReportBuilder, detail: string)
    ensures fresh(report) && report.Value() == MergedAll(Reports(results))
    ensures detail == Join(Details(results), "; ")
  {
    report := new ReportBuilder();
    var details := [];
    for i := 0 to |results|
      invariant fresh(report) && report.Value() == MergedAll(Reports(results[..i]))
      invariant details == Details(results[..i])
    {
      MergedNext(results, i);
      report.Merge(results[i].report);
      if results[i].detail != "" {
        details := details + [results[i].detail];
      }
    }
    assert results[..|results|] == results;
    detail := Join(details, "; ");
  }
}
