/** Tenant insurance as the admin sees it: whether a lease is covered (the compliance
    dashboard, the alert list's expiry label and the counts), the daily job that warns a
    tenant 30, 14 and 7 days before a policy ends, and approving or rejecting an uploaded
    policy. Timestamps are milliseconds; "now" is a parameter. */
module InsuranceController {
  import opened Wrappers
  import opened Calendar
  import opened Keys
  import opened Store
  import Text

  // ---------------------------------------------------------------------------------
  // Classification
  // ---------------------------------------------------------------------------------

  datatype Compliance = Missing | Expired | Expiring | Compliant

  /** A lease's compliance from the end of its policy (None when it has none): by the
      whole days remaining, rounded up. */
  function ComplianceOf(endMs: Option<int>, nowMs: int): (c: Compliance)
    ensures c == Missing <==> endMs.None?
  {
    match endMs
    case None => Missing
    case Some(e) =>
      var days := DaysUntil(e, nowMs);
      if days < 0 then Compliance.Expired else if days <= 30 then Expiring else Compliant
  }

  /** The thresholds in time: expired once the policy ended a whole day ago or more,
      expiring up to thirty days ahead, compliant beyond. */
  lemma ComplianceThresholds(endMs: int, nowMs: int)
    ensures ComplianceOf(Some(endMs), nowMs) == Compliance.Expired <==> endMs - nowMs <= -MsPerDay
    ensures ComplianceOf(Some(endMs), nowMs) == Expiring <==> -MsPerDay < endMs - nowMs <= 30 * MsPerDay
    ensures ComplianceOf(Some(endMs), nowMs) == Compliant <==> endMs - nowMs > 30 * MsPerDay
  {
    var days := DaysUntil(endMs, nowMs);
    if days < 0 {
      assert days * MsPerDay <= -MsPerDay;
    } else if days <= 30 {
      assert (days - 1) * MsPerDay >= -MsPerDay;
      assert days * MsPerDay <= 30 * MsPerDay;
    } else {
      assert (days - 1) * MsPerDay >= 30 * MsPerDay;
    }
  }

  /** The ends of the lease's ACTIVE policies. */
  function ActiveEnds(insurances: map<Id, Insurance>, leaseId: Id): set<int> {
    set k | k in insurances && insurances[k].leaseId == Some(leaseId) && insurances[k].status == "ACTIVE" :: insurances[k].endMs
  }

  /** The policy the dashboard shows: the lease's ACTIVE policy that ends last. */
  function LatestEnd(ends: set<int>): (r: Option<int>)
    ensures r.None? <==> ends == {}
    ensures r.Some? ==> IsMax(ends, r.value)
  {
    if ends == {} then None else Some(MaxKey(ends))
  }

  /** getComplianceDashboard's status for one lease. */
  function LeaseCompliance(insurances: map<Id, Insurance>, leaseId: Id, nowMs: int): Compliance {
    ComplianceOf(LatestEnd(ActiveEnds(insurances, leaseId)), nowMs)
  }

  predicate CoversLease(ins: Insurance, leaseId: Id) { ins.leaseId == Some(leaseId) && ins.status == "ACTIVE" }

  /** A lease is Missing exactly when it has no ACTIVE policy, Compliant exactly when one
      of them runs more than thirty days more, and Expired exactly when every one of them
      ended a day ago or more. */
  lemma DashboardCompliance(insurances: map<Id, Insurance>, leaseId: Id, nowMs: int)
    ensures LeaseCompliance(insurances, leaseId, nowMs) == Missing <==>
      forall k :: k in insurances ==> !CoversLease(insurances[k], leaseId)
    ensures LeaseCompliance(insurances, leaseId, nowMs) == Compliant <==>
      exists k :: k in insurances && CoversLease(insurances[k], leaseId) && insurances[k].endMs - nowMs > 30 * MsPerDay
    ensures LeaseCompliance(insurances, leaseId, nowMs) == Compliance.Expired <==>
      (exists k :: k in insurances && CoversLease(insurances[k], leaseId))
      && forall k :: k in insurances && CoversLease(insurances[k], leaseId) ==> insurances[k].endMs - nowMs <= -MsPerDay
  {
    var ends := ActiveEnds(insurances, leaseId);
    if exists k :: k in insurances && CoversLease(insurances[k], leaseId) {
      var k :| k in insurances && CoversLease(insurances[k], leaseId);
      assert insurances[k].endMs in ends;
    }
    if ends != {} {
      var latest := LatestEnd(ends).value;
      var j :| j in insurances && CoversLease(insurances[j], leaseId) && insurances[j].endMs == latest;
      ComplianceThresholds(latest, nowMs);
      forall k | k in insurances && CoversLease(insurances[k], leaseId)
        ensures insurances[k].endMs <= latest
      {
        assert insurances[k].endMs in ends;
      }
    }
  }

  datatype ExpiryLabel = ExpiryLabel(caption: string, color: string, days: int)

  /** getInsuranceAlerts' label for a policy. */
  function ExpiryOf(endMs: int, nowMs: int): (r: ExpiryLabel)
    ensures r.days == DaysUntil(endMs, nowMs)
  {
    var days := DaysUntil(endMs, nowMs);
    if days < 0 then ExpiryLabel("Expired", "red", days)
    else if days <= 30 then ExpiryLabel("Expiring Soon", "amber", days)
    else ExpiryLabel("Active", "emerald", days)
  }

  /** The alert list's label and the dashboard's status always agree. */
  lemma LabelMatchesCompliance(endMs: int, nowMs: int)
    ensures ExpiryOf(endMs, nowMs).caption == "Expired" <==> ComplianceOf(Some(endMs), nowMs) == Compliance.Expired
    ensures ExpiryOf(endMs, nowMs).caption == "Expiring Soon" <==> ComplianceOf(Some(endMs), nowMs) == Expiring
    ensures ExpiryOf(endMs, nowMs).caption == "Active" <==> ComplianceOf(Some(endMs), nowMs) == Compliant
  {
  }

  // ---------------------------------------------------------------------------------
  // getInsuranceStats
  // ---------------------------------------------------------------------------------

  datatype InsuranceStats = InsuranceStats(active: nat, expiring: nat, expired: nat, pending: nat)

  function ActiveWhere(insurances: map<Id, Insurance>, lo: Option<int>, hi: Option<int>): set<Id> {
    set k | k in insurances && insurances[k].status == "ACTIVE"
      && (lo.None? || lo.value <= insurances[k].endMs) && (hi.None? || insurances[k].endMs <= hi.value)
  }

  function ActivePolicies(insurances: map<Id, Insurance>): set<Id> {
    set k | k in insurances && insurances[k].status == "ACTIVE"
  }

  /** The four counts; "thirty days out" is now plus thirty whole days. */
  function Stats(insurances: map<Id, Insurance>, nowMs: int): InsuranceStats {
    var out := nowMs + 30 * MsPerDay;
    InsuranceStats(
      |ActiveWhere(insurances, Some(out + 1), None)|,
      |ActiveWhere(insurances, Some(nowMs), Some(out))|,
      |ActiveWhere(insurances, None, Some(nowMs - 1))|,
      |set k | k in insurances && insurances[k].status == "PENDING_APPROVAL"|)
  }

  /** Every ACTIVE policy is counted exactly once among active, expiring and expired. */
  lemma StatsPartition(insurances: map<Id, Insurance>, nowMs: int)
    ensures var s := Stats(insurances, nowMs);
      s.active + s.expiring + s.expired == |ActivePolicies(insurances)|
  {
    var out := nowMs + 30 * MsPerDay;
    var a := ActiveWhere(insurances, Some(out + 1), None);
    var b := ActiveWhere(insurances, Some(nowMs), Some(out));
    var c := ActiveWhere(insurances, None, Some(nowMs - 1));
    assert a * b == {};
    assert (a + b) * c == {};
    assert a + b + c == ActivePolicies(insurances);
  }

  /** The counts and the dashboard agree on what is compliant, but a policy that ended
      less than a day ago is counted expired while the dashboard still shows it Expiring
      (zero days remaining); that is the only place where they differ on expiry. */
  lemma StatsAgainstDashboard(endMs: int, nowMs: int)
    ensures ComplianceOf(Some(endMs), nowMs) == Compliant <==> endMs >= nowMs + 30 * MsPerDay + 1
    ensures (endMs < nowMs && ComplianceOf(Some(endMs), nowMs) != Compliance.Expired) <==> -MsPerDay < endMs - nowMs < 0
    ensures ComplianceOf(Some(endMs), nowMs) == Compliance.Expired ==> endMs < nowMs
  {
    ComplianceThresholds(endMs, nowMs);
  }

  // ---------------------------------------------------------------------------------
  // checkInsuranceExpirations
  // ---------------------------------------------------------------------------------

  /** The days before the end at which a tenant is warned. */
  const Thresholds: set<int> := {30, 14, 7}

  /** The policies the job looks at: ACTIVE ones that have not ended. */
  function Watched(insurances: map<Id, Insurance>, nowMs: int): set<Id> {
    set k | k in insurances && insurances[k].status == "ACTIVE" && insurances[k].endMs > nowMs
  }

  function EventType(days: int): string {
    "INSURANCE_EXPIRY_" + Text.IntText(days)
  }

  predicate Matches(log: CommLog, userId: Id, insuranceId: Id, eventType: string) {
    log.recipientId == Some(userId) && log.relatedEntity == "INSURANCE"
    && log.entityId == Some(insuranceId) && log.eventType == eventType
  }

  /** The alert has been logged before. */
  predicate Logged(logs: seq<CommLog>, userId: Id, insuranceId: Id, eventType: string) {
    exists i :: 0 <= i < |logs| && Matches(logs[i], userId, insuranceId, eventType)
  }

  /** The communication service's own record of a notification it sends. */
  function Notification(users: map<Id, User>, userId: Id, eventType: string, content: string, insuranceId: Id): (r: seq<CommLog>)
    ensures |r| <= 1
    ensures |r| == 1 ==> Matches(r[0], userId, insuranceId, eventType) || userId == 0
  {
    if userId !in users then []
    else [CommLog("Email", eventType, users[userId].email, if userId != 0 then Some(userId) else None,
                  "INSURANCE", Some(insuranceId), content, "Sent")]
  }

  function AlertContent(insuranceId: Id, days: int): string {
    "Your insurance policy (ID: " + Text.IntText(insuranceId) + ") expires in " + Text.IntText(days)
      + " days. Please upload a new policy to remain compliant."
  }

  /** The status column's default, which the job's own log row leaves to the schema; the
      schema is not part of this model. */
  const DefaultLogStatus: string := ""

  /** The job's own log row of an alert. */
  function AlertLog(u: User, ins: Insurance, insuranceId: Id, days: int): (r: CommLog)
    ensures Matches(r, ins.userId, insuranceId, EventType(days))
  {
    CommLog("Email", EventType(days), u.email, Some(ins.userId), "INSURANCE", Some(insuranceId),
            "Insurance policy " + ins.policyNumber + " expires in " + Text.IntText(days) + " days.", DefaultLogStatus)
  }

  /** The log after one policy, and false when the policy's user is missing, which throws
      and ends the whole job. */
  datatype Pass = Pass(logs: seq<CommLog>, ok: bool)

  function AlertOne(users: map<Id, User>, insurances: map<Id, Insurance>, logs: seq<CommLog>, id: Id, nowMs: int): Pass
    requires id in insurances
  {
    var ins := insurances[id];
    var days := DaysUntil(ins.endMs, nowMs);
    if days !in Thresholds || Logged(logs, ins.userId, id, EventType(days)) then Pass(logs, true)
    else if ins.userId !in users then Pass(logs, false)
    else
      Pass(logs + Notification(users, ins.userId, EventType(days), AlertContent(id, days), id)
                + [AlertLog(users[ins.userId], ins, id, days)], true)
  }

  predicate AllIn(order: seq<Id>, insurances: map<Id, Insurance>) {
    forall i :: 0 <= i < |order| ==> order[i] in insurances
  }

  /** The job over the watched policies in the order the query returns them. */
  function Alerts(users: map<Id, User>, insurances: map<Id, Insurance>, logs: seq<CommLog>, order: seq<Id>, nowMs: int): Pass
    requires AllIn(order, insurances)
    decreases |order|
  {
    if order == [] then Pass(logs, true)
    else
      var p := AlertOne(users, insurances, logs, order[0], nowMs);
      if !p.ok then p else Alerts(users, insurances, p.logs, order[1..], nowMs)
  }

  method CheckInsuranceExpirations(db: Database, nowMs: int, order: seq<Id>)
    requires Enumerates(order, Watched(db.insurances, nowMs))
    modifies db`commLogs
    ensures db.commLogs == Alerts(db.users, db.insurances, old(db.commLogs), order, nowMs).logs
  {
    assert AllIn(order, db.insurances) by {
      forall i | 0 <= i < |order|
        ensures order[i] in db.insurances
      {
        assert order[i] in Watched(db.insurances, nowMs);
      }
    }
    var i := 0;
    while i < |order|
      invariant 0 <= i <= |order|
      invariant Alerts(db.users, db.insurances, db.commLogs, order[i..], nowMs).logs
             == Alerts(db.users, db.insurances, old(db.commLogs), order, nowMs).logs
    {
      var ok := AlertPolicy(db, order[i], nowMs);
      assert order[i..][1..] == order[i + 1..];
      if !ok {
        return;
      }
      i := i + 1;
    }
  }

  method AlertPolicy(db: Database, id: Id, nowMs: int) returns (ok: bool)
    requires id in db.insurances
    modifies db`commLogs
    ensures Pass(db.commLogs, ok) == AlertOne(db.users, db.insurances, old(db.commLogs), id, nowMs)
  {
    var ins := db.insurances[id];
    var diffDays := DaysUntil(ins.endMs, nowMs);
    if diffDays !in Thresholds {
      return true;
    }
    var eventType := EventType(diffDays);
    if Logged(db.commLogs, ins.userId, id, eventType) {
      return true;
    }
    if ins.userId !in db.users {
      return false;
    }
    db.commLogs := db.commLogs + Notification(db.users, ins.userId, eventType, AlertContent(id, diffDays), id);
    db.commLogs := db.commLogs + [AlertLog(db.users[ins.userId], ins, id, diffDays)];
    ok := true;
  }

  // ---------------------------------------------------------------------------------
  // Properties of the job
  // ---------------------------------------------------------------------------------

  /** A log row about policy `id`, at the threshold the policy is at. */
  predicate AlertAbout(log: CommLog, insurances: map<Id, Insurance>, id: Id, nowMs: int)
    requires id in insurances
  {
    var days := DaysUntil(insurances[id].endMs, nowMs);
    days in Thresholds && log.entityId == Some(id) && log.relatedEntity == "INSURANCE" && log.eventType == EventType(days)
  }

  /** A log row about a policy of the order, at one of the thresholds. */
  predicate AlertFor(log: CommLog, insurances: map<Id, Insurance>, order: seq<Id>, nowMs: int) {
    exists i :: 0 <= i < |order| && order[i] in insurances && AlertAbout(log, insurances, order[i], nowMs)
  }

  /** The logs only grow along the job. */
  lemma {:induction false} AlertsExtend(users: map<Id, User>, insurances: map<Id, Insurance>, logs: seq<CommLog>, order: seq<Id>, nowMs: int)
    requires AllIn(order, insurances)
    ensures var r := Alerts(users, insurances, logs, order, nowMs).logs;
      |logs| <= |r| && r == logs + r[|logs|..]
    decreases |order|
  {
    if order != [] {
      var p := AlertOne(users, insurances, logs, order[0], nowMs);
      AlertOneExtends(users, insurances, logs, order[0], nowMs);
      if p.ok {
        AlertsExtend(users, insurances, p.logs, order[1..], nowMs);
        ExtendsChain(logs, p.logs, Alerts(users, insurances, p.logs, order[1..], nowMs).logs);
      }
    }
  }

  /** One policy's turn only appends, and appends nothing when it fails. */
  lemma AlertOneExtends(users: map<Id, User>, insurances: map<Id, Insurance>, logs: seq<CommLog>, id: Id, nowMs: int)
    requires id in insurances
    ensures var p := AlertOne(users, insurances, logs, id, nowMs);
      |logs| <= |p.logs| && p.logs == logs + p.logs[|logs|..] && (!p.ok ==> p.logs == logs)
  {
    var p := AlertOne(users, insurances, logs, id, nowMs);
    assert p.logs[..|logs|] == logs;
  }

  lemma ExtendsChain(a: seq<CommLog>, b: seq<CommLog>, c: seq<CommLog>)
    requires |a| <= |b| && b == a + b[|a|..] && |b| <= |c| && c == b + c[|b|..]
    ensures |a| <= |c| && c == a + c[|a|..]
  {
    assert c[..|a|] == b[..|a|] == a;
  }

  /** What one policy's turn appends is an alert about that policy. */
  lemma AlertOneAbout(users: map<Id, User>, insurances: map<Id, Insurance>, logs: seq<CommLog>, id: Id, nowMs: int)
    requires id in insurances
    ensures var p := AlertOne(users, insurances, logs, id, nowMs).logs;
      |logs| <= |p| && forall j :: |logs| <= j < |p| ==> AlertAbout(p[j], insurances, id, nowMs)
  {
  }

  /** The job only appends, and everything it appends is an alert for a policy exactly 30,
      14 or 7 days from its end. */
  lemma {:induction false} AlertsOnlyAtThresholds(users: map<Id, User>, insurances: map<Id, Insurance>, logs: seq<CommLog>, order: seq<Id>, nowMs: int)
    requires AllIn(order, insurances)
    ensures var r := Alerts(users, insurances, logs, order, nowMs).logs;
      |logs| <= |r| && r[..|logs|] == logs
      && forall j :: |logs| <= j < |r| ==> AlertFor(r[j], insurances, order, nowMs)
    decreases |order|
  {
    AlertsExtend(users, insurances, logs, order, nowMs);
    if order != [] {
      var p := AlertOne(users, insurances, logs, order[0], nowMs);
      if p.ok {
        AlertOneAbout(users, insurances, logs, order[0], nowMs);
        AlertsOnlyAtThresholds(users, insurances, p.logs, order[1..], nowMs);
        AlertsExtend(users, insurances, p.logs, order[1..], nowMs);
        var r := Alerts(users, insurances, logs, order, nowMs).logs;
        forall j | |logs| <= j < |r|
          ensures AlertFor(r[j], insurances, order, nowMs)
        {
          if j < |p.logs| {
            assert r[j] == p.logs[j];
            assert AlertAbout(r[j], insurances, order[0], nowMs);
          } else {
            var i :| 0 <= i < |order[1..]| && order[1..][i] in insurances && AlertAbout(r[j], insurances, order[1..][i], nowMs);
            assert order[i + 1] == order[1..][i];
          }
        }
      }
    }
  }

  /** A logged alert stays logged when rows are appended. */
  lemma LoggedKept(logs: seq<CommLog>, more: seq<CommLog>, userId: Id, insuranceId: Id, eventType: string)
    requires Logged(logs, userId, insuranceId, eventType)
    ensures Logged(logs + more, userId, insuranceId, eventType)
  {
    var i :| 0 <= i < |logs| && Matches(logs[i], userId, insuranceId, eventType);
    assert (logs + more)[i] == logs[i];
  }

  /** When the job runs through, every policy of the order that is 30, 14 or 7 days from
      its end has its alert logged. */
  lemma {:induction false} AlertsLogged(users: map<Id, User>, insurances: map<Id, Insurance>, logs: seq<CommLog>, order: seq<Id>, nowMs: int)
    requires AllIn(order, insurances)
    requires Alerts(users, insurances, logs, order, nowMs).ok
    ensures var r := Alerts(users, insurances, logs, order, nowMs).logs;
      forall i :: 0 <= i < |order| && DaysUntil(insurances[order[i]].endMs, nowMs) in Thresholds ==>
        Logged(r, insurances[order[i]].userId, order[i], EventType(DaysUntil(insurances[order[i]].endMs, nowMs)))
    decreases |order|
  {
    if order != [] {
      var id := order[0];
      var p := AlertOne(users, insurances, logs, id, nowMs);
      AlertsLogged(users, insurances, p.logs, order[1..], nowMs);
      var r := Alerts(users, insurances, logs, order, nowMs).logs;
      AlertsExtend(users, insurances, p.logs, order[1..], nowMs);
      var ins := insurances[id];
      var days := DaysUntil(ins.endMs, nowMs);
      if days in Thresholds {
        if !Logged(logs, ins.userId, id, EventType(days)) {
          var k := |p.logs| - 1;
          assert Matches(p.logs[k], ins.userId, id, EventType(days));
        }
        LoggedKept(p.logs, r[|p.logs|..], ins.userId, id, EventType(days));
      }
      forall i | 1 <= i < |order| && DaysUntil(insurances[order[i]].endMs, nowMs) in Thresholds
        ensures Logged(r, insurances[order[i]].userId, order[i], EventType(DaysUntil(insurances[order[i]].endMs, nowMs)))
      {
        assert order[i] == order[1..][i - 1];
      }
    }
  }

  /** With every alert of the order already logged, the job writes nothing. */
  lemma {:induction false} NothingResent(users: map<Id, User>, insurances: map<Id, Insurance>, logs: seq<CommLog>, order: seq<Id>, nowMs: int)
    requires AllIn(order, insurances)
    requires forall i :: 0 <= i < |order| && DaysUntil(insurances[order[i]].endMs, nowMs) in Thresholds ==>
      Logged(logs, insurances[order[i]].userId, order[i], EventType(DaysUntil(insurances[order[i]].endMs, nowMs)))
    ensures Alerts(users, insurances, logs, order, nowMs) == Pass(logs, true)
    decreases |order|
  {
    if order != [] {
      assert AlertOne(users, insurances, logs, order[0], nowMs) == Pass(logs, true);
      forall i | 0 <= i < |order[1..]| && DaysUntil(insurances[order[1..][i]].endMs, nowMs) in Thresholds
        ensures Logged(logs, insurances[order[1..][i]].userId, order[1..][i], EventType(DaysUntil(insurances[order[1..][i]].endMs, nowMs)))
      {
        assert order[1..][i] == order[i + 1];
      }
      NothingResent(users, insurances, logs, order[1..], nowMs);
    }
  }

  /** A second run on the same day sends nothing again: once a run has gone through, a
      rerun leaves the log as the first run left it. */
  lemma AlertsNotResent(users: map<Id, User>, insurances: map<Id, Insurance>, logs: seq<CommLog>, order: seq<Id>, nowMs: int)
    requires AllIn(order, insurances)
    requires Alerts(users, insurances, logs, order, nowMs).ok
    ensures var first := Alerts(users, insurances, logs, order, nowMs).logs;
      Alerts(users, insurances, first, order, nowMs) == Pass(first, true)
  {
    AlertsLogged(users, insurances, logs, order, nowMs);
    NothingResent(users, insurances, Alerts(users, insurances, logs, order, nowMs).logs, order, nowMs);
  }

  // ---------------------------------------------------------------------------------
  // approveInsurance / rejectInsurance
  // ---------------------------------------------------------------------------------

  /** A missing reason is 400; an id that does not parse or names no policy makes the
      update throw: 500. */
  datatype DecisionError = ReasonRequired | ServerError

  function HttpStatus(e: DecisionError): (code: int)
    ensures code == 400 <==> e.ReasonRequired?
    ensures code == 500 <==> e.ServerError?
  {
    if e.ReasonRequired? then 400 else 500
  }

  datatype InsuranceBooks = InsuranceBooks(insurances: map<Id, Insurance>, commLogs: seq<CommLog>)

  function InsuranceBooksOf(db: Database): InsuranceBooks
    reads db
  {
    InsuranceBooks(db.insurances, db.commLogs)
  }

  function ApprovalContent(id: Id): string {
    "Your insurance policy (ID: " + Text.IntText(id) + ") has been approved. Your status is now ACTIVE."
  }

  function RejectionContent(id: Id, reason: string): string {
    "Your insurance policy (ID: " + Text.IntText(id) + ") was rejected. Reason: " + reason + ". Please upload a corrected document."
  }

  /** POST /api/admin/insurance/:id/approve. */
  function ApproveSpec(b: InsuranceBooks, users: map<Id, User>, id: Option<Id>): (o: (Result<Insurance, DecisionError>, InsuranceBooks))
    ensures o.0.Err? ==> o.1 == b
  {
    if id.None? || id.value !in b.insurances then (Err(ServerError), b)
    else
      var ins := b.insurances[id.value].(status := "ACTIVE", rejectionReason := None);
      (Ok(ins), InsuranceBooks(b.insurances[id.value := ins],
                               b.commLogs + Notification(users, ins.userId, "INSURANCE_APPROVED", ApprovalContent(id.value), id.value)))
  }

  /** POST /api/admin/insurance/:id/reject: the reason is checked before the id. */
  function RejectSpec(b: InsuranceBooks, users: map<Id, User>, id: Option<Id>, reason: Option<string>): (o: (Result<Insurance, DecisionError>, InsuranceBooks))
    ensures o.0.Err? ==> o.1 == b
  {
    if !Filled(reason) then (Err(ReasonRequired), b)
    else if id.None? || id.value !in b.insurances then (Err(ServerError), b)
    else
      var ins := b.insurances[id.value].(status := "REJECTED", rejectionReason := reason);
      (Ok(ins), InsuranceBooks(b.insurances[id.value := ins],
                               b.commLogs + Notification(users, ins.userId, "INSURANCE_REJECTED", RejectionContent(id.value, reason.value), id.value)))
  }

  method ApproveInsurance(db: Database, id: Option<Id>) returns (r: Result<Insurance, DecisionError>)
    modifies db`insurances, db`commLogs
    ensures (r, InsuranceBooksOf(db)) == ApproveSpec(old(InsuranceBooksOf(db)), db.users, id)
  {
    if id.None? || id.value !in db.insurances {
      return Err(ServerError);
    }
    var insurance := db.insurances[id.value].(status := "ACTIVE", rejectionReason := None);
    db.insurances := db.insurances[id.value := insurance];
    db.commLogs := db.commLogs + Notification(db.users, insurance.userId, "INSURANCE_APPROVED", ApprovalContent(id.value), id.value);
    r := Ok(insurance);
  }

  method RejectInsurance(db: Database, id: Option<Id>, reason: Option<string>) returns (r: Result<Insurance, DecisionError>)
    modifies db`insurances, db`commLogs
    ensures (r, InsuranceBooksOf(db)) == RejectSpec(old(InsuranceBooksOf(db)), db.users, id, reason)
  {
    if !Filled(reason) {
      return Err(ReasonRequired);
    }
    if id.None? || id.value !in db.insurances {
      return Err(ServerError);
    }
    var insurance := db.insurances[id.value].(status := "REJECTED", rejectionReason := reason);
    db.insurances := db.insurances[id.value := insurance];
    db.commLogs := db.commLogs + Notification(db.users, insurance.userId, "INSURANCE_REJECTED", RejectionContent(id.value, reason.value), id.value);
    r := Ok(insurance);
  }

  /** A rejection needs a reason and stores it; an approval sets ACTIVE and clears any
      reason. Either changes only the one policy, and logs at most one notification. */
  lemma ReviewEffects(b: InsuranceBooks, users: map<Id, User>, id: Option<Id>, reason: Option<string>)
    ensures var (r, after) := RejectSpec(b, users, id, reason);
      && (r == Err(ReasonRequired) <==> !Filled(reason))
      && (r.Ok? <==> Filled(reason) && id.Some? && id.value in b.insurances)
      && (r.Ok? ==> after.insurances == b.insurances[id.value := r.value]
                    && r.value.status == "REJECTED" && r.value.rejectionReason == reason
                    && r.value.endMs == b.insurances[id.value].endMs
                    && |b.commLogs| <= |after.commLogs| <= |b.commLogs| + 1)
    ensures var (r, after) := ApproveSpec(b, users, id);
      && (r.Ok? <==> id.Some? && id.value in b.insurances)
      && (r.Ok? ==> after.insurances == b.insurances[id.value := r.value]
                    && r.value.status == "ACTIVE" && r.value.rejectionReason.None?
                    && r.value.endMs == b.insurances[id.value].endMs
                    && |b.commLogs| <= |after.commLogs| <= |b.commLogs| + 1)
  {
  }

  /** Approving a policy after rejecting it leaves it ACTIVE with no reason on record: the
      same policy row approving alone would give. */
  lemma ApprovalAfterRejection(b: InsuranceBooks, users: map<Id, User>, id: Id, reason: string)
    requires id in b.insurances && reason != ""
    ensures var rejected := RejectSpec(b, users, Some(id), Some(reason)).1;
      ApproveSpec(rejected, users, Some(id)).1.insurances == ApproveSpec(b, users, Some(id)).1.insurances
  {
    var rejected := RejectSpec(b, users, Some(id), Some(reason)).1;
    assert rejected.insurances[id].(status := "ACTIVE", rejectionReason := None)
        == b.insurances[id].(status := "ACTIVE", rejectionReason := None);
  }
}
