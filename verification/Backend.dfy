/** A backend's live state: the health state machine driven by probes and
    maintenance switches, and the concurrency slots requests take. */
module BackendState {
  import opened Options
  import Slots

  datatype Status = Blank | Healthy | Degraded | Unhealthy | Disabled | Maintenance | Unknown

  datatype Event = Success | Failure | SoftFailure | MaintenanceOn | MaintenanceOff

  datatype Thresholds = Thresholds(failure: int, success: int)

  datatype Health = Health(status: Status, failures: nat, successes: nat)

  /** The thresholds in force: 3 failures and 2 successes unless a positive number is configured. */
  function InForce(configured: Option<Thresholds>): (t: Thresholds)
    ensures t.failure > 0 && t.success > 0
    ensures configured.Some? && configured.value.failure > 0 ==> t.failure == configured.value.failure
    ensures configured.Some? && configured.value.success > 0 ==> t.success == configured.value.success
    ensures configured.None? || configured.value.failure <= 0 ==> t.failure == 3
    ensures configured.None? || configured.value.success <= 0 ==> t.success == 2
  {
    match configured
    case None => Thresholds(3, 2)
    case Some(c) => Thresholds(if c.failure > 0 then c.failure else 3, if c.success > 0 then c.success else 2)
  }

  function Next(th: Thresholds, h: Health, e: Event): Health {
    match e
    case Success =>
      var n := h.successes + 1;
      Health(if h.status != Healthy && n >= th.success then Healthy else h.status, 0, n)
    case Failure =>
      var n := h.failures + 1;
      Health(if h.status != Unhealthy && n >= th.failure then Unhealthy else h.status, n, 0)
    case SoftFailure => Health(Degraded, 0, 0)
    case MaintenanceOn => h.(status := Maintenance)
    case MaintenanceOff => Health(Unknown, 0, 0)
  }

  function After(th: Thresholds, start: Status, history: seq<Event>): Health {
    if history == [] then Health(start, 0, 0)
    else Next(th, After(th, start, history[..|history| - 1]), history[|history| - 1])
  }

  // ----- What a history means -----

  /** Switching maintenance on neither counts in a run of probes nor breaks it. */
  predicate Unbroken(events: seq<Event>, e: Event) {
    forall k :: 0 <= k < |events| ==> events[k] == e || events[k] == MaintenanceOn
  }

  function Occurrences(events: seq<Event>, e: Event): nat {
    if events == [] then 0
    else Occurrences(events[..|events| - 1], e) + (if events[|events| - 1] == e then 1 else 0)
  }

  /** The history ends in an unbroken run with at least `n` events `e`. */
  ghost predicate EndsInRun(history: seq<Event>, e: Event, n: int) {
    exists j :: 0 <= j <= |history| && Unbroken(history[j..], e) && Occurrences(history[j..], e) >= n
  }

  /** Event `i` settles the status: a switch or a soft failure always does, a probe
      exactly when its unbroken run has reached the threshold. */
  ghost predicate Decisive(th: Thresholds, history: seq<Event>, i: nat)
    requires i < |history|
  {
    match history[i]
    case Success => EndsInRun(history[..i + 1], Success, th.success)
    case Failure => EndsInRun(history[..i + 1], Failure, th.failure)
    case _ => true
  }

  function Effect(e: Event): Status {
    match e
    case Success => Healthy
    case Failure => Unhealthy
    case SoftFailure => Degraded
    case MaintenanceOn => Maintenance
    case MaintenanceOff => Unknown
  }

  ghost predicate LastDecisive(th: Thresholds, history: seq<Event>, i: nat) {
    i < |history| && Decisive(th, history, i) && forall j :: i < j < |history| ==> !Decisive(th, history, j)
  }

  /** Length of the trailing run, counted step by step. */
  function Trail(history: seq<Event>, e: Event): nat {
    if history == [] then 0
    else
      var last, before := history[|history| - 1], Trail(history[..|history| - 1], e);
      if last == e then before + 1 else if last == MaintenanceOn then before else 0
  }

  lemma {:induction false} TrailIsRun(history: seq<Event>, e: Event, n: int)
    requires n > 0 && e != MaintenanceOn
    ensures Trail(history, e) >= n <==> EndsInRun(history, e, n)
    decreases |history|
  {
    if history == [] { return; }
    var last, before := history[|history| - 1], history[..|history| - 1];
    var m := if last == e then n - 1 else n;
    if m > 0 { TrailIsRun(before, e, m); }
    if Trail(history, e) >= n {
      var j := |before|;
      if m > 0 { j :| 0 <= j <= |before| && Unbroken(before[j..], e) && Occurrences(before[j..], e) >= m; }
      SuffixSnoc(history, j, e);
    }
    if j :| 0 <= j <= |history| && Unbroken(history[j..], e) && Occurrences(history[j..], e) >= n {
      assert j <= |before|;
      SuffixSnoc(history, j, e);
    }
  }

  lemma SuffixSnoc(history: seq<Event>, j: nat, e: Event)
    requires j < |history|
    ensures var last, before := history[|history| - 1], history[..|history| - 1];
            && Occurrences(history[j..], e) == Occurrences(before[j..], e) + (if last == e then 1 else 0)
            && (Unbroken(history[j..], e) <==> Unbroken(before[j..], e) && (last == e || last == MaintenanceOn))
  {
    var last, before := history[|history| - 1], history[..|history| - 1];
    assert history[j..] == before[j..] + [last];
    assert history[j..][..|history[j..]| - 1] == before[j..];
    assert history[j..][|history| - 1 - j] == last;
    assert forall k :: 0 <= k < |before[j..]| ==> history[j..][k] == before[j..][k];
  }

  lemma {:induction false} StreaksAreTrails(th: Thresholds, start: Status, history: seq<Event>)
    ensures After(th, start, history).successes == Trail(history, Success)
    ensures After(th, start, history).failures == Trail(history, Failure)
    decreases |history|
  {
    if history != [] { StreaksAreTrails(th, start, history[..|history| - 1]); }
  }

  lemma {:induction false} NeverBothStreaks(th: Thresholds, start: Status, history: seq<Event>)
    ensures After(th, start, history).successes == 0 || After(th, start, history).failures == 0
    decreases |history|
  {
    if history != [] { NeverBothStreaks(th, start, history[..|history| - 1]); }
  }

  lemma LastEventSettles(th: Thresholds, start: Status, history: seq<Event>)
    requires history != [] && th.success > 0 && th.failure > 0
    ensures After(th, start, history).status ==
            if Decisive(th, history, |history| - 1) then Effect(history[|history| - 1])
            else After(th, start, history[..|history| - 1]).status
  {
    StreaksAreTrails(th, start, history);
    TrailIsRun(history, Success, th.success);
    TrailIsRun(history, Failure, th.failure);
    assert history[..|history|] == history;
  }

  lemma DecisiveInPrefix(th: Thresholds, history: seq<Event>, i: nat, n: nat)
    requires i < n <= |history|
    ensures Decisive(th, history[..n], i) <==> Decisive(th, history, i)
  {
    assert history[..n][..i + 1] == history[..i + 1];
  }

  ghost predicate NoneDecisive(th: Thresholds, history: seq<Event>) {
    forall i :: 0 <= i < |history| ==> !Decisive(th, history, i)
  }

  lemma LastInPrefix(th: Thresholds, history: seq<Event>, n: nat)
    requires |history| == n + 1 && !Decisive(th, history, n)
    ensures forall i: nat :: LastDecisive(th, history, i) ==> i < n && LastDecisive(th, history[..n], i)
    ensures NoneDecisive(th, history) ==> NoneDecisive(th, history[..n])
  {
    forall i: nat | i < n ensures Decisive(th, history[..n], i) <==> Decisive(th, history, i) {
      DecisiveInPrefix(th, history, i, n);
    }
  }

  lemma {:induction false} StatusFollows(th: Thresholds, start: Status, history: seq<Event>)
    requires th.success > 0 && th.failure > 0
    ensures forall i: nat :: LastDecisive(th, history, i) ==> After(th, start, history).status == Effect(history[i])
    ensures NoneDecisive(th, history) ==> After(th, start, history).status == start
    decreases |history|
  {
    if history != [] {
      var n := |history| - 1;
      LastEventSettles(th, start, history);
      if !Decisive(th, history, n) {
        StatusFollows(th, start, history[..n]);
        LastInPrefix(th, history, n);
      }
    }
  }

  /** For every history, the status kept step by step is the effect of the last decisive event,
      or the initial status if there was none; and the two streaks are never both positive. */
  lemma StatusIsLastDecisive(th: Thresholds, start: Status, history: seq<Event>)
    requires th.success > 0 && th.failure > 0
    ensures forall i: nat :: LastDecisive(th, history, i) ==> After(th, start, history).status == Effect(history[i])
    ensures NoneDecisive(th, history) ==> After(th, start, history).status == start
    ensures After(th, start, history).successes == 0 || After(th, start, history).failures == 0
  {
    StatusFollows(th, start, history);
    NeverBothStreaks(th, start, history);
  }

  /** Maintenance lasts exactly until the next decisive event: probes that reach their threshold end it. */
  lemma MaintenanceLastsExactly(th: Thresholds, start: Status, history: seq<Event>)
    requires th.success > 0 && th.failure > 0 && start != Maintenance
    ensures After(th, start, history).status == Maintenance <==>
            exists i: nat :: LastDecisive(th, history, i) && history[i] == MaintenanceOn
  {
    StatusIsLastDecisive(th, start, history);
    if exists i :: 0 <= i < |history| && Decisive(th, history, i) {
      var i := LastOne(th, history);
      assert LastDecisive(th, history, i);
      forall k: nat | LastDecisive(th, history, k) ensures k == i {}
    }
  }

  lemma LastOne(th: Thresholds, history: seq<Event>) returns (i: nat)
    requires exists k :: 0 <= k < |history| && Decisive(th, history, k)
    ensures LastDecisive(th, history, i)
  {
    i := |history| - 1;
    while !Decisive(th, history, i)
      invariant i < |history| && forall j :: i < j < |history| ==> !Decisive(th, history, j)
      invariant exists k :: 0 <= k <= i && Decisive(th, history, k)
      decreases i
    {
      i := i - 1;
    }
  }

  /** One successful probe can end maintenance: the run before the switch still counts. */
  lemma MaintenanceEndsByProbe()
    ensures After(InForce(None), Unknown, [Success, MaintenanceOn]).status == Maintenance
    ensures After(InForce(None), Unknown, [Success, MaintenanceOn, Success]).status == Healthy
  {
    var h := [Success, MaintenanceOn, Success];
    assert h[..2] == [Success, MaintenanceOn] && h[..2][..1] == [Success] && h[..2][..1][..0] == [];
  }

  // ----- The backend object -----

  class Backend {
    const id: string
    var enabled: bool
    var weight: int
    var maxConcurrent: int
    var healthCheck: Option<Thresholds>
    var status: Status
    var failureStreak: nat
    var successStreak: nat
    var active: int
    var total: int
    var errors: int

    constructor (id: string, enabled: bool, weight: int, maxConcurrent: int, healthCheck: Option<Thresholds>)
      ensures this.id == id && this.enabled == enabled && this.maxConcurrent == maxConcurrent &&
          this.healthCheck == healthCheck
      ensures this.weight == (if weight < 0 then 1 else weight)
      ensures Vitals() == Health(Unknown, 0, 0) && active == total == errors == 0
    {
      this.id, this.enabled, this.maxConcurrent, this.healthCheck := id, enabled, maxConcurrent, healthCheck;
      this.weight := if weight < 0 then 1 else weight;
      status, failureStreak, successStreak := Unknown, 0, 0;
      active, total, errors := 0, 0, 0;
    }

    function Vitals(): Health
      reads this
    {
      Health(status, failureStreak, successStreak)
    }

    function CurrentStatus(): Status
      reads this
    {
      if !enabled then Disabled else if status == Blank then Unknown else status
    }

    method RecordHealthCheck(success: bool) returns (changed: bool, newStatus: Status)
      modifies this`status, this`failureStreak, this`successStreak
      ensures Vitals() == Next(InForce(healthCheck), old(Vitals()), if success then Success else Failure)
      ensures changed <==> status != old(status)
      ensures newStatus == status
    {
      var prev := status;
      var threshFail, threshSucc := 3, 2;
      if healthCheck.Some? {
        if healthCheck.value.failure > 0 { threshFail := healthCheck.value.failure; }
        if healthCheck.value.success > 0 { threshSucc := healthCheck.value.success; }
      }
      if success {
        successStreak := successStreak + 1;
        failureStreak := 0;
        if prev != Healthy && successStreak >= threshSucc { status := Healthy; }
      } else {
        failureStreak := failureStreak + 1;
        successStreak := 0;
        if prev != Unhealthy && failureStreak >= threshFail { status := Unhealthy; }
        if prev == Blank || prev == Unknown {
          if failureStreak >= threshFail { status := Unhealthy; }
        }
      }
      return prev != status, status;
    }

    method MarkDegraded()
      modifies this`status, this`failureStreak, this`successStreak
      ensures Vitals() == Next(InForce(healthCheck), old(Vitals()), SoftFailure)
    {
      status := Degraded;
      failureStreak, successStreak := 0, 0;
    }

    method MarkMaintenance(on: bool)
      modifies this`status, this`failureStreak, this`successStreak
      ensures Vitals() == Next(InForce(healthCheck), old(Vitals()), if on then MaintenanceOn else MaintenanceOff)
    {
      if on {
        status := Maintenance;
      } else {
        status := Unknown;
        failureStreak, successStreak := 0, 0;
      }
    }

    function Counters(): Slots.Slot
      reads this
    {
      Slots.Slot(maxConcurrent, active, total, errors)
    }

    method AcquireSlot() returns (ok: bool)
      modifies this`active, this`total
      ensures ok <==> maxConcurrent <= 0 || old(active) < maxConcurrent
      ensures active - old(active) == total - old(total) == if ok then 1 else 0
      ensures Counters() == Slots.Acquire(old(Counters()))
    {
      if maxConcurrent > 0 && active >= maxConcurrent { return false; }
      active, total := active + 1, total + 1;
      return true;
    }

    method ReleaseSlot(success: bool)
      modifies this`active, this`errors
      ensures active == (if old(active) > 0 then old(active) - 1 else old(active))
      ensures errors == (if success then old(errors) else old(errors) + 1)
      ensures Counters() == Slots.Release(old(Counters()), success)
    {
      if active > 0 { active := active - 1; }
      if !success { errors := errors + 1; }
    }

    /** May new traffic be sent here? */
    predicate Routable(allowDegraded: bool)
      reads this
    {
      && enabled
      && (status == Healthy || status == Unknown || status == Blank || (status == Degraded && allowDegraded))
      && weight != 0
      && !Slots.Full(Counters())
    }
  }

  function Filtered(bs: seq<Backend>, allowDegraded: bool): seq<Backend>
    reads bs
  {
    if bs == [] then []
    else
      var n := |bs| - 1;
      Filtered(bs[..n], allowDegraded) + (if bs[n].Routable(allowDegraded) then [bs[n]] else [])
  }

  /** Filtering keeps exactly the routable backends, in order. */
  lemma {:induction false} FilteredMembers(bs: seq<Backend>, allowDegraded: bool)
    ensures forall b :: b in Filtered(bs, allowDegraded) <==> b in bs && b.Routable(allowDegraded)
    decreases |bs|
  {
    if bs != [] {
      var n := |bs| - 1;
      FilteredMembers(bs[..n], allowDegraded);
      assert bs == bs[..n] + [bs[n]];
    }
  }

  method FilterRoutable(bs: seq<Backend>, allowDegraded: bool) returns (out: seq<Backend>)
    ensures out == Filtered(bs, allowDegraded)
    ensures forall b :: b in out <==>
              && b in bs && b.enabled && b.weight != 0 && (b.maxConcurrent <= 0 || b.active < b.maxConcurrent)
              && b.status !in {Unhealthy, Disabled, Maintenance} && (b.status == Degraded ==> allowDegraded)
  {
    out := [];
    for i := 0 to |bs|
      invariant out == Filtered(bs[..i], allowDegraded)
    {
      var b := bs[i];
      assert bs[..i + 1][..i] == bs[..i] && bs[..i + 1][i] == b;
      if !b.enabled { continue; }
      match b.CurrentStatus() {
        case Healthy =>
        case Unknown =>
        case Degraded => if !allowDegraded { continue; }
        case _ => continue;
      }
      if b.weight == 0 { continue; }
      if b.maxConcurrent > 0 && b.active >= b.maxConcurrent { continue; }
      out := out + [b];
    }
    assert bs[..|bs|] == bs;
    FilteredMembers(bs, allowDegraded);
  }

  // ----- One worker call, seen alone -----

  datatype Reply = NotSent | Unreachable | Answered(status: int, decodes: bool, choices: nat)

  datatype Outcome = NoBackend | AtCapacity | BuildFailed | CallFailed | BadStatus | BadBody | NoChoices | Completed

  predicate Accepted(reply: Reply) { reply.Answered? && 200 <= reply.status < 300 }

  /** What a dispatched call comes to: the status is judged before the body. */
  function Verdict(reply: Reply): Outcome {
    match reply
    case NotSent => BuildFailed
    case Unreachable => CallFailed
    case Answered(_, decodes, choices) =>
      if !Accepted(reply) then BadStatus else if !decodes then BadBody else if choices == 0 then NoChoices
          else Completed
  }

  /** The pick at `i` is a backend without a free slot. */
  predicate Busy(picks: seq<Option<Backend>>, i: nat)
    requires i < |picks|
    reads set j | 0 <= j < |picks| && picks[j].Some? :: picks[j].value
  {
    picks[i].Some? && Slots.Full(picks[i].value.Counters())
  }

  /** The first pick from `i` on that is not a busy backend, or the end. */
  function FirstNotBusy(picks: seq<Option<Backend>>, i: nat): (k: nat)
    requires i <= |picks|
    reads set j | 0 <= j < |picks| && picks[j].Some? :: picks[j].value
    ensures i <= k <= |picks| && (k < |picks| ==> !Busy(picks, k)) && forall j :: i <= j < k ==> Busy(picks, j)
    decreases |picks| - i
  {
    if i == |picks| || !Busy(picks, i) then i else FirstNotBusy(picks, i + 1)
  }

  /** The first of at most three picks that grants a slot. */
  method TakeSlot(picks: seq<Option<Backend>>) returns (used: Option<Backend>, missing: bool)
    requires |picks| == 3
    modifies set i | 0 <= i < |picks| && picks[i].Some? :: picks[i].value
    ensures var k := old(FirstNotBusy(picks, 0));
            used == (if k < 3 then picks[k] else None) && (missing <==> k < 3 && picks[k].None?)
    ensures forall i :: 0 <= i < 3 && picks[i].Some? ==>
              picks[i].value.Counters() == if used == picks[i] then Slots.Acquire(old(picks[i].value.Counters()))
                  else old(picks[i].value.Counters())
  {
    used, missing := None, false;
    var attempts := 0;
    while attempts < 3
      invariant 0 <= attempts <= 3 && old(FirstNotBusy(picks, 0)) == old(FirstNotBusy(picks, attempts))
      invariant forall i :: 0 <= i < 3 && picks[i].Some? ==> picks[i].value.Counters() == old(picks[i].value.Counters())
    {
      if picks[attempts].None? { return None, true; }
      var picked := picks[attempts].value;
      var ok := picked.AcquireSlot();
      if ok { return Some(picked), false; }
      assert old(Busy(picks, attempts));
      attempts := attempts + 1;
    }
  }

  /** Dispatches to the first of at most three picks that grants a slot. `picks` are the balancer's choices, `None`
      where no backend was routable. On every exit path the slot is back; the call is counted once on the backend that
      granted it, as an error exactly when no 2xx answer came. */
  method CallWorker(picks: seq<Option<Backend>>, reply: Reply) returns (outcome: Outcome, used: Option<Backend>)
    requires |picks| == 3
    requires forall i :: 0 <= i < 3 && picks[i].Some? ==> picks[i].value.active >= 0
    modifies set i | 0 <= i < |picks| && picks[i].Some? :: picks[i].value
    ensures var k := old(FirstNotBusy(picks, 0));
            && used == (if k < 3 then picks[k] else None)
            && outcome == if k == 3 then AtCapacity else if picks[k].None? then NoBackend else Verdict(reply)
    ensures used.Some? ==>
              && (outcome.Completed? <==>
                  reply.Answered? && 200 <= reply.status <= 299 && reply.decodes && reply.choices > 0)
              && (outcome.BuildFailed? <==> reply.NotSent?) && (outcome.CallFailed? <==> reply.Unreachable?)
              && (outcome.BadStatus? <==> reply.Answered? && !(200 <= reply.status <= 299))
              && (outcome.BadBody? ==> !reply.decodes) && (outcome.NoChoices? ==> reply.choices == 0 && reply.decodes)
    ensures used.Some? ==>
              used.value.errors - old(used.value.errors) ==
              if reply.Answered? && 200 <= reply.status <= 299 then 0 else 1
    ensures forall i :: 0 <= i < 3 && picks[i].Some? ==>
              var c, before := picks[i].value.Counters(), old(picks[i].value.Counters());
              c == if used != picks[i] then before
                  else before.(total := before.total + 1, errors := before.errors + (if Accepted(reply) then 0 else 1))
  {
    var missing;
    used, missing := TakeSlot(picks);
    if used.None? { return if missing then NoBackend else AtCapacity, None; }
    var be := used.value;
    match reply {
      case NotSent =>
        be.ReleaseSlot(false);
        return BuildFailed, used;
      case Unreachable =>
        be.ReleaseSlot(false);
        return CallFailed, used;
      case Answered(status, decodes, choices) =>
        var success := 200 <= status < 300;
        be.ReleaseSlot(success);
        if !success { return BadStatus, used; }
        if !decodes { return BadBody, used; }
        if choices == 0 { return NoChoices, used; }
        return Completed, used;
    }
  }
}
