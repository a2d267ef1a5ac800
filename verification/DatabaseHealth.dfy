/**
 * The database supervisor, interleaved with any number of reporters. A status swap and the notification after it
 * are separate steps; a notification wakes the parked supervisor or stores the one permit there is.
 */
module DatabaseHealth {

  datatype Status = Starting | Ready | Degraded

  /** Where the supervisor is. */
  datatype Place =
    | Recovering      // awaiting a recovery attempt
    | SwappingReady   // recovered, about to report it
    | Checking        // at the loop condition of the wait
    | Waiting         // saw Ready, about to await a notification
    | Parked          // awaiting, without a permit
    | SwappingFailed  // recovery failed, about to report it
    | Notifying       // reported the failure, about to notify
    | Sleeping        // backing off

  /** `pending` reporters are between swap and notification; `slept` lists the sleeps since the last success. */
  datatype Health = Health(
    status: Status, permit: bool, place: Place, pending: nat, backoff: nat, slept: seq<nat>)

  datatype Backoff = Backoff(initial: nat, max: nat, limit: nat)

  datatype Step =
    | RecoverOk | RecoverErr | SwapReady | Check | Poll | SwapFailed | Notify | Sleep
    | ReportReady | ReportFailure | ReporterNotify

  function Start(config: Backoff): Health {
    Health(Starting, false, Recovering, 0, config.initial, [])
  }

  predicate Enabled(h: Health, step: Step) {
    match step
    case RecoverOk => h.place == Recovering
    case RecoverErr => h.place == Recovering
    case SwapReady => h.place == SwappingReady
    case Check => h.place == Checking
    case Poll => h.place == Waiting
    case SwapFailed => h.place == SwappingFailed
    case Notify => h.place == Notifying
    case Sleep => h.place == Sleeping
    case ReportReady => true
    case ReportFailure => true
    case ReporterNotify => h.pending > 0
  }

  function Min(a: nat, b: nat): nat {
    if a <= b then a else b
  }

  function NotifyOne(h: Health): Health {
    if h.place == Parked then h.(place := Checking) else h.(permit := true)
  }

  function Next(config: Backoff, h: Health, step: Step): Health
    requires Enabled(h, step)
  {
    match step
    case RecoverOk => h.(place := SwappingReady)
    case RecoverErr => h.(place := SwappingFailed)
    case SwapReady => h.(status := Ready, place := Checking, backoff := config.initial, slept := [])
    case Check => h.(place := if h.status == Ready then Waiting else Recovering)
    case Poll => if h.permit then h.(permit := false, place := Checking) else h.(place := Parked)
    case SwapFailed => h.(status := Degraded, place := Notifying)
    case Notify => NotifyOne(h).(place := Sleeping)
    case Sleep =>
      h.(place := Recovering, slept := h.slept + [h.backoff],
         backoff := Min(Min(h.backoff * 2, config.limit), config.max))
    case ReportReady => h.(status := Ready)
    case ReportFailure => h.(status := Degraded, pending := h.pending + 1)
    case ReporterNotify => NotifyOne(h).(pending := h.pending - 1)
  }

  predicate IsRun(config: Backoff, h: Health, steps: seq<Step>)
    decreases |steps|
  {
    steps == [] || (Enabled(h, steps[0]) && IsRun(config, Next(config, h, steps[0]), steps[1..]))
  }

  function After(config: Backoff, h: Health, steps: seq<Step>): Health
    requires IsRun(config, h, steps)
    decreases |steps|
  {
    if steps == [] then h else After(config, Next(config, h, steps[0]), steps[1..])
  }

  // ------------------------------------------------------------- wake-ups

  /** A supervisor that has decided to wait can rely on a permit or on a reporter that still has to notify. */
  predicate Safe(h: Health) {
    && (h.place in {Waiting, Parked} && !h.permit && h.status != Ready ==> h.pending > 0)
    && (h.place == Parked ==> !h.permit)
  }

  lemma {:induction false} SafeThroughout(config: Backoff, h: Health, steps: seq<Step>)
    requires Safe(h) && IsRun(config, h, steps)
    ensures Safe(After(config, h, steps))
    decreases |steps|
  {
    if steps != [] {
      SafeThroughout(config, Next(config, h, steps[0]), steps[1..]);
    }
  }

  /** In every interleaving: a supervisor parked while the database is not Ready is about to be notified. */
  lemma NoLostWakeUp(config: Backoff, steps: seq<Step>)
    requires IsRun(config, Start(config), steps)
    ensures var h := After(config, Start(config), steps);
            h.place == Parked && h.status != Ready ==> h.pending > 0
  {
    SafeThroughout(config, Start(config), steps);
  }

  /** The steps by which a waiting supervisor and the reporters before their notification go on. */
  predicate IsQuiet(step: Step) {
    step == Check || step == Poll || step == ReporterNotify
  }

  function Rank(place: Place): nat {
    match place
    case Waiting => 3
    case Parked => 2
    case Checking => 1
    case _ => 0
  }

  predicate IsWaiting(h: Health) {
    h.place in {Checking, Waiting, Parked}
  }

  /** While the database stays failed, some quiet step is enabled and every one of them brings recovery closer. */
  lemma QuietStepsApproachRecovery(config: Backoff, h: Health, step: Step)
    requires Safe(h) && IsWaiting(h) && h.status != Ready
    ensures Enabled(h, Check) || Enabled(h, Poll) || Enabled(h, ReporterNotify)
    ensures IsQuiet(step) && Enabled(h, step) ==>
              var next := Next(config, h, step);
              && Safe(next) && next.status == h.status
              && (next.place == Recovering || IsWaiting(next))
              && next.pending + Rank(next.place) < h.pending + Rank(h.place)
  {}

  /** The supervisor never enters a recovery attempt along the run. */
  predicate NeverRecovers(config: Backoff, h: Health, steps: seq<Step>)
    requires IsRun(config, h, steps)
    decreases |steps|
  {
    h.place != Recovering && (steps == [] || NeverRecovers(config, Next(config, h, steps[0]), steps[1..]))
  }

  function Reports(steps: seq<Step>): nat {
    if steps == [] then 0 else (if steps[0] == ReportFailure then 1 else 0) + Reports(steps[1..])
  }

  /** Another failure report keeps the database failed and costs at most its own notification. */
  lemma ReportIsHarmless(config: Backoff, h: Health)
    requires Safe(h) && IsWaiting(h) && h.status != Ready
    ensures var next := Next(config, h, ReportFailure);
            && Safe(next) && IsWaiting(next) && next.status != Ready
            && next.pending == h.pending + 1 && next.place == h.place
  {}

  /**
   * However the steps are scheduled, and however many failures are reported meanwhile: a failed database is attended
   * to within `pending + 3` steps and two more for each report, and the supervisor is never stuck before.
   */
  lemma {:induction false} RecoveryIsInevitable(config: Backoff, h: Health, steps: seq<Step>)
    requires Safe(h) && IsWaiting(h) && h.status != Ready
    requires IsRun(config, h, steps)
    requires forall i :: 0 <= i < |steps| ==> IsQuiet(steps[i]) || steps[i] == ReportFailure
    requires NeverRecovers(config, h, steps)
    ensures |steps| <= h.pending + Rank(h.place) + 2 * Reports(steps)
    ensures var last := After(config, h, steps);
            Enabled(last, Check) || Enabled(last, Poll) || Enabled(last, ReporterNotify)
    decreases |steps|
  {
    if steps == [] {
      QuietStepsApproachRecovery(config, h, Check);
    } else {
      QuietStepsApproachRecovery(config, h, steps[0]);
      ReportIsHarmless(config, h);
      RecoveryIsInevitable(config, Next(config, h, steps[0]), steps[1..]);
    }
  }

  // ------------------------------------------------------------- accounting

  function Times(step: Step, steps: seq<Step>): nat {
    if steps == [] then 0 else (if steps[0] == step then 1 else 0) + Times(step, steps[1..])
  }

  /** The status last reported, by the supervisor or by anyone else; `first` when nothing was. */
  function LastReport(first: Status, steps: seq<Step>): Status
    decreases |steps|
  {
    if steps == [] then first
    else if steps[0] == SwapReady || steps[0] == ReportReady then LastReport(Ready, steps[1..])
    else if steps[0] == SwapFailed || steps[0] == ReportFailure then LastReport(Degraded, steps[1..])
    else LastReport(first, steps[1..])
  }

  function At(h: Health, place: Place): nat {
    if h.place == place then 1 else 0
  }

  /** Each place is entered by one kind of step and left by another, which the counts of both have to show. */
  predicate Balances(before: Health, after: Health, steps: seq<Step>) {
    && after.status == LastReport(before.status, steps)
    && At(before, SwappingReady) + Times(RecoverOk, steps) == Times(SwapReady, steps) + At(after, SwappingReady)
    && At(before, SwappingFailed) + Times(RecoverErr, steps) == Times(SwapFailed, steps) + At(after, SwappingFailed)
    && At(before, Notifying) + Times(SwapFailed, steps) == Times(Notify, steps) + At(after, Notifying)
    && At(before, Sleeping) + Times(Notify, steps) == Times(Sleep, steps) + At(after, Sleeping)
    && before.pending + Times(ReportFailure, steps) == Times(ReporterNotify, steps) + after.pending
  }

  lemma StepBalances(config: Backoff, h: Health, step: Step)
    requires Enabled(h, step)
    ensures Balances(h, Next(config, h, step), [step])
  {
    assert [step][1..] == [];
  }

  lemma BalancesAdd(a: Health, b: Health, c: Health, steps: seq<Step>)
    requires steps != [] && Balances(a, b, [steps[0]]) && Balances(b, c, steps[1..])
    ensures Balances(a, c, steps)
  {
    FirstStepApart(a.status, steps);
    hide At, Times, LastReport;
  }

  lemma FirstStepApart(first: Status, steps: seq<Step>)
    requires steps != []
    ensures forall step :: Times(step, steps) == Times(step, [steps[0]]) + Times(step, steps[1..])
    ensures LastReport(first, steps) == LastReport(LastReport(first, [steps[0]]), steps[1..])
  {
    assert [steps[0]][1..] == [];
    assert LastReport(Ready, []) == Ready && LastReport(Degraded, []) == Degraded && LastReport(first, []) == first;
  }

  lemma {:induction false} RunBalances(config: Backoff, h: Health, steps: seq<Step>)
    requires IsRun(config, h, steps)
    ensures Balances(h, After(config, h, steps), steps)
    decreases |steps|
  {
    if steps != [] {
      hide Next, Balances, Enabled;
      StepBalances(config, h, steps[0]);
      RunBalances(config, Next(config, h, steps[0]), steps[1..]);
      BalancesAdd(h, Next(config, h, steps[0]), After(config, h, steps), steps);
    }
  }

  /**
   * In every run: the status is the last one reported. Every attempt that succeeds is reported Ready once, and every
   * one that fails is reported, notified and slept on, in this order and once each; every reported failure is notified
   * once.
   */
  lemma OutcomesAreReported(config: Backoff, steps: seq<Step>)
    requires IsRun(config, Start(config), steps)
    ensures var h := After(config, Start(config), steps);
            && h.status == LastReport(Starting, steps)
            && Times(RecoverOk, steps) == Times(SwapReady, steps) + (if h.place == SwappingReady then 1 else 0)
            && Times(RecoverErr, steps) == Times(SwapFailed, steps) + (if h.place == SwappingFailed then 1 else 0)
            && Times(SwapFailed, steps) == Times(Notify, steps) + (if h.place == Notifying then 1 else 0)
            && Times(Notify, steps) == Times(Sleep, steps) + (if h.place == Sleeping then 1 else 0)
            && Times(ReportFailure, steps) == Times(ReporterNotify, steps) + h.pending
  {
    RunBalances(config, Start(config), steps);
  }

  /** How often a wait ends: the supervisor is back at the loop condition after waiting. */
  function WakeUps(config: Backoff, h: Health, steps: seq<Step>): nat
    requires IsRun(config, h, steps)
    decreases |steps|
  {
    if steps == [] then 0
    else
      var next := Next(config, h, steps[0]);
      (if h.place in {Waiting, Parked} && next.place == Checking then 1 else 0) + WakeUps(config, next, steps[1..])
  }

  lemma {:induction false} WakeUpsAreNotified(config: Backoff, h: Health, steps: seq<Step>)
    requires IsRun(config, h, steps)
    ensures WakeUps(config, h, steps) + (if After(config, h, steps).permit then 1 else 0)
         <= Times(Notify, steps) + Times(ReporterNotify, steps) + (if h.permit then 1 else 0)
    decreases |steps|
  {
    if steps != [] {
      WakeUpsAreNotified(config, Next(config, h, steps[0]), steps[1..]);
    }
  }

  /** In every run each wake-up spends a notification of its own, and an unspent permit is one more of them. */
  lemma NotificationsAreSpentOnce(config: Backoff, steps: seq<Step>)
    requires IsRun(config, Start(config), steps)
    ensures WakeUps(config, Start(config), steps) + (if After(config, Start(config), steps).permit then 1 else 0)
         <= Times(Notify, steps) + Times(ReporterNotify, steps)
  {
    WakeUpsAreNotified(config, Start(config), steps);
  }

  // --------------------------------------------------------------- backoff

  function Pow2(k: nat): nat {
    if k == 0 then 1 else 2 * Pow2(k - 1)
  }

  /** The k-th sleep of a row of failures. */
  function SleepAt(config: Backoff, k: nat): nat {
    if k == 0 then config.initial else Min(config.initial * Pow2(k), config.max)
  }

  predicate BacksOff(config: Backoff, h: Health) {
    && h.backoff == SleepAt(config, |h.slept|)
    && forall k :: 0 <= k < |h.slept| ==> h.slept[k] == SleepAt(config, k)
  }

  lemma DoublingIsNextSleep(config: Backoff, k: nat)
    requires config.max <= config.limit
    ensures Min(Min(SleepAt(config, k) * 2, config.limit), config.max) == SleepAt(config, k + 1)
  {
    var doubled := config.initial * Pow2(k + 1);
    assert doubled == config.initial * Pow2(k) * 2 by {
      assert Pow2(k + 1) == 2 * Pow2(k);
      Reassociate(config.initial, Pow2(k));
    }
  }

  lemma Reassociate(a: nat, b: nat)
    ensures a * (2 * b) == a * b * 2
  {}

  lemma {:induction false} BacksOffThroughout(config: Backoff, h: Health, steps: seq<Step>)
    requires config.max <= config.limit && BacksOff(config, h) && IsRun(config, h, steps)
    ensures BacksOff(config, After(config, h, steps))
    decreases |steps|
  {
    if steps != [] {
      DoublingIsNextSleep(config, |h.slept|);
      BacksOffThroughout(config, Next(config, h, steps[0]), steps[1..]);
    }
  }

  /**
   * In every run, the k-th sleep since the last success is `initial * 2^k` capped at the maximum; that holds from
   * the first sleep on exactly when the initial backoff does not exceed the maximum.
   */
  lemma SleepsAreExponential(config: Backoff, steps: seq<Step>)
    requires config.max <= config.limit && IsRun(config, Start(config), steps)
    ensures var slept := After(config, Start(config), steps).slept;
            && (forall k :: 1 <= k < |slept| ==> slept[k] == Min(config.initial * Pow2(k), config.max))
            && (slept != [] ==>
                  (slept[0] == Min(config.initial * Pow2(0), config.max) <==> config.initial <= config.max))
  {
    BacksOffThroughout(config, Start(config), steps);
  }
}
