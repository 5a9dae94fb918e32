/** Alerts, the hooks their changes queue, and the incidents those hooks open and resolve, over whole runs. */
module Lifecycle {
  import opened Json
  import opened Alerts
  import opened Incidents

  datatype Hook =
    | OpenIncident(fp: Fingerprint, title: string)
    | Recovery(fps: set<Fingerprint>)

  /** `notices` are the notifications handed out so far. */
  datatype System = System(now: int, alerts: Table, hooks: seq<Hook>, incidents: Log, notices: seq<Fingerprint>)

  const START := System(0, map[], [], Log(map[], 0), [])

  /** The steps of a run. An alert write and the queueing of its hook are one step. The program starts a goroutine for
      every hook, so hooks may run in any order, and a hook need not get through: a recovery hook runs one statement per
      fingerprint, under a context that is cancelled as soon as the pass or the request that queued it returns, and gives
      up at the first statement that fails. */
  datatype Action =
    | Report(breach: Breach)                                  // the evaluator finds a condition breached
    | Heartbeat(device: nat)                                  // a device reports in
    | Close(desired: map<AlertKind, set<Fingerprint>>)        // the end of an evaluator pass
    | Deliver(i: nat, reached: set<Fingerprint>)              // the i-th waiting hook runs, and gets through for these
    | DrawNumber                                              // an incident number is drawn elsewhere, or in vain
    | Wait(seconds: nat)
    | ManualResolve(fp: Fingerprint)                          // an operator resolves an alert: no hook
    | LostClose(desired: map<AlertKind, set<Fingerprint>>)    // a pass fails after closing alerts: no hook

  function CloseSet(t: Table, desired: map<AlertKind, set<Fingerprint>>): set<Fingerprint> {
    set fp | fp in t && t[fp].resolvedAt.None? && t[fp].kind in desired && fp !in desired[t[fp].kind]
  }

  /** The alerts an action resolves. */
  function Resolves(s: System, a: Action): set<Fingerprint> {
    match a
    case Heartbeat(d) => if d == 0 then {} else OfflineAlertsOf(s.alerts, d)
    case Close(desired) => CloseSet(s.alerts, desired)
    case ManualResolve(fp) => if IsOpen(s.alerts, fp) then {fp} else {}
    case LostClose(desired) => CloseSet(s.alerts, desired)
    case _ => {}
  }

  /** The part of a hook that gets through. */
  function Part(h: Hook, reached: set<Fingerprint>): (p: seq<Hook>)
    ensures |p| <= 1
  {
    match h
    case OpenIncident(fp, _) => if fp in reached then [h] else []
    case Recovery(fps) => if fps * reached == {} then [] else [Recovery(fps * reached)]
  }

  function RunAll(l: Log, hooks: seq<Hook>, now: int): Log {
    if hooks == [] then l else Run1(RunAll(l, hooks[..|hooks| - 1], now), hooks[|hooks| - 1], now)
  }

  function Run1(l: Log, h: Hook, now: int): Log {
    match h
    case OpenIncident(fp, title) => Opened(l, fp, title, Critical, now)
    case Recovery(fps) => AutoResolved(l, fps)
  }

  function QueueRecovery(hooks: seq<Hook>, fps: set<Fingerprint>): seq<Hook> {
    if fps == {} then hooks else hooks + [Recovery(fps)]
  }

  function Without<T>(xs: seq<T>, i: nat): (rest: seq<T>)
    requires i < |xs|
    ensures |rest| == |xs| - 1
  {
    xs[..i] + xs[i + 1..]
  }

  function Step(s: System, a: Action): System {
    match a
    case Report(b) =>
      s.(alerts := Upsert(s.alerts, b, s.now),
         hooks := if b.severity == Critical then s.hooks + [OpenIncident(b.fp, b.title)] else s.hooks,
         notices := if ShouldNotify(s.alerts, b, s.now) then s.notices + [b.fp] else s.notices)
    case Heartbeat(_) =>
      s.(alerts := Resolve(s.alerts, Resolves(s, a), s.now), hooks := QueueRecovery(s.hooks, Resolves(s, a)))
    case Close(_) =>
      s.(alerts := Resolve(s.alerts, Resolves(s, a), s.now), hooks := QueueRecovery(s.hooks, Resolves(s, a)))
    case Deliver(i, reached) =>
      if i >= |s.hooks| then s
      else s.(hooks := Without(s.hooks, i), incidents := RunAll(s.incidents, Part(s.hooks[i], reached), s.now))
    case DrawNumber => s.(incidents := Drawn(s.incidents))
    case Wait(d) => s.(now := s.now + d)
    case ManualResolve(_) => s.(alerts := Resolve(s.alerts, Resolves(s, a), s.now))
    case LostClose(_) => s.(alerts := Resolve(s.alerts, Resolves(s, a), s.now))
  }

  /** The state before the n-th action. */
  function After(s: System, run: seq<Action>, n: nat): System
    requires n <= |run|
  {
    if n == 0 then s else Step(After(s, run, n - 1), run[n - 1])
  }

  /** The alerts that the k-th action resolves. */
  function ResolvedAt(s: System, run: seq<Action>, k: nat): set<Fingerprint>
    requires k < |run|
  {
    Resolves(After(s, run, k), run[k])
  }

  predicate Notifies(s: System, a: Action, fp: Fingerprint) {
    a.Report? && a.breach.fp == fp && Step(s, a).notices == s.notices + [fp]
  }

  // ----- notification cadence -----

  lemma {:induction false} TimeAdvances(s: System, run: seq<Action>, i: nat, j: nat)
    requires i <= j <= |run|
    ensures After(s, run, i).now <= After(s, run, j).now
    decreases j
  {
    if i < j {
      TimeAdvances(s, run, i, j - 1);
    }
  }

  /** Open, and last notified no earlier than t. */
  predicate NotifiedSince(s: System, fp: Fingerprint, t: int) {
    IsOpen(s.alerts, fp) && s.alerts[fp].lastNotifiedAt.Some? && s.alerts[fp].lastNotifiedAt.value >= t
  }

  lemma {:induction false} StaysNotified(s: System, a: Action, fp: Fingerprint, t: int)
    requires NotifiedSince(s, fp, t) && fp !in Resolves(s, a) && s.now >= t
    ensures NotifiedSince(Step(s, a), fp, t)
  {
  }

  lemma {:induction false} NotifyingStep(s: System, a: Action, fp: Fingerprint)
    requires Notifies(s, a, fp)
    ensures NotifiedSince(Step(s, a), fp, s.now)
  {
  }

  lemma {:induction false} NotifiedNext(s: System, run: seq<Action>, fp: Fingerprint, i: nat, j: nat)
    requires i < j - 1 < |run| && fp !in ResolvedAt(s, run, j - 1)
    requires NotifiedSince(After(s, run, j - 1), fp, After(s, run, i).now)
    ensures NotifiedSince(After(s, run, j), fp, After(s, run, i).now)
  {
    TimeAdvances(s, run, i, j - 1);
    StaysNotified(After(s, run, j - 1), run[j - 1], fp, After(s, run, i).now);
  }

  lemma {:induction false} NotifiedUntil(s: System, run: seq<Action>, fp: Fingerprint, i: nat, j: nat)
    requires i < j <= |run| && Notifies(After(s, run, i), run[i], fp)
    requires forall k | i < k < j :: fp !in ResolvedAt(s, run, k)
    ensures NotifiedSince(After(s, run, j), fp, After(s, run, i).now)
    decreases j
  {
    if j == i + 1 {
      NotifyingStep(After(s, run, i), run[i], fp);
    } else {
      NotifiedUntil(s, run, fp, i, j - 1);
      assert fp !in ResolvedAt(s, run, j - 1);
      NotifiedNext(s, run, fp, i, j);
    }
  }

  /** Two notifications for one fingerprint are at least the cooldown apart, unless the alert was resolved in
      between; in every run, with heartbeats, closings and manual resolutions anywhere. */
  lemma {:induction false} NotificationCadence(s: System, run: seq<Action>, fp: Fingerprint, i: nat, j: nat)
    requires i < j < |run|
    requires Notifies(After(s, run, i), run[i], fp) && Notifies(After(s, run, j), run[j], fp)
    ensures (exists k | i < k < j :: fp in ResolvedAt(s, run, k))
         || After(s, run, j).now - After(s, run, i).now >= Cooldown(run[j].breach)
  {
    if forall k | i < k < j :: fp !in ResolvedAt(s, run, k) {
      NotifiedUntil(s, run, fp, i, j);
    }
  }

  // ----- openings and recoveries -----

  /** One of the first m actions is an opening, and none of them later is a recovery. */
  predicate CallsFor(openings: set<nat>, recoveries: set<nat>, m: nat) {
    exists k | k in openings :: k < m && NoneBetween(recoveries, k, m)
  }

  predicate NoneBetween(recoveries: set<nat>, k: nat, m: nat) { forall j | j in recoveries :: !(k < j < m) }

  lemma {:induction false} CallsForStep(openings: set<nat>, recoveries: set<nat>, m: nat)
    requires m > 0
    ensures CallsFor(openings, recoveries, m)
       <==> m - 1 in openings || (CallsFor(openings, recoveries, m - 1) && m - 1 !in recoveries)
  {
    if CallsFor(openings, recoveries, m) {
      var k :| k in openings && k < m && NoneBetween(recoveries, k, m);
      if k < m - 1 { assert NoneBetween(recoveries, k, m - 1); }
    }
    if m - 1 in openings { assert NoneBetween(recoveries, m - 1, m); }
    if CallsFor(openings, recoveries, m - 1) && m - 1 !in recoveries {
      var k :| k in openings && k < m - 1 && NoneBetween(recoveries, k, m - 1);
      assert NoneBetween(recoveries, k, m);
    }
  }

  // ----- exactly when a report notifies -----

  predicate ReportOf(a: Action, fp: Fingerprint) { a.Report? && a.breach.fp == fp }

  /** The actions of a run that report a fingerprint, and those that resolve its alert. */
  function ReportsOf(run: seq<Action>, fp: Fingerprint): set<nat> { set k: nat | k < |run| && ReportOf(run[k], fp) }

  function ResolutionsOf(run: seq<Action>, fp: Fingerprint): set<nat> {
    set k: nat | k < |run| && fp in ResolvedAt(START, run, k)
  }

  /** When a report of the fingerprint last notified, before the n-th action. */
  function NoticedAt(run: seq<Action>, n: nat, fp: Fingerprint): Option<int>
    requires n <= |run|
  {
    if n == 0 then None
    else if Notifies(After(START, run, n - 1), run[n - 1], fp) then Some(After(START, run, n - 1).now)
    else NoticedAt(run, n - 1, fp)
  }

  lemma {:induction false} AlertChange(s: System, a: Action, fp: Fingerprint)
    ensures var t := Step(s, a);
      if ReportOf(a, fp) then
        && IsOpen(t.alerts, fp) && fp !in Resolves(s, a)
        && (Notifies(s, a, fp) ==> t.alerts[fp].lastNotifiedAt == Some(s.now))
        && (!Notifies(s, a, fp) ==> IsOpen(s.alerts, fp) && t.alerts[fp].lastNotifiedAt == s.alerts[fp].lastNotifiedAt)
      else
        && !Notifies(s, a, fp)
        && (IsOpen(t.alerts, fp) <==> IsOpen(s.alerts, fp) && fp !in Resolves(s, a))
        && (IsOpen(t.alerts, fp) ==> t.alerts[fp].lastNotifiedAt == s.alerts[fp].lastNotifiedAt)
  {
    if ReportOf(a, fp) && !ShouldNotify(s.alerts, a.breach, s.now) { assert |Step(s, a).notices| == |s.notices|; }
  }

  lemma {:induction false} NoticeDecision(s: System, a: Action, fp: Fingerprint)
    requires ReportOf(a, fp)
    ensures Notifies(s, a, fp) <==>
      !IsOpen(s.alerts, fp) || s.alerts[fp].lastNotifiedAt.None?
      || s.now - s.alerts[fp].lastNotifiedAt.value >= (if a.breach.cooldown > 0 then a.breach.cooldown else 3600)
  {
    if !ShouldNotify(s.alerts, a.breach, s.now) { assert |Step(s, a).notices| == |s.notices|; }
  }

  /** An alert is open exactly if it was reported and not resolved since. */
  lemma {:induction false} OpenIffReported(run: seq<Action>, n: nat, fp: Fingerprint)
    requires n <= |run|
    ensures IsOpen(After(START, run, n).alerts, fp) <==> CallsFor(ReportsOf(run, fp), ResolutionsOf(run, fp), n)
  {
    if n > 0 {
      OpenIffReported(run, n - 1, fp);
      var s, a := After(START, run, n - 1), run[n - 1];
      AlertChange(s, a, fp);
      CallsForStep(ReportsOf(run, fp), ResolutionsOf(run, fp), n);
      assert n - 1 in ReportsOf(run, fp) <==> ReportOf(a, fp);
      assert n - 1 in ResolutionsOf(run, fp) <==> fp in Resolves(s, a);
    }
  }

  /** An open alert carries the time of its last notification. */
  predicate Stamped(t: Table, fp: Fingerprint, at: Option<int>) {
    IsOpen(t, fp) ==> at.Some? && t[fp].lastNotifiedAt == at
  }

  lemma {:induction false} StampStep(s: System, a: Action, fp: Fingerprint, at: Option<int>, t: System, at': Option<int>)
    requires Stamped(s.alerts, fp, at) && t == Step(s, a)
    requires at' == if Notifies(s, a, fp) then Some(s.now) else at
    ensures Stamped(t.alerts, fp, at')
  {
    AlertChange(s, a, fp);
  }

  lemma {:induction false} OpenIsStamped(run: seq<Action>, n: nat, fp: Fingerprint)
    requires n <= |run|
    ensures Stamped(After(START, run, n).alerts, fp, NoticedAt(run, n, fp))
  {
    if n > 0 {
      OpenIsStamped(run, n - 1, fp);
      StampStep(After(START, run, n - 1), run[n - 1], fp, NoticedAt(run, n - 1, fp),
                After(START, run, n), NoticedAt(run, n, fp));
    }
  }

  /** In every run, a report of a fingerprint notifies exactly if none before it is unresolved, or the last notification
      about it is at least the cooldown ago: an hour, if the report gives none. */
  lemma {:induction false} NotifiesIff(run: seq<Action>, n: nat, fp: Fingerprint)
    requires n < |run| && ReportOf(run[n], fp)
    ensures Notifies(After(START, run, n), run[n], fp) <==>
      || !CallsFor(ReportsOf(run, fp), ResolutionsOf(run, fp), n)
      || (NoticedAt(run, n, fp).Some?
          && After(START, run, n).now - NoticedAt(run, n, fp).value
             >= (if run[n].breach.cooldown > 0 then run[n].breach.cooldown else 3600))
  {
    OpenIffReported(run, n, fp);
    NoticeDecision(After(START, run, n), run[n], fp);
    OpenIsStamped(run, n, fp);
  }

  // ----- alerts and incidents -----

  /** What a hook does to the number of active incidents of a fingerprint, while incident numbers last. */
  function Effect(h: Hook, fp: Fingerprint, active: nat): nat {
    match h
    case OpenIncident(f, _) => if f == fp then 1 else active
    case Recovery(fps) => if fp in fps then 0 else active
  }

  /** The number of active incidents of a fingerprint after some hooks, in this order. */
  function Pending(hooks: seq<Hook>, fp: Fingerprint): nat {
    if hooks == [] then 0 else Effect(hooks[|hooks| - 1], fp, Pending(hooks[..|hooks| - 1], fp))
  }

  lemma {:induction false} PendingAppend(hooks: seq<Hook>, h: Hook, fp: Fingerprint)
    ensures Pending(hooks + [h], fp) == Effect(h, fp, Pending(hooks, fp))
  {
    assert (hooks + [h])[..|hooks|] == hooks;
  }

  /** The hook that an action queues, if any. */
  function NewHooks(s: System, a: Action): (hs: seq<Hook>)
    ensures |hs| <= 1
  {
    match a
    case Report(b) => if b.severity == Critical then [OpenIncident(b.fp, b.title)] else []
    case Heartbeat(_) => if Resolves(s, a) == {} then [] else [Recovery(Resolves(s, a))]
    case Close(_) => if Resolves(s, a) == {} then [] else [Recovery(Resolves(s, a))]
    case _ => []
  }

  predicate Takes(s: System, a: Action) { a.Deliver? && a.i < |s.hooks| }

  /** What an action gets through of the hook that it runs, if any. */
  function RunHooks(s: System, a: Action): (hs: seq<Hook>)
    ensures |hs| <= 1
  {
    if Takes(s, a) then Part(s.hooks[a.i], a.reached) else []
  }

  lemma {:induction false} StepHooks(s: System, a: Action)
    ensures Step(s, a).hooks == if Takes(s, a) then Without(s.hooks, a.i) else s.hooks + NewHooks(s, a)
  {
    if NewHooks(s, a) == [] { assert s.hooks + [] == s.hooks; }
  }

  // ----- the books of a run -----

  /** All hooks queued, in that order; the place in the queue of each waiting hook; what each hook that has run got through
      for, by its place in the queue; and what got through, in the order it ran. */
  datatype Books = Books(queued: seq<Hook>, places: seq<nat>, fates: map<nat, set<Fingerprint>>, done: seq<Hook>)

  function Entered(b: Books, s: System, a: Action): (c: Books)
    requires |b.places| == |s.hooks|
    ensures |c.places| == |Step(s, a).hooks|
  {
    StepHooks(s, a);
    if Takes(s, a) then
      b.(places := Without(b.places, a.i), fates := b.fates[b.places[a.i] := a.reached],
         done := b.done + Part(s.hooks[a.i], a.reached))
    else
      b.(queued := b.queued + NewHooks(s, a),
         places := if NewHooks(s, a) == [] then b.places else b.places + [|b.queued|])
  }

  /** The books before the n-th action. */
  function BooksOf(run: seq<Action>, n: nat): (b: Books)
    requires n <= |run|
    ensures |b.places| == |After(START, run, n).hooks|
  {
    if n == 0 then Books([], [], map[], []) else Entered(BooksOf(run, n - 1), After(START, run, n - 1), run[n - 1])
  }

  /** Waiting hooks are where the books say, each in a place of its own, and have not run. */
  predicate Placed(b: Books, waiting: seq<Hook>) {
    && |b.places| == |waiting|
    && (forall j | 0 <= j < |b.places| :: b.places[j] < |b.queued| && b.queued[b.places[j]] == waiting[j])
    && (forall j | 0 <= j < |b.places| :: b.places[j] !in b.fates)
    && (forall i, j | 0 <= i < j < |b.places| :: b.places[i] != b.places[j])
  }

  /** Every hook that was queued waits or has run. */
  predicate Complete(b: Books) {
    (forall k | k in b.fates :: k < |b.queued|) && forall k: nat | k < |b.queued| :: k in b.fates || k in b.places
  }

  lemma {:induction false} WithoutAt<T>(xs: seq<T>, i: nat)
    requires i < |xs|
    ensures forall j | 0 <= j < |xs| - 1 :: Without(xs, i)[j] == xs[if j < i then j else j + 1]
  {
  }

  lemma {:induction false} TakingKeepsPlaces(b: Books, s: System, a: Action)
    requires Placed(b, s.hooks) && Takes(s, a)
    ensures Placed(Entered(b, s, a), Step(s, a).hooks)
  {
    StepHooks(s, a);
    OnePlaceLess(b, s.hooks, a.i, a.reached, Entered(b, s, a).done);
  }

  lemma {:induction false} OnePlaceLess(b: Books, waiting: seq<Hook>, i: nat, reached: set<Fingerprint>, done: seq<Hook>)
    requires Placed(b, waiting) && i < |waiting|
    ensures Placed(b.(places := Without(b.places, i), fates := b.fates[b.places[i] := reached], done := done),
                   Without(waiting, i))
  {
    WithoutAt(b.places, i);
    WithoutAt(waiting, i);
  }

  lemma {:induction false} TakingKeepsComplete(b: Books, s: System, a: Action)
    requires Placed(b, s.hooks) && Complete(b) && Takes(s, a)
    ensures Complete(Entered(b, s, a))
  {
    var c := Entered(b, s, a);
    forall k: nat | k < |b.queued| && k !in b.fates && k != b.places[a.i] ensures k in c.places {
      var j :| 0 <= j < |b.places| && b.places[j] == k;
      WithoutAt(b.places, a.i);
      assert c.places[if j < a.i then j else j - 1] == k;
    }
  }

  lemma {:induction false} QueueingKeepsPlaces(b: Books, s: System, a: Action)
    requires Placed(b, s.hooks) && Complete(b) && !Takes(s, a)
    ensures Placed(Entered(b, s, a), Step(s, a).hooks)
  {
    StepHooks(s, a);
    if NewHooks(s, a) == [] {
      assert s.hooks + [] == s.hooks && b.queued + [] == b.queued;
    } else {
      assert NewHooks(s, a) == [NewHooks(s, a)[0]];
      OneMorePlace(b, s.hooks, NewHooks(s, a)[0]);
    }
  }

  lemma {:induction false} OneMorePlace(b: Books, waiting: seq<Hook>, h: Hook)
    requires Placed(b, waiting) && Complete(b)
    ensures Placed(b.(queued := b.queued + [h], places := b.places + [|b.queued|]), waiting + [h])
  {
  }

  lemma {:induction false} QueueingKeepsComplete(b: Books, s: System, a: Action)
    requires |b.places| == |s.hooks| && Complete(b) && !Takes(s, a)
    ensures Complete(Entered(b, s, a))
  {
    var c := Entered(b, s, a);
    if NewHooks(s, a) != [] {
      assert c.places[|b.places|] == |b.queued| && forall k | k in b.places :: k in c.places;
    }
  }

  // ----- incidents are what got through -----

  /** Reports are about assets, which have an id. */
  predicate Regular(a: Action) { a.Report? ==> a.breach.fp.device != 0 }

  predicate AllRegular(run: seq<Action>) { forall k | 0 <= k < |run| :: Regular(run[k]) }

  predicate HooksHaveDevices(hooks: seq<Hook>) { forall h | h in hooks && h.OpenIncident? :: h.fp.device != 0 }

  lemma {:induction false} WaitingHaveDevices(run: seq<Action>, n: nat)
    requires n <= |run| && AllRegular(run)
    ensures HooksHaveDevices(After(START, run, n).hooks)
  {
    if n > 0 {
      WaitingHaveDevices(run, n - 1);
      assert Regular(run[n - 1]);
      StepHooks(After(START, run, n - 1), run[n - 1]);
    }
  }

  lemma {:induction false} NumbersOnlyGrow(run: seq<Action>, m: nat, n: nat)
    requires m <= n <= |run|
    ensures After(START, run, m).incidents.last <= After(START, run, n).incidents.last
    decreases n
  {
    if m < n {
      NumbersOnlyGrow(run, m, n - 1);
      NumbersGrow(After(START, run, n - 1), run[n - 1]);
    }
  }

  lemma {:induction false} NumbersGrow(s: System, a: Action)
    ensures s.incidents.last <= Step(s, a).incidents.last
  {
    if Takes(s, a) && RunHooks(s, a) != [] { RunOne(s.incidents, RunHooks(s, a), s.now); }
  }

  lemma {:induction false} RunOne(l: Log, hooks: seq<Hook>, now: int)
    requires |hooks| == 1
    ensures RunAll(l, hooks, now) == Run1(l, hooks[0], now)
  {
    assert RunAll(l, hooks[..0], now) == l;
  }

  lemma {:induction false} DeliveryEffect(l: Log, h: Hook, now: int, fp: Fingerprint)
    requires Consistent(l) && (h.OpenIncident? ==> h.fp.device != 0) && Run1(l, h, now).last <= MAX_NUMBER
    ensures Consistent(Run1(l, h, now)) && |ActiveFor(Run1(l, h, now), fp)| == Effect(h, fp, |ActiveFor(l, fp)|)
  {
    match h
    case OpenIncident(f, title) =>
      OpeningActivates(l, f, title, Critical, now);
      if f != fp { assert ActiveFor(Run1(l, h, now), fp) == ActiveFor(l, fp); }
    case Recovery(fps) =>
      RecoveryDeactivates(l, fps);
  }

  /** There is one active incident of the fingerprint if the last of these hooks about it opened one, and else none. */
  predicate AsDelivered(l: Log, done: seq<Hook>, fp: Fingerprint) {
    Consistent(l) && |ActiveFor(l, fp)| == Pending(done, fp)
  }

  predicate DeliveredAt(run: seq<Action>, n: nat, fp: Fingerprint)
    requires n <= |run|
  {
    AsDelivered(After(START, run, n).incidents, BooksOf(run, n).done, fp)
  }

  /** Incidents are what the hooks made of them that got through, in the order they ran, in every run that has not used up
      the incident numbers. */
  lemma {:induction false} DeliveredDecides(run: seq<Action>, n: nat, fp: Fingerprint)
    requires n <= |run| && AllRegular(run) && After(START, run, n).incidents.last <= MAX_NUMBER
    ensures DeliveredAt(run, n, fp)
  {
    if n > 0 {
      NumbersOnlyGrow(run, n - 1, n);
      DeliveredDecides(run, n - 1, fp);
      WaitingHaveDevices(run, n - 1);
      DeliversNext(run, n, fp);
    }
  }

  lemma {:induction false} DeliversNext(run: seq<Action>, n: nat, fp: Fingerprint)
    requires 0 < n <= |run| && DeliveredAt(run, n - 1, fp)
    requires HooksHaveDevices(After(START, run, n - 1).hooks) && After(START, run, n).incidents.last <= MAX_NUMBER
    ensures DeliveredAt(run, n, fp)
  {
    var s, a, b, c, t := After(START, run, n - 1), run[n - 1], BooksOf(run, n - 1), BooksOf(run, n), After(START, run, n);
    EntryDelivers(b, s, a, fp, c, t);
  }

  lemma {:induction false} EntryDelivers(b: Books, s: System, a: Action, fp: Fingerprint, c: Books, t: System)
    requires |b.places| == |s.hooks| && c == Entered(b, s, a) && t == Step(s, a)
    requires AsDelivered(s.incidents, b.done, fp) && HooksHaveDevices(s.hooks) && t.incidents.last <= MAX_NUMBER
    ensures AsDelivered(t.incidents, c.done, fp)
  {
    StepDelivers(s, a, b.done, fp);
    assert b.done + [] == b.done;
  }

  lemma {:induction false} StepDelivers(s: System, a: Action, done: seq<Hook>, fp: Fingerprint)
    requires Consistent(s.incidents) && HooksHaveDevices(s.hooks) && Step(s, a).incidents.last <= MAX_NUMBER
    requires |ActiveFor(s.incidents, fp)| == Pending(done, fp)
    ensures Consistent(Step(s, a).incidents)
    ensures |ActiveFor(Step(s, a).incidents, fp)| == Pending(done + RunHooks(s, a), fp)
  {
    var p := RunHooks(s, a);
    if p == [] {
      assert done + p == done;
      assert ActiveFor(Step(s, a).incidents, fp) == ActiveFor(s.incidents, fp);
    } else {
      assert p == [p[0]];
      RunOne(s.incidents, p, s.now);
      PartHasDevice(s.hooks[a.i], a.reached);
      DeliveryEffect(s.incidents, p[0], s.now, fp);
      PendingAppend(done, p[0], fp);
    }
  }

  lemma {:induction false} PartHasDevice(h: Hook, reached: set<Fingerprint>)
    requires (h.OpenIncident? ==> h.fp.device != 0) && Part(h, reached) != []
    ensures Part(h, reached)[0].OpenIncident? ==> Part(h, reached)[0].fp.device != 0
  {
  }

  datatype Last = NoHook | Opens | Recovers

  predicate About(h: Hook, fp: Fingerprint) {
    match h case OpenIncident(f, _) => f == fp case Recovery(fps) => fp in fps
  }

  /** What the last hook about a fingerprint does. */
  function LastAbout(hooks: seq<Hook>, fp: Fingerprint): Last {
    if hooks == [] then NoHook
    else
      var h := hooks[|hooks| - 1];
      if About(h, fp) then if h.OpenIncident? then Opens else Recovers else LastAbout(hooks[..|hooks| - 1], fp)
  }

  lemma {:induction false} LastDecides(hooks: seq<Hook>, fp: Fingerprint)
    ensures Pending(hooks, fp) == if LastAbout(hooks, fp) == Opens then 1 else 0
    ensures LastAbout(hooks, fp).NoHook? <==> !SomeAbout(hooks, fp)
  {
    if hooks != [] {
      var most := hooks[..|hooks| - 1];
      LastDecides(most, fp);
      assert hooks == most + [hooks[|hooks| - 1]];
      assert hooks[|hooks| - 1] in hooks && forall h | h in most :: h in hooks;
    }
  }

  predicate SomeAbout(hooks: seq<Hook>, fp: Fingerprint) { exists h | h in hooks :: About(h, fp) }

  // ----- what the order of queueing would give -----

  /** What got through so far, in the order it was queued. */
  function Parts(queued: seq<Hook>, fates: map<nat, set<Fingerprint>>): seq<Hook> {
    if queued == [] then []
    else
      var n := |queued| - 1;
      Parts(queued[..n], fates) + if n in fates then Part(queued[n], fates[n]) else []
  }

  lemma {:induction false} PartsSnoc(queued: seq<Hook>, h: Hook, fates: map<nat, set<Fingerprint>>)
    ensures Parts(queued + [h], fates) == Parts(queued, fates) + if |queued| in fates then Part(h, fates[|queued|]) else []
  {
    assert (queued + [h])[..|queued|] == queued;
  }

  predicate Through(fates: map<nat, set<Fingerprint>>, q: nat, fp: Fingerprint) { q in fates && fp in fates[q] }

  /** The hook that the k-th action queued has run before the n-th, and got through for the fingerprint. */
  predicate GotThrough(run: seq<Action>, n: nat, k: nat, fp: Fingerprint)
    requires k < n <= |run|
  {
    Through(BooksOf(run, n).fates, |BooksOf(run, k).queued|, fp)
  }

  predicate ReportsCritical(a: Action, fp: Fingerprint) {
    a.Report? && a.breach.fp == fp && a.breach.severity == Critical
  }

  predicate Recovers1(s: System, a: Action, fp: Fingerprint) { (a.Heartbeat? || a.Close?) && fp in Resolves(s, a) }

  /** The reports of a critical condition for which an incident was opened or refreshed before the n-th action. */
  function Openings(run: seq<Action>, n: nat, fp: Fingerprint): set<nat>
    requires n <= |run|
  {
    set k: nat | k < n && ReportsCritical(run[k], fp) && GotThrough(run, n, k, fp)
  }

  /** The heartbeats and closings because of which the incident recovered before the n-th action. */
  function Recoveries(run: seq<Action>, n: nat, fp: Fingerprint): set<nat>
    requires n <= |run|
  {
    set k: nat | k < n && Recovers1(After(START, run, k), run[k], fp) && GotThrough(run, n, k, fp)
  }

  /** An incident is called for: it was opened, and no recovery queued later got through. */
  predicate IncidentDue(run: seq<Action>, n: nat, fp: Fingerprint)
    requires n <= |run|
  {
    CallsFor(Openings(run, n, fp), Recoveries(run, n, fp), n)
  }

  lemma {:induction false} LastAppend(hooks: seq<Hook>, p: seq<Hook>, fp: Fingerprint)
    requires |p| <= 1
    ensures LastAbout(hooks + p, fp)
         == if p != [] && About(p[0], fp) then if p[0].OpenIncident? then Opens else Recovers else LastAbout(hooks, fp)
  {
    if p == [] { assert hooks + p == hooks; } else { assert (hooks + p)[..|hooks|] == hooks; }
  }

  lemma {:induction false} PartIsAbout(h: Hook, reached: set<Fingerprint>, fp: Fingerprint)
    ensures (Part(h, reached) != [] && About(Part(h, reached)[0], fp)) <==> About(h, fp) && fp in reached
    ensures Part(h, reached) != [] ==> (Part(h, reached)[0].OpenIncident? <==> h.OpenIncident?)
  {
    if h.Recovery? { assert fp in h.fps * reached <==> fp in h.fps && fp in reached; }
  }

  lemma {:induction false} NewHookIsAbout(s: System, a: Action, fp: Fingerprint)
    ensures ReportsCritical(a, fp) <==> NewHooks(s, a) != [] && About(NewHooks(s, a)[0], fp) && NewHooks(s, a)[0].OpenIncident?
    ensures Recovers1(s, a, fp) <==> NewHooks(s, a) != [] && About(NewHooks(s, a)[0], fp) && NewHooks(s, a)[0].Recovery?
  {
  }

  lemma {:induction false} NextInQueue(q: seq<Hook>, fates: map<nat, set<Fingerprint>>, s: System, a: Action, fp: Fingerprint)
    ensures LastAbout(Parts(q + NewHooks(s, a), fates), fp)
         == if !Through(fates, |q|, fp) then LastAbout(Parts(q, fates), fp)
            else if ReportsCritical(a, fp) then Opens
            else if Recovers1(s, a, fp) then Recovers
            else LastAbout(Parts(q, fates), fp)
  {
    NewHookIsAbout(s, a, fp);
    if NewHooks(s, a) == [] {
      assert q + NewHooks(s, a) == q;
    } else {
      var h := NewHooks(s, a)[0];
      assert NewHooks(s, a) == [h];
      PartsSnoc(q, h, fates);
      var p := if |q| in fates then Part(h, fates[|q|]) else [];
      if |q| in fates { PartIsAbout(h, fates[|q|], fp); }
      LastAppend(Parts(q, fates), p, fp);
    }
  }

  lemma {:induction false} QueuedNext(run: seq<Action>, m: nat)
    requires 0 < m <= |run|
    ensures BooksOf(run, m).queued == BooksOf(run, m - 1).queued + NewHooks(After(START, run, m - 1), run[m - 1])
  {
    assert BooksOf(run, m - 1).queued + [] == BooksOf(run, m - 1).queued;
  }

  lemma {:induction false} DecidesStep(q: seq<Hook>, q': seq<Hook>, fates: map<nat, set<Fingerprint>>, s: System, a: Action,
                                       fp: Fingerprint, openings: set<nat>, recoveries: set<nat>, m: nat)
    requires m > 0 && q' == q + NewHooks(s, a)
    requires OrderDecides(q, fates, fp, openings, recoveries, m - 1)
    requires m - 1 in openings <==> ReportsCritical(a, fp) && Through(fates, |q|, fp)
    requires m - 1 in recoveries <==> Recovers1(s, a, fp) && Through(fates, |q|, fp)
    ensures OrderDecides(q', fates, fp, openings, recoveries, m)
  {
    CallsForStep(openings, recoveries, m);
    NextInQueue(q, fates, s, a, fp);
  }

  /** The openings and recoveries are those of the run whose hooks met these fates. */
  predicate Counted(run: seq<Action>, fates: map<nat, set<Fingerprint>>, fp: Fingerprint, openings: set<nat>,
                    recoveries: set<nat>, m: nat)
    requires m <= |run|
  {
    forall k: nat | k < m :: CountedAt(run, fates, fp, openings, recoveries, k)
  }

  predicate CountedAt(run: seq<Action>, fates: map<nat, set<Fingerprint>>, fp: Fingerprint, openings: set<nat>,
                      recoveries: set<nat>, k: nat)
    requires k < |run|
  {
    var through := Through(fates, |BooksOf(run, k).queued|, fp);
    && (k in openings <==> ReportsCritical(run[k], fp) && through)
    && (k in recoveries <==> Recovers1(After(START, run, k), run[k], fp) && through)
  }

  predicate OrderDecides(queued: seq<Hook>, fates: map<nat, set<Fingerprint>>, fp: Fingerprint,
                         openings: set<nat>, recoveries: set<nat>, m: nat) {
    LastAbout(Parts(queued, fates), fp) == Opens <==> CallsFor(openings, recoveries, m)
  }

  lemma {:induction false} CountedLast(run: seq<Action>, fates: map<nat, set<Fingerprint>>, fp: Fingerprint,
                                       openings: set<nat>, recoveries: set<nat>, m: nat,
                                       q: seq<Hook>, q': seq<Hook>, s: System)
    requires 0 < m <= |run| && Counted(run, fates, fp, openings, recoveries, m)
    requires q == BooksOf(run, m - 1).queued && q' == BooksOf(run, m).queued && s == After(START, run, m - 1)
    ensures q' == q + NewHooks(s, run[m - 1])
    ensures m - 1 in openings <==> ReportsCritical(run[m - 1], fp) && Through(fates, |q|, fp)
    ensures m - 1 in recoveries <==> Recovers1(s, run[m - 1], fp) && Through(fates, |q|, fp)
  {
    QueuedNext(run, m);
    assert CountedAt(run, fates, fp, openings, recoveries, m - 1);
  }

  predicate DecidesAt(run: seq<Action>, m: nat, fates: map<nat, set<Fingerprint>>, fp: Fingerprint, openings: set<nat>,
                      recoveries: set<nat>)
    requires m <= |run|
  {
    OrderDecides(BooksOf(run, m).queued, fates, fp, openings, recoveries, m)
  }

  lemma {:induction false} DecidesNext(run: seq<Action>, m: nat, fates: map<nat, set<Fingerprint>>, fp: Fingerprint,
                                       openings: set<nat>, recoveries: set<nat>)
    requires 0 < m <= |run| && Counted(run, fates, fp, openings, recoveries, m)
    requires DecidesAt(run, m - 1, fates, fp, openings, recoveries)
    ensures DecidesAt(run, m, fates, fp, openings, recoveries)
  {
    var q, q', s := BooksOf(run, m - 1).queued, BooksOf(run, m).queued, After(START, run, m - 1);
    CountedLast(run, fates, fp, openings, recoveries, m, q, q', s);
    DecidesStep(q, q', fates, s, run[m - 1], fp, openings, recoveries, m);
  }

  lemma {:induction false} QueueOrderDecides(run: seq<Action>, m: nat, fates: map<nat, set<Fingerprint>>, fp: Fingerprint,
                                             openings: set<nat>, recoveries: set<nat>)
    requires m <= |run| && Counted(run, fates, fp, openings, recoveries, m)
    ensures DecidesAt(run, m, fates, fp, openings, recoveries)
  {
    if m == 0 {
      NothingQueued(run, fates, fp, openings, recoveries);
    } else {
      QueueOrderDecides(run, m - 1, fates, fp, openings, recoveries);
      DecidesNext(run, m, fates, fp, openings, recoveries);
    }
  }

  lemma {:induction false} NothingQueued(run: seq<Action>, fates: map<nat, set<Fingerprint>>, fp: Fingerprint,
                                         openings: set<nat>, recoveries: set<nat>)
    ensures DecidesAt(run, 0, fates, fp, openings, recoveries)
  {
    assert Parts(BooksOf(run, 0).queued, fates) == [];
  }

  lemma {:induction false} WhichCount(run: seq<Action>, n: nat, k: nat, fp: Fingerprint)
    requires k < n <= |run|
    ensures CountedAt(run, BooksOf(run, n).fates, fp, Openings(run, n, fp), Recoveries(run, n, fp), k)
  {
  }

  /** What got through, taken in the order of queueing, ends with an opening exactly if an incident is due. */
  lemma {:induction false} DueByQueueOrder(run: seq<Action>, n: nat, fp: Fingerprint)
    requires n <= |run|
    ensures IncidentDue(run, n, fp) <==> LastAbout(Parts(BooksOf(run, n).queued, BooksOf(run, n).fates), fp) == Opens
  {
    var fates, openings, recoveries := BooksOf(run, n).fates, Openings(run, n, fp), Recoveries(run, n, fp);
    forall k: nat | k < n ensures CountedAt(run, fates, fp, openings, recoveries, k) { WhichCount(run, n, k, fp); }
    QueueOrderDecides(run, n, fates, fp, openings, recoveries);
  }

  // ----- hooks that run in order -----

  /** Hooks run in the order they were queued. */
  predicate InOrder(run: seq<Action>) { forall k | 0 <= k < |run| && run[k].Deliver? :: run[k].i == 0 }

  /** The hooks that have run are those queued first. */
  predicate FirstHaveRun(b: Books) {
    && |b.places| <= |b.queued|
    && (forall j | 0 <= j < |b.places| :: b.places[j] == |b.queued| - |b.places| + j)
    && (forall k | k in b.fates :: k < |b.queued| - |b.places|)
    && forall k: nat | k < |b.queued| - |b.places| :: k in b.fates
  }

  lemma {:induction false} OnlyFirstHaveRun(queued: seq<Hook>, fates: map<nat, set<Fingerprint>>, c: nat)
    requires c <= |queued| && (forall k | k in fates :: k < c) && forall k: nat | k < c :: k in fates
    ensures Parts(queued, fates) == Parts(queued[..c], fates)
    decreases |queued|
  {
    if c < |queued| {
      assert queued[..|queued| - 1][..c] == queued[..c];
      OnlyFirstHaveRun(queued[..|queued| - 1], fates, c);
    } else {
      assert queued[..c] == queued;
    }
  }

  lemma {:induction false} OtherFates(queued: seq<Hook>, f: map<nat, set<Fingerprint>>, g: map<nat, set<Fingerprint>>)
    requires forall k: nat | k < |queued| :: (k in f <==> k in g) && (k in f ==> f[k] == g[k])
    ensures Parts(queued, f) == Parts(queued, g)
  {
    if queued != [] { OtherFates(queued[..|queued| - 1], f, g); }
  }

  lemma {:induction false} OneMoreRuns(queued: seq<Hook>, fates: map<nat, set<Fingerprint>>, c: nat, r: set<Fingerprint>)
    requires c < |queued| && (forall k | k in fates :: k < c) && forall k: nat | k < c :: k in fates
    ensures Parts(queued, fates[c := r]) == Parts(queued, fates) + Part(queued[c], r)
  {
    var g := fates[c := r];
    OnlyFirstHaveRun(queued, fates, c);
    OnlyFirstHaveRun(queued, g, c + 1);
    assert queued[..c + 1] == queued[..c] + [queued[c]];
    PartsSnoc(queued[..c], queued[c], g);
    OtherFates(queued[..c], fates, g);
  }

  lemma {:induction false} TakesFirst(b: Books, s: System, a: Action)
    requires |b.places| == |s.hooks| && FirstHaveRun(b) && Takes(s, a) && a.i == 0
    ensures FirstHaveRun(Entered(b, s, a))
  {
    WithoutAt(b.places, 0);
  }

  predicate BooksInOrder(b: Books) { FirstHaveRun(b) && Parts(b.queued, b.fates) == b.done }

  lemma {:induction false} TakingInOrder(b: Books, s: System, a: Action)
    requires Placed(b, s.hooks) && BooksInOrder(b) && Takes(s, a) && a.i == 0
    ensures BooksInOrder(Entered(b, s, a))
  {
    TakesFirst(b, s, a);
    OneMoreRuns(b.queued, b.fates, b.places[0], a.reached);
  }

  lemma {:induction false} QueueingInOrder(b: Books, s: System, a: Action)
    requires |b.places| == |s.hooks| && BooksInOrder(b) && !Takes(s, a)
    ensures BooksInOrder(Entered(b, s, a))
  {
    if NewHooks(s, a) == [] {
      assert b.queued + [] == b.queued;
    } else {
      assert NewHooks(s, a) == [NewHooks(s, a)[0]];
      PartsSnoc(b.queued, NewHooks(s, a)[0], b.fates);
      assert b.done + [] == b.done;
    }
  }

  // ----- that something got through -----

  predicate SomeFate(queued: seq<Hook>, fates: map<nat, set<Fingerprint>>, fp: Fingerprint) {
    exists k | k in fates :: k < |queued| && About(queued[k], fp) && fp in fates[k]
  }

  lemma {:induction false} AboutAppend(hooks: seq<Hook>, p: seq<Hook>, fp: Fingerprint)
    ensures SomeAbout(hooks + p, fp) <==> SomeAbout(hooks, fp) || SomeAbout(p, fp)
  {
    assert forall h :: h in hooks + p <==> h in hooks || h in p;
  }

  lemma {:induction false} PartSomeAbout(h: Hook, reached: set<Fingerprint>, fp: Fingerprint)
    ensures SomeAbout(Part(h, reached), fp) <==> About(h, fp) && fp in reached
  {
    PartIsAbout(h, reached, fp);
    var p := Part(h, reached);
    if p != [] { assert p == [p[0]] && p[0] in p; }
  }

  lemma {:induction false} LongerQueue(queued: seq<Hook>, n: nat, fates: map<nat, set<Fingerprint>>, fp: Fingerprint)
    requires |queued| == n + 1
    ensures SomeFate(queued, fates, fp)
       <==> SomeFate(queued[..n], fates, fp) || (n in fates && About(queued[n], fp) && fp in fates[n])
  {
  }

  lemma {:induction false} PartsSomeAbout(queued: seq<Hook>, fates: map<nat, set<Fingerprint>>, fp: Fingerprint)
    ensures SomeAbout(Parts(queued, fates), fp) <==> SomeFate(queued, fates, fp)
  {
    if queued != [] {
      var n := |queued| - 1;
      PartsSomeAbout(queued[..n], fates, fp);
      var p := if n in fates then Part(queued[n], fates[n]) else [];
      AboutAppend(Parts(queued[..n], fates), p, fp);
      if n in fates { PartSomeAbout(queued[n], fates[n], fp); }
      LongerQueue(queued, n, fates, fp);
    }
  }

  predicate FatesTell(b: Books, fp: Fingerprint) { SomeAbout(b.done, fp) <==> SomeFate(b.queued, b.fates, fp) }

  lemma {:induction false} EntrySomeAbout(b: Books, s: System, a: Action, fp: Fingerprint)
    requires Placed(b, s.hooks) && Complete(b) && FatesTell(b, fp)
    ensures FatesTell(Entered(b, s, a), fp)
  {
    if Takes(s, a) {
      AboutAppend(b.done, Part(s.hooks[a.i], a.reached), fp);
      PartSomeAbout(s.hooks[a.i], a.reached, fp);
      FateAdded(b.queued, b.fates, b.places[a.i], a.reached, fp);
    } else {
      FatesOfLonger(b.queued, NewHooks(s, a), b.fates, fp);
    }
  }

  lemma {:induction false} FateAdded(queued: seq<Hook>, f: map<nat, set<Fingerprint>>, k: nat, r: set<Fingerprint>,
                                     fp: Fingerprint)
    requires k < |queued| && k !in f
    ensures SomeFate(queued, f[k := r], fp) <==> SomeFate(queued, f, fp) || (About(queued[k], fp) && fp in r)
  {
    var g := f[k := r];
    if i :| i in f && i < |queued| && About(queued[i], fp) && fp in f[i] { assert i in g && g[i] == f[i]; }
    if About(queued[k], fp) && fp in r { assert k in g && g[k] == r; }
  }

  lemma {:induction false} FatesOfLonger(queued: seq<Hook>, more: seq<Hook>, f: map<nat, set<Fingerprint>>, fp: Fingerprint)
    requires forall k | k in f :: k < |queued|
    ensures SomeFate(queued + more, f, fp) <==> SomeFate(queued, f, fp)
  {
  }

  // ----- the books are right -----

  predicate Sound(b: Books, waiting: seq<Hook>, ordered: bool, fp: Fingerprint) {
    Placed(b, waiting) && Complete(b) && FatesTell(b, fp) && (ordered ==> BooksInOrder(b))
  }

  lemma {:induction false} EntryIsSound(b: Books, s: System, a: Action, ordered: bool, fp: Fingerprint, c: Books, t: System)
    requires Sound(b, s.hooks, ordered, fp) && c == Entered(b, s, a) && t == Step(s, a)
    requires ordered && a.Deliver? ==> a.i == 0
    ensures Sound(c, t.hooks, ordered, fp)
  {
    EntrySomeAbout(b, s, a, fp);
    if Takes(s, a) {
      TakingKeepsPlaces(b, s, a);
      TakingKeepsComplete(b, s, a);
      if ordered { TakingInOrder(b, s, a); }
    } else {
      QueueingKeepsPlaces(b, s, a);
      QueueingKeepsComplete(b, s, a);
      if ordered { QueueingInOrder(b, s, a); }
    }
  }

  lemma {:induction false} BooksAreSound(run: seq<Action>, n: nat, ordered: bool, fp: Fingerprint)
    requires n <= |run| && (ordered ==> InOrder(run))
    ensures SoundAt(run, n, ordered, fp)
  {
    if n > 0 {
      BooksAreSound(run, n - 1, ordered, fp);
      SoundNext(run, n, ordered, fp);
    }
  }

  predicate SoundAt(run: seq<Action>, n: nat, ordered: bool, fp: Fingerprint)
    requires n <= |run|
  {
    Sound(BooksOf(run, n), After(START, run, n).hooks, ordered, fp)
  }

  lemma {:induction false} SoundNext(run: seq<Action>, n: nat, ordered: bool, fp: Fingerprint)
    requires 0 < n <= |run| && (ordered ==> InOrder(run)) && SoundAt(run, n - 1, ordered, fp)
    ensures SoundAt(run, n, ordered, fp)
  {
    var b, s, a, c, t := BooksOf(run, n - 1), After(START, run, n - 1), run[n - 1], BooksOf(run, n), After(START, run, n);
    EntryIsSound(b, s, a, ordered, fp, c, t);
  }

  /** In every run: a queued hook waits or has run, exactly one of the two, and runs at most once. */
  lemma {:induction false} HooksAreConserved(run: seq<Action>, n: nat)
    requires n <= |run|
    ensures Placed(BooksOf(run, n), After(START, run, n).hooks) && Complete(BooksOf(run, n))
  {
    BooksAreSound(run, n, false, BuiltinOffline(0));
  }

  // ----- alerts and incidents agree -----

  /** Alerts and incidents, fingerprint by fingerprint, at any moment of any run with hooks run in order: there is an active
      incident exactly if one was opened, and since the report that opened it no recovery got through. There is never
      more than one. */
  lemma {:induction false} ActiveIncidentIff(run: seq<Action>, n: nat, fp: Fingerprint)
    requires n <= |run| && AllRegular(run) && InOrder(run) && After(START, run, n).incidents.last <= MAX_NUMBER
    ensures |ActiveFor(After(START, run, n).incidents, fp)| == if IncidentDue(run, n, fp) then 1 else 0
  {
    BooksAreSound(run, n, true, fp);
    DeliveredDecides(run, n, fp);
    LastDecides(BooksOf(run, n).done, fp);
    DueByQueueOrder(run, n, fp);
  }

  /** The k-th action is the last before the n-th to report the fingerprint as critical. */
  predicate LastReport(run: seq<Action>, n: nat, k: nat, fp: Fingerprint)
    requires n <= |run|
  {
    k < n && ReportsCritical(run[k], fp) && forall j | k < j < n :: !ReportsCritical(run[j], fp)
  }

  lemma {:induction false} AlertAfterStep(s: System, a: Action, fp: Fingerprint)
    requires fp in Step(s, a).alerts
    ensures var t := Step(s, a).alerts;
      if a.Report? && a.breach.fp == fp then IsOpen(t, fp) && t[fp].severity == a.breach.severity
      else fp in s.alerts && t[fp].severity == s.alerts[fp].severity
           && (if fp in Resolves(s, a) then t[fp].resolvedAt.Some? else t[fp].resolvedAt == s.alerts[fp].resolvedAt)
  {
  }

  /** No action after the k-th and before the n-th resolves the alert. */
  predicate Unresolved(run: seq<Action>, k: nat, n: nat, fp: Fingerprint)
    requires n <= |run|
  {
    forall j | k < j < n :: fp !in ResolvedAt(START, run, j)
  }

  lemma {:induction false} StillUnresolved(run: seq<Action>, n: nat, k: nat, fp: Fingerprint)
    requires 0 < n <= |run| && LastReport(run, n - 1, k, fp) && Unresolved(run, k, n - 1, fp)
    requires fp !in ResolvedAt(START, run, n - 1) && !ReportsCritical(run[n - 1], fp)
    ensures LastReport(run, n, k, fp) && Unresolved(run, k, n, fp)
  {
  }

  /** An open critical alert was reported, and not resolved since. */
  lemma {:induction false} OpenWasReported(run: seq<Action>, n: nat, fp: Fingerprint) returns (k: nat)
    requires n <= |run| && IsOpen(After(START, run, n).alerts, fp) && After(START, run, n).alerts[fp].severity == Critical
    ensures LastReport(run, n, k, fp) && Unresolved(run, k, n, fp)
  {
    var s, a := After(START, run, n - 1), run[n - 1];
    AlertAfterStep(s, a, fp);
    if a.Report? && a.breach.fp == fp {
      k := n - 1;
    } else {
      k := OpenWasReported(run, n - 1, fp);
      StillUnresolved(run, n, k, fp);
    }
  }

  lemma {:induction false} NotResolvedNotRecovered(run: seq<Action>, n: nat, k: nat, fp: Fingerprint)
    requires n <= |run| && Unresolved(run, k, n, fp)
    ensures NoneBetween(Recoveries(run, n, fp), k, n)
  {
    forall j | j in Recoveries(run, n, fp) ensures !(k < j < n) {
      assert fp in ResolvedAt(START, run, j);
    }
  }

  /** With hooks run in order: if the last critical report of a fingerprint opened or refreshed its incident, then, whether
      the alert is open or resolved by now and however it was resolved, the incident is active exactly if no recovery
      queued since then got through for it. In particular an open critical alert has exactly one active incident. */
  lemma {:induction false} IncidentFollowsAlert(run: seq<Action>, n: nat, k: nat, fp: Fingerprint)
    requires n <= |run| && AllRegular(run) && InOrder(run) && After(START, run, n).incidents.last <= MAX_NUMBER
    requires LastReport(run, n, k, fp) && GotThrough(run, n, k, fp)
    ensures |ActiveFor(After(START, run, n).incidents, fp)| == if NoneBetween(Recoveries(run, n, fp), k, n) then 1 else 0
    ensures var s := After(START, run, n);
      IsOpen(s.alerts, fp) && s.alerts[fp].severity == Critical ==> |ActiveFor(s.incidents, fp)| == 1
  {
    ActiveIncidentIff(run, n, fp);
    assert k in Openings(run, n, fp);
    if i :| i in Openings(run, n, fp) && i < n && NoneBetween(Recoveries(run, n, fp), i, n) {
      assert i <= k;
      assert NoneBetween(Recoveries(run, n, fp), k, n);
    }
    var s := After(START, run, n);
    if IsOpen(s.alerts, fp) && s.alerts[fp].severity == Critical {
      var i := OpenWasReported(run, n, fp);
      assert i == k;
      NotResolvedNotRecovered(run, n, k, fp);
    }
  }

  /** The run of every day in which they come apart: a device goes offline, an incident opens, the device reports in, and the
      request returns before the recovery hook has run its statement. Nothing else fails. */
  lemma {:induction false} HeartbeatLeavesIncident(b: Breach)
    requires b.severity == Critical && b.fp.device != 0 && !b.fp.RuleMetric?
    ensures var run := [Report(b), Deliver(0, {b.fp}), Heartbeat(b.fp.device), Deliver(0, {})];
      var s := After(START, run, 4);
      && InOrder(run) && s.hooks == []
      && b.fp in s.alerts && s.alerts[b.fp].resolvedAt.Some? && |ActiveFor(s.incidents, b.fp)| == 1
  {
    var run := [Report(b), Deliver(0, {b.fp}), Heartbeat(b.fp.device), Deliver(0, {})];
    assert After(START, run, 0) == START;
    var s1, s2, s3 := Step(START, run[0]), Step(Step(START, run[0]), run[1]), Step(Step(Step(START, run[0]), run[1]), run[2]);
    assert After(START, run, 1) == s1 && After(START, run, 2) == s2 && After(START, run, 3) == s3;
    assert s1.hooks == [] + [OpenIncident(b.fp, b.title)];
    FirstIncident(s1, b);
    LateRecovery(s2, b);
  }

  lemma {:induction false} LateRecovery(s: System, b: Breach)
    requires s.hooks == [] && IsOpen(s.alerts, b.fp) && s.alerts[b.fp].kind == KindOfAlert(b.fp) && !b.fp.RuleMetric?
    requires s.alerts[b.fp].device == Some(b.fp.device) && b.fp.device != 0
    ensures var t := Step(Step(s, Heartbeat(b.fp.device)), Deliver(0, {}));
      t.hooks == [] && b.fp in t.alerts && t.alerts[b.fp].resolvedAt.Some? && t.incidents == s.incidents
  {
    assert b.fp in OfflineAlertsOf(s.alerts, b.fp.device);
    var t := Step(s, Heartbeat(b.fp.device));
    assert t.hooks == [] + [Recovery(Resolves(s, Heartbeat(b.fp.device)))];
    assert Part(t.hooks[0], {}) == [];
  }

  lemma {:induction false} FirstIncident(s: System, b: Breach)
    requires s.hooks == [OpenIncident(b.fp, b.title)] && s.incidents == START.incidents && b.fp.device != 0
    ensures var t := Step(s, Deliver(0, {b.fp})); t.hooks == [] && t.alerts == s.alerts && |ActiveFor(t.incidents, b.fp)| == 1
  {
    OpeningActivates(s.incidents, b.fp, b.title, Critical, s.now);
    RunOne(s.incidents, [OpenIncident(b.fp, b.title)], s.now);
  }

  // ----- hooks that run in any order -----

  /** In every run, with hooks run in any order: the incidents of a fingerprint are what the order of queueing would have
      made of them, exactly if the last hook to get through for it is of the sort that was queued last among those that
      got through. */
  lemma {:induction false} ReorderingIsHarmlessIff(run: seq<Action>, n: nat, fp: Fingerprint)
    requires n <= |run| && AllRegular(run) && After(START, run, n).incidents.last <= MAX_NUMBER
    ensures |ActiveFor(After(START, run, n).incidents, fp)| == (if IncidentDue(run, n, fp) then 1 else 0)
       <==> LastAbout(BooksOf(run, n).done, fp) == LastAbout(Parts(BooksOf(run, n).queued, BooksOf(run, n).fates), fp)
  {
    DeliveredDecides(run, n, fp);
    DueByQueueOrder(run, n, fp);
    var b := BooksOf(run, n);
    var p, q := b.done, Parts(b.queued, b.fates);
    LastDecides(p, fp);
    LastDecides(q, fp);
    BooksAreSound(run, n, false, fp);
    PartsSomeAbout(b.queued, b.fates, fp);
  }

  /** Once the numbers are used up, the incident hook of a fingerprint without a row opens nothing. */
  lemma {:induction false} ExhaustedNumbersOpenNothing(s: System, i: nat, reached: set<Fingerprint>)
    requires i < |s.hooks| && s.hooks[i].OpenIncident? && s.hooks[i].fp.device != 0 && Consistent(s.incidents)
    requires s.incidents.last >= MAX_NUMBER && !Known(s.incidents, s.hooks[i].fp)
    ensures ActiveFor(Step(s, Deliver(i, reached)).incidents, s.hooks[i].fp) == {}
  {
    var h := s.hooks[i];
    OpeningActivates(s.incidents, h.fp, h.title, Critical, s.now);
    if h.fp in reached { RunOne(s.incidents, [h], s.now); }
    assert h.fp !in reached ==> ActiveFor(s.incidents, h.fp) == {};
  }

  // ----- evaluator passes -----

  predicate Kinds(s: System) { forall fp | fp in s.alerts :: s.alerts[fp].kind == KindOfAlert(fp) }

  lemma {:induction false} StepKeepsKinds(s: System, a: Action)
    requires Kinds(s)
    ensures Kinds(Step(s, a))
  {
  }

  lemma {:induction false} RunKeepsKinds(s: System, run: seq<Action>, n: nat)
    requires Kinds(s) && n <= |run|
    ensures Kinds(After(s, run, n))
    decreases n
  {
    if n > 0 {
      RunKeepsKinds(s, run, n - 1);
      StepKeepsKinds(After(s, run, n - 1), run[n - 1]);
    }
  }

  /** Closing keeps, of every kind it covers, the open alerts that are still breaching; it closes the others, and
      touches no other kind. */
  lemma {:induction false} CloseKeepsDesired(s: System, desired: map<AlertKind, set<Fingerprint>>)
    ensures var t := Step(s, Close(desired));
            && (forall kind | kind in desired :: OpenOf(t.alerts, kind) == OpenOf(s.alerts, kind) * desired[kind])
            && (forall fp | fp in s.alerts && s.alerts[fp].kind !in desired :: fp in t.alerts && t.alerts[fp] == s.alerts[fp])
  {
  }

  lemma {:induction false} StaysOpen(s: System, run: seq<Action>, fp: Fingerprint, i: nat, j: nat)
    requires i < j <= |run| && run[i].Report? && run[i].breach.fp == fp
    requires forall k | i < k < j :: fp !in ResolvedAt(s, run, k)
    ensures IsOpen(After(s, run, j).alerts, fp)
    decreases j
  {
    if j > i + 1 {
      StaysOpen(s, run, fp, i, j - 1);
      assert fp !in ResolvedAt(s, run, j - 1);
    }
  }

  /** The condition was reported during the run and its alert has not been resolved since. */
  predicate ReportedAndUnresolved(s: System, run: seq<Action>, fp: Fingerprint) {
    exists i: nat | i < |run| :: run[i].Report? && run[i].breach.fp == fp
      && forall k | i < k < |run| :: fp !in ResolvedAt(s, run, k)
  }

  /** At the end of a pass the open alerts of every covered kind are among the breaching conditions, and they are
      all of them if each was reported and nothing resolved it since. Heartbeats, deliveries, other reports and
      manual resolutions may come in between. */
  lemma {:induction false} PassLeavesBreaching(s: System, run: seq<Action>, desired: map<AlertKind, set<Fingerprint>>,
                                               kind: AlertKind)
    requires kind in desired && Kinds(s)
    requires forall fp | fp in desired[kind] :: KindOfAlert(fp) == kind
    ensures var t := Step(After(s, run, |run|), Close(desired));
            && OpenOf(t.alerts, kind) <= desired[kind]
            && ((forall fp | fp in desired[kind] :: ReportedAndUnresolved(s, run, fp)) ==>
                  OpenOf(t.alerts, kind) == desired[kind])
  {
    CloseKeepsDesired(After(s, run, |run|), desired);
    RunKeepsKinds(s, run, |run|);
    forall fp | fp in desired[kind] && ReportedAndUnresolved(s, run, fp)
      ensures fp in OpenOf(After(s, run, |run|).alerts, kind)
    {
      var i: nat :| i < |run| && run[i].Report? && run[i].breach.fp == fp
                 && forall k | i < k < |run| :: fp !in ResolvedAt(s, run, k);
      StaysOpen(s, run, fp, i, |run|);
    }
  }
}
