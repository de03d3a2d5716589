/**
 Progressive enrichment of the namespace list as a step system: a coordinator that publishes
 and replaces sessions, the runner of each session, and its workers. Each critical section
 and each channel operation is one step; API results are given with the step.
*/
module Enrichment {
  import opened Options

  /** `detail` stands for the fields of the details call, `summary` for those that enrichment sets. */
  datatype Row = Row(enriched: bool, detail: string, summary: string)

  const ZERO_ROW := Row(false, "", "")

  /** A worker: waiting for the semaphore, working, detail counted, both counted, or left on cancellation. */
  datatype Pc = Waiting | Working | Detailed | Done | Left

  datatype Phase =
    | New | FocusWait | FocusRun(workers: seq<Pc>, limit: nat)
    | SweepWait | SweepRun(workers: seq<Pc>, limit: nat)
    | Over

  datatype Session = Session(
    cluster: string, order: seq<string>, work: seq<string>, favs: seq<string>, sweep: seq<string>,
    merged: map<string, Row>, detailDone: nat, relatedDone: nat, total: nat, phase: Phase, cancelled: bool)

  datatype State = State(sessions: map<nat, Session>, current: map<string, nat>, nextRev: nat)

  const INIT := State(map[], map[], 0)

  // ----------------------------------------------------------------------- rows

  function RowAt(m: map<string, Row>, name: string): Row {
    if name in m then m[name] else ZERO_ROW
  }

  /** mergeNamespaceRowInto. */
  function MergeRow(dst: Row, src: Row): Row {
    if src.enriched then Row(true, dst.detail, src.summary) else dst
  }

  /** The rows for a new list, with what the old rows had been enriched with. */
  function Carried(prev: map<string, Row>, order: seq<string>, base: map<string, Row>): map<string, Row> {
    map name | name in order ::
      if name in prev && prev[name].enriched then MergeRow(RowAt(base, name), prev[name]) else RowAt(base, name)
  }

  /** The rows a poll shows and keeps, with cached projections merged in. */
  function Polled(merged: map<string, Row>, order: seq<string>, cached: map<string, Row>): map<string, Row> {
    map name <- merged.Keys + cached.Keys | name in merged || name in order ::
      if name in order && name in cached then MergeRow(RowAt(merged, name), cached[name]) else merged[name]
  }

  // ---------------------------------------------------------------------- steps

  datatype Action =
    | Begin(cluster: string, order: seq<string>, base: map<string, Row>, work: seq<string>, favs: seq<string>, sweep: seq<string>)
    | Start(rev: nat, sweepOn: bool, pause: bool, limit: int)
    | Quiet(rev: nat, limit: int)
    | WaitCancelled(rev: nat)
    | Acquire(rev: nat, i: nat)
    | Leave(rev: nat, i: nat)
    | ClientError(rev: nat, i: nat)
    | Detail(rev: nat, i: nat, fields: Option<string>)
    | NoDetail(rev: nat, i: nat)
    | PlaneError(rev: nat, i: nat)
    | Related(rev: nat, i: nat, metrics: Row)
    | BatchEnd(rev: nat, sweepOn: bool, pause: bool, limit: int)
    | Poll(cluster: string, rev: nat, cached: map<string, Row>)

  predicate SameTargets(s: Session, a: Action)
    requires a.Begin?
  {
    s.order == a.order && s.work == a.work && s.favs == a.favs && s.sweep == a.sweep
  }

  function NewSession(a: Action, merged: map<string, Row>): Session
    requires a.Begin?
  {
    Session(a.cluster, a.order, a.work, a.favs, a.sweep, merged, 0, 0, |a.work| + |a.sweep|, New, false)
  }

  function Published(st: State, a: Action, merged: map<string, Row>): State
    requires a.Begin?
  {
    var rev := st.nextRev + 1;
    State(st.sessions[rev := NewSession(a, merged)], st.current[a.cluster := rev], rev)
  }

  /** The cluster's session cancelled and taken out. */
  function Retired(st: State, cluster: string): State
    requires cluster in st.current && st.current[cluster] in st.sessions
  {
    var rev := st.current[cluster];
    st.(sessions := st.sessions[rev := st.sessions[rev].(cancelled := true)], current := st.current - {cluster})
  }

  /** The critical section of BeginNamespaceListProgressiveEnrichment. */
  function BeginStep(st: State, a: Action): State
    requires a.Begin?
  {
    if a.cluster in st.current && st.current[a.cluster] in st.sessions then
      var prev := st.current[a.cluster];
      var s := st.sessions[prev];
      if SameTargets(s, a) then
        st.(sessions := st.sessions[prev := s.(merged := Carried(s.merged, a.order, a.base))])
      else
        Published(Retired(st, a.cluster), a, Carried(s.merged, a.order, a.base))
    else Published(st, a, map name | name in a.order :: RowAt(a.base, name))
  }

  function Limit(limit: int): nat {
    if limit <= 0 then 1 else limit
  }

  function Workers(n: nat): seq<Pc> {
    seq(n, i => Waiting)
  }

  /** What follows the focused batch: the sweep, if there is one and it is on. */
  function ToSweep(s: Session, sweepOn: bool, pause: bool, limit: int): Phase {
    if |s.sweep| == 0 || !sweepOn then Over
    else if pause then SweepWait
    else SweepRun(Workers(|s.sweep|), Limit(limit))
  }

  predicate Running(p: Phase) {
    p.FocusRun? || p.SweepRun?
  }

  function Count(ws: seq<Pc>, pcs: set<Pc>): nat {
    if ws == [] then 0 else Count(ws[..|ws| - 1], pcs) + if ws[|ws| - 1] in pcs then 1 else 0
  }

  const HOLDING := {Working, Detailed}
  const DETAILED := {Detailed, Done}
  const FINISHED := {Done}

  function NameOf(s: Session, i: nat): string
    requires Running(s.phase) && i < |s.phase.workers| <= (if s.phase.FocusRun? then |s.work| else |s.sweep|)
  {
    if s.phase.FocusRun? then s.work[i] else s.sweep[i]
  }

  predicate Sized(s: Session) {
    (s.phase.FocusRun? ==> |s.phase.workers| == |s.work|) && (s.phase.SweepRun? ==> |s.phase.workers| == |s.sweep|)
  }

  /** Worker i of a running batch is at `pc`. */
  predicate At(s: Session, i: nat, pc: Pc) {
    Running(s.phase) && Sized(s) && i < |s.phase.workers| && s.phase.workers[i] == pc
  }

  function Move(s: Session, i: nat, pc: Pc): Session
    requires Running(s.phase) && i < |s.phase.workers|
  {
    s.(phase := s.phase.(workers := s.phase.workers[i := pc]))
  }

  predicate SomeLeft(ws: seq<Pc>) {
    Left in ws
  }

  predicate AllBack(ws: seq<Pc>) {
    forall w <- ws :: w == Done || w == Left
  }

  /** Whether an action of a session's runner or workers can happen. */
  predicate Enabled(s: Session, a: Action) {
    match a
    case Start(_, _, _, _) => s.phase == New
    case Quiet(_, _) => s.phase.FocusWait? || s.phase.SweepWait?
    case WaitCancelled(_) => (s.phase.FocusWait? || s.phase.SweepWait?) && s.cancelled
    case Acquire(_, i) => At(s, i, Waiting) && Count(s.phase.workers, HOLDING) < s.phase.limit
    case Leave(_, i) => At(s, i, Waiting) && (s.cancelled || SomeLeft(s.phase.workers))
    case ClientError(_, i) => At(s, i, Working)
    case Detail(_, i, _) => At(s, i, Working)
    case NoDetail(_, i) => At(s, i, Working)
    case PlaneError(_, i) => At(s, i, Detailed)
    case Related(_, i, _) => At(s, i, Detailed)
    case BatchEnd(_, _, _, _) => Running(s.phase) && AllBack(s.phase.workers)
    case _ => false
  }

  function SessionStep(s: Session, a: Action): Session
    requires Enabled(s, a)
  {
    match a
    case Start(_, sweepOn, pause, limit) =>
      s.(phase := if |s.work| > 0 then FocusWait else ToSweep(s, sweepOn, pause, limit))
    case Quiet(_, limit) =>
      s.(phase := if s.phase.FocusWait? then FocusRun(Workers(|s.work|), Limit(limit)) else SweepRun(Workers(|s.sweep|), Limit(limit)))
    case WaitCancelled(_) => s.(phase := Over)
    case Acquire(_, i) => Move(s, i, Working)
    case Leave(_, i) => Move(s, i, Left)
    case ClientError(_, i) => Move(s, i, Done).(detailDone := s.detailDone + 1, relatedDone := s.relatedDone + 1)
    case Detail(_, i, fields) =>
      var row := RowAt(s.merged, NameOf(s, i));
      var row' := if fields == None then row else row.(detail := fields.value);
      Move(s, i, Detailed).(merged := s.merged[NameOf(s, i) := row'], detailDone := s.detailDone + 1)
    case NoDetail(_, i) => Move(s, i, Detailed).(detailDone := s.detailDone + 1)
    case PlaneError(_, i) => Move(s, i, Done).(relatedDone := s.relatedDone + 1)
    case Related(_, i, metrics) =>
      Move(s, i, Done).(merged := s.merged[NameOf(s, i) := MergeRow(RowAt(s.merged, NameOf(s, i)), metrics)], relatedDone := s.relatedDone + 1)
    case BatchEnd(_, sweepOn, pause, limit) =>
      s.(phase := if s.phase.SweepRun? || SomeLeft(s.phase.workers) then Over else ToSweep(s, sweepOn, pause, limit))
  }

  /** A poll merges cached rows; the session it found may have been replaced by the time it does. */
  function PollStep(st: State, cluster: string, rev: nat, cached: map<string, Row>): State {
    if rev in st.sessions && st.sessions[rev].cluster == cluster then
      var s := st.sessions[rev];
      st.(sessions := st.sessions[rev := s.(merged := Polled(s.merged, s.order, cached))])
    else st
  }

  predicate Possible(st: State, a: Action) {
    a.Begin? || a.Poll? || (a.rev in st.sessions && Enabled(st.sessions[a.rev], a))
  }

  function Step(st: State, a: Action): State
    requires Possible(st, a)
  {
    if a.Begin? then BeginStep(st, a)
    else if a.Poll? then PollStep(st, a.cluster, a.rev, a.cached)
    else st.(sessions := st.sessions[a.rev := SessionStep(st.sessions[a.rev], a)])
  }

  // ------------------------------------------------------------------ invariants

  /** The counters are what the workers have done so far. */
  ghost predicate Counted(s: Session, ws: seq<Pc>, before: nat) {
    s.detailDone == before + Count(ws, DETAILED) && s.relatedDone == before + Count(ws, FINISHED)
  }

  ghost predicate Progress(s: Session) {
    && s.total == |s.work| + |s.sweep|
    && match s.phase
       case New => s.detailDone == s.relatedDone == 0
       case FocusWait => s.detailDone == s.relatedDone == 0
       case FocusRun(ws, limit) => |ws| == |s.work| && Counted(s, ws, 0) && Batch(s, ws, limit)
       case SweepWait => s.detailDone == s.relatedDone == |s.work|
       case SweepRun(ws, limit) => |ws| == |s.sweep| && Counted(s, ws, |s.work|) && Batch(s, ws, limit)
       case Over => s.relatedDone == s.detailDone <= s.total
  }

  /** The semaphore bounds the workers at work and lets at least one work, and only a cancelled session loses workers. */
  ghost predicate Batch(s: Session, ws: seq<Pc>, limit: nat) {
    Count(ws, HOLDING) <= limit && limit >= 1 && (SomeLeft(ws) ==> s.cancelled)
  }

  /** Exactly the current sessions are not cancelled, and revisions are below the next one. */
  ghost predicate Registered(st: State) {
    && (forall rev <- st.sessions :: 0 < rev <= st.nextRev)
    && (forall c <- st.current :: st.current[c] in st.sessions && st.sessions[st.current[c]].cluster == c)
    && (forall rev <- st.sessions ::
          st.sessions[rev].cancelled <==> !(st.sessions[rev].cluster in st.current && st.current[st.sessions[rev].cluster] == rev))
  }

  ghost predicate Inv(st: State) {
    Registered(st) && forall rev <- st.sessions :: Progress(st.sessions[rev])
  }

  // --------------------------------------------------------------------- counting

  lemma {:induction false} CountMove(ws: seq<Pc>, i: nat, pc: Pc, pcs: set<Pc>)
    requires i < |ws|
    ensures Count(ws[i := pc], pcs) + (if ws[i] in pcs then 1 else 0) == Count(ws, pcs) + if pc in pcs then 1 else 0
  {
    var n := |ws| - 1;
    if i == n {
      assert ws[i := pc][..n] == ws[..n];
    } else {
      CountMove(ws[..n], i, pc, pcs);
      assert ws[i := pc][..n] == ws[..n][i := pc];
    }
  }

  lemma {:induction false} CountBounds(ws: seq<Pc>)
    ensures Count(ws, FINISHED) <= Count(ws, DETAILED) <= |ws|
  {
    if ws != [] {
      CountBounds(ws[..|ws| - 1]);
    }
  }

  lemma {:induction false} CountNew(n: nat, pcs: set<Pc>)
    requires Waiting !in pcs
    ensures Count(Workers(n), pcs) == 0
    ensures forall w <- Workers(n) :: w == Waiting
  {
    if n > 0 {
      assert Workers(n)[..n - 1] == Workers(n - 1);
      CountNew(n - 1, pcs);
    }
  }

  /** When all workers are back, both counters have counted the same; all names, if none left. */
  lemma {:induction false} CountBack(ws: seq<Pc>)
    requires AllBack(ws)
    ensures Count(ws, FINISHED) == Count(ws, DETAILED)
    ensures !SomeLeft(ws) ==> Count(ws, DETAILED) == |ws|
  {
    if ws != [] {
      var n := |ws| - 1;
      assert ws == ws[..n] + [ws[n]] && ws[n] in ws;
      assert forall w <- ws[..n] :: w in ws;
      CountBack(ws[..n]);
    }
  }

  lemma LeftAfterMove(ws: seq<Pc>, i: nat, pc: Pc)
    requires i < |ws| && ws[i] != Left
    ensures SomeLeft(ws[i := pc]) <==> SomeLeft(ws) || pc == Left
  {
    var ws' := ws[i := pc];
    assert ws'[i] == pc;
    if SomeLeft(ws) {
      var j :| 0 <= j < |ws| && ws[j] == Left;
      assert ws'[j] == Left;
    }
    if SomeLeft(ws') && pc != Left {
      var j :| 0 <= j < |ws'| && ws'[j] == Left;
      assert ws[j] == Left;
    }
  }

  // ------------------------------------------------------------- steps keep it

  /** A worker's step: what it does to the three counts. */
  lemma MoveCounts(ws: seq<Pc>, i: nat, pc: Pc)
    requires i < |ws| && ws[i] != Left && ws[i] != pc
    ensures var ws' := ws[i := pc];
            && |ws'| == |ws|
            && Count(ws', DETAILED) + (if ws[i] in DETAILED then 1 else 0) == Count(ws, DETAILED) + (if pc in DETAILED then 1 else 0)
            && Count(ws', FINISHED) + (if ws[i] in FINISHED then 1 else 0) == Count(ws, FINISHED) + (if pc in FINISHED then 1 else 0)
            && Count(ws', HOLDING) + (if ws[i] in HOLDING then 1 else 0) == Count(ws, HOLDING) + (if pc in HOLDING then 1 else 0)
            && (SomeLeft(ws') <==> SomeLeft(ws) || pc == Left)
  {
    CountMove(ws, i, pc, DETAILED);
    CountMove(ws, i, pc, FINISHED);
    CountMove(ws, i, pc, HOLDING);
    LeftAfterMove(ws, i, pc);
  }

  lemma NewBatch(n: nat)
    ensures |Workers(n)| == n && !SomeLeft(Workers(n))
    ensures Count(Workers(n), DETAILED) == Count(Workers(n), FINISHED) == Count(Workers(n), HOLDING) == 0
  {
    CountNew(n, DETAILED);
    CountNew(n, FINISHED);
    CountNew(n, HOLDING);
  }

  predicate IsWorkerStep(a: Action) {
    a.Acquire? || a.Leave? || a.ClientError? || a.Detail? || a.NoDetail? || a.PlaneError? || a.Related?
  }

  function TargetPc(a: Action): Pc
    requires IsWorkerStep(a)
  {
    match a
    case Acquire(_, _) => Working
    case Leave(_, _) => Left
    case Detail(_, _, _) => Detailed
    case NoDetail(_, _) => Detailed
    case _ => Done
  }

  lemma WorkerKeepsProgress(s: Session, a: Action)
    requires Progress(s) && Enabled(s, a) && IsWorkerStep(a)
    ensures Progress(SessionStep(s, a))
  {
    hide Count, SomeLeft, MergeRow;
    var ws := s.phase.workers;
    MoveCounts(ws, a.i, TargetPc(a));
  }

  lemma RunnerKeepsProgress(s: Session, a: Action)
    requires Progress(s) && Enabled(s, a) && !IsWorkerStep(a)
    ensures Progress(SessionStep(s, a))
  {
    hide Count, SomeLeft, AllBack, Workers;
    NewBatch(|s.work|);
    NewBatch(|s.sweep|);
    if Running(s.phase) {
      CountBack(s.phase.workers);
      CountBounds(s.phase.workers);
    }
  }

  lemma StepKeepsProgress(s: Session, a: Action)
    requires Progress(s) && Enabled(s, a)
    ensures var s' := SessionStep(s, a);
            && Progress(s') && s'.cluster == s.cluster && s'.cancelled == s.cancelled
  {
    if IsWorkerStep(a) {
      WorkerKeepsProgress(s, a);
    } else {
      RunnerKeepsProgress(s, a);
    }
    hide Progress;
  }

  lemma CancelKeepsProgress(s: Session)
    requires Progress(s)
    ensures Progress(s.(cancelled := true))
    ensures forall m :: Progress(s.(merged := m))
  {
    hide Count, SomeLeft;
  }

  lemma NewProgress(a: Action, merged: map<string, Row>)
    requires a.Begin?
    ensures Progress(NewSession(a, merged))
  {
  }

  lemma PublishKeepsInv(st: State, a: Action, merged: map<string, Row>)
    requires Inv(st) && a.Begin? && a.cluster !in st.current
    ensures Inv(Published(st, a, merged))
  {
    hide Progress;
    NewProgress(a, merged);
    hide NewSession;
    NewSessionIs(a, merged);
  }

  lemma NewSessionIs(a: Action, merged: map<string, Row>)
    requires a.Begin?
    ensures NewSession(a, merged).cluster == a.cluster && !NewSession(a, merged).cancelled
  {
  }

  lemma RetireKeepsInv(st: State, cluster: string)
    requires Inv(st) && cluster in st.current && st.current[cluster] in st.sessions
    ensures Inv(Retired(st, cluster))
  {
    hide Progress;
    CancelKeepsProgress(st.sessions[st.current[cluster]]);
  }

  /** Rows change nothing else. */
  lemma RowsKeepInv(st: State, rev: nat, merged: map<string, Row>)
    requires Inv(st) && rev in st.sessions
    ensures Inv(st.(sessions := st.sessions[rev := st.sessions[rev].(merged := merged)]))
  {
    hide Progress;
    CancelKeepsProgress(st.sessions[rev]);
  }

  lemma BeginKeepsInv(st: State, a: Action)
    requires Inv(st) && a.Begin?
    ensures Inv(BeginStep(st, a))
  {
    hide Inv, Carried, Published, Retired, SameTargets;
    if a.cluster in st.current && st.current[a.cluster] in st.sessions {
      var rev := st.current[a.cluster];
      var s := st.sessions[rev];
      RowsKeepInv(st, rev, Carried(s.merged, a.order, a.base));
      RetireKeepsInv(st, a.cluster);
      RetiredIsOut(st, a.cluster);
      PublishKeepsInv(Retired(st, a.cluster), a, Carried(s.merged, a.order, a.base));
    } else {
      CurrentIsKnown(st, a.cluster);
      PublishKeepsInv(st, a, map name | name in a.order :: RowAt(a.base, name));
    }
  }

  lemma RetiredIsOut(st: State, cluster: string)
    requires cluster in st.current && st.current[cluster] in st.sessions
    ensures cluster !in Retired(st, cluster).current
  {
  }

  lemma CurrentIsKnown(st: State, cluster: string)
    requires Inv(st)
    ensures cluster in st.current ==> st.current[cluster] in st.sessions
  {
    hide Progress;
  }

  lemma SessionKeepsInv(st: State, rev: nat, s: Session)
    requires Inv(st) && rev in st.sessions && Progress(s)
    requires s.cluster == st.sessions[rev].cluster && s.cancelled == st.sessions[rev].cancelled
    ensures Inv(st.(sessions := st.sessions[rev := s]))
  {
    hide Progress;
  }

  lemma StepKeepsInv(st: State, a: Action)
    requires Inv(st) && Possible(st, a)
    ensures Inv(Step(st, a))
  {
    hide Progress, SessionStep, Enabled, Polled, BeginStep, Registered;
    if a.Begin? {
      BeginKeepsInv(st, a);
    } else if a.Poll? {
      if a.rev in st.sessions {
        RowsKeepInv(st, a.rev, Polled(st.sessions[a.rev].merged, st.sessions[a.rev].order, a.cached));
      }
    } else {
      StepKeepsProgress(st.sessions[a.rev], a);
      SessionKeepsInv(st, a.rev, SessionStep(st.sessions[a.rev], a));
    }
  }

  // ------------------------------------------------------------------- all runs

  ghost predicate IsRun(states: seq<State>, actions: seq<Action>) {
    && |states| == |actions| + 1 && states[0] == INIT
    && forall k :: 0 <= k < |actions| ==> Possible(states[k], actions[k]) && states[k + 1] == Step(states[k], actions[k])
  }

  lemma InitInv()
    ensures Inv(INIT)
  {
  }

  lemma {:induction false} RunKeepsInv(states: seq<State>, actions: seq<Action>, k: nat)
    requires IsRun(states, actions) && k < |states|
    ensures Inv(states[k])
  {
    hide Inv, Possible, Step;
    if k == 0 {
      InitInv();
    } else {
      RunKeepsInv(states, actions, k - 1);
      StepKeepsInv(states[k - 1], actions[k - 1]);
    }
  }

  /** In every session of every reachable state: related <= detail <= total, equal once complete. */
  lemma ProgressIsOrdered(states: seq<State>, actions: seq<Action>, k: nat, rev: nat)
    requires IsRun(states, actions) && k < |states|
    ensures rev in states[k].sessions ==>
              var s := states[k].sessions[rev];
              && s.relatedDone <= s.detailDone <= s.total == |s.work| + |s.sweep|
              && (s.phase == Over ==> s.relatedDone == s.detailDone)
  {
    hide IsRun, Count;
    RunKeepsInv(states, actions, k);
    if rev in states[k].sessions {
      var s := states[k].sessions[rev];
      if Running(s.phase) {
        CountBounds(s.phase.workers);
      }
    }
  }

  /** Only the current session of a cluster is not cancelled: whoever was replaced had been cancelled. */
  lemma ReplacedIsCancelled(states: seq<State>, actions: seq<Action>, k: nat, rev: nat)
    requires IsRun(states, actions) && k < |states|
    ensures rev in states[k].sessions ==>
              var s := states[k].sessions[rev];
              (s.cancelled <==> !(s.cluster in states[k].current && states[k].current[s.cluster] == rev))
  {
    hide IsRun, Progress;
    RunKeepsInv(states, actions, k);
  }

  /** A session keeps its names, its total and its cluster, and its counters never fall. */
  lemma SessionMoves(st: State, a: Action, rev: nat)
    requires Inv(st) && Possible(st, a) && rev in st.sessions
    ensures rev in Step(st, a).sessions
    ensures var s, s' := st.sessions[rev], Step(st, a).sessions[rev];
            && s'.cluster == s.cluster && s'.work == s.work && s'.sweep == s.sweep && s'.total == s.total
            && s.detailDone <= s'.detailDone && s.relatedDone <= s'.relatedDone && (s.cancelled ==> s'.cancelled)
  {
    hide Progress, Enabled, Polled, Carried, Count, MergeRow, Workers;
    RevIsOld(st, rev);
  }

  lemma RevIsOld(st: State, rev: nat)
    requires Inv(st) && rev in st.sessions
    ensures rev <= st.nextRev
  {
    hide Progress;
  }

  /** Each worker's step counts its name once: first in the details, then in the related data. */
  lemma EachNameCountsOnce(s: Session, a: Action)
    requires Progress(s) && Enabled(s, a) && IsWorkerStep(a)
    ensures var s', pc, pc' := SessionStep(s, a), s.phase.workers[a.i], TargetPc(a);
            && s'.phase == s.phase.(workers := s.phase.workers[a.i := pc'])
            && s'.detailDone == s.detailDone + (if pc !in DETAILED && pc' in DETAILED then 1 else 0)
            && s'.relatedDone == s.relatedDone + (if pc !in FINISHED && pc' in FINISHED then 1 else 0)
            && (pc in DETAILED ==> pc' in DETAILED) && (pc in FINISHED ==> pc' in FINISHED)
            && pc != Done && pc != Left
  {
    hide Count, SomeLeft, MergeRow, Progress;
  }

  /** A batch that ends without cancellation has raised both counters by its length. */
  lemma UncancelledBatchCountsAll(s: Session, a: Action)
    requires Progress(s) && Enabled(s, a) && a.BatchEnd? && !s.cancelled
    ensures s.phase.FocusRun? ==> s.detailDone == s.relatedDone == |s.work|
    ensures s.phase.SweepRun? ==> s.detailDone == s.relatedDone == s.total
  {
    hide Count, AllBack, SomeLeft;
    CountBack(s.phase.workers);
  }

  /** At most `limit` workers of a batch hold the semaphore. */
  lemma BatchIsBounded(states: seq<State>, actions: seq<Action>, k: nat, rev: nat)
    requires IsRun(states, actions) && k < |states|
    ensures rev in states[k].sessions && Running(states[k].sessions[rev].phase) ==>
              Count(states[k].sessions[rev].phase.workers, HOLDING) <= states[k].sessions[rev].phase.limit
  {
    hide IsRun, Count;
    RunKeepsInv(states, actions, k);
  }

  /** A new session gets a revision above all earlier ones, and the cluster's revision never falls. */
  lemma RevisionsIncrease(st: State, a: Action, cluster: string)
    requires Inv(st) && Possible(st, a)
    ensures forall rev <- Step(st, a).sessions :: rev !in st.sessions ==> forall r <- st.sessions :: r < rev
    ensures cluster in st.current ==>
              cluster in Step(st, a).current && st.current[cluster] <= Step(st, a).current[cluster]
  {
    hide Progress, Enabled, SessionStep, Polled, Carried;
  }

  // --------------------------------------------------------------- enriched rows

  /** The row a list shows for a name of a cluster. */
  function Shown(st: State, cluster: string, name: string): Option<Row> {
    if cluster in st.current && st.current[cluster] in st.sessions && name in st.sessions[st.current[cluster]].merged
    then Some(st.sessions[st.current[cluster]].merged[name])
    else None
  }

  predicate ShowsEnriched(st: State, cluster: string, name: string) {
    Shown(st, cluster, name).Some? && Shown(st, cluster, name).value.enriched
  }

  lemma SessionKeepsEnriched(s: Session, a: Action, name: string)
    requires Enabled(s, a)
    ensures name in s.merged && s.merged[name].enriched ==>
              name in SessionStep(s, a).merged && SessionStep(s, a).merged[name].enriched
  {
    hide Count, SomeLeft, AllBack, Workers;
  }

  /** An enriched row stays enriched through every step, replacement included, while its name is listed. */
  lemma EnrichedStays(st: State, a: Action, cluster: string, name: string)
    requires Inv(st) && Possible(st, a) && ShowsEnriched(st, cluster, name)
    requires a.Begin? && a.cluster == cluster ==> name in a.order
    ensures ShowsEnriched(Step(st, a), cluster, name)
    ensures a.Begin? ==> Shown(Step(st, a), cluster, name).value.summary == Shown(st, cluster, name).value.summary
  {
    hide Progress, Enabled, SessionStep;
    RevIsOld(st, st.current[cluster]);
    if !a.Begin? && !a.Poll? {
      SessionKeepsEnriched(st.sessions[a.rev], a, name);
    }
  }

  ghost predicate AlwaysListed(actions: seq<Action>, i: nat, j: nat, cluster: string, name: string)
    requires i <= j <= |actions|
  {
    forall k :: i <= k < j && actions[k].Begin? && actions[k].cluster == cluster ==> name in actions[k].order
  }

  /** So over any stretch of a run in which the name stays listed. */
  lemma {:induction false} EnrichedStaysOverRuns(states: seq<State>, actions: seq<Action>, i: nat, j: nat, cluster: string, name: string)
    requires IsRun(states, actions) && i <= j <= |actions| && AlwaysListed(actions, i, j, cluster, name)
    ensures ShowsEnriched(states[i], cluster, name) ==> ShowsEnriched(states[j], cluster, name)
  {
    hide ShowsEnriched, Step, Possible, Inv;
    if i < j && ShowsEnriched(states[i], cluster, name) {
      EnrichedStaysOverRuns(states, actions, i, j - 1, cluster, name);
      RunKeepsInv(states, actions, j - 1);
      EnrichedStays(states[j - 1], actions[j - 1], cluster, name);
    }
  }

  /**
   What a worker writes: the details of its own name only, without touching what enrichment
   set; then the enrichment fields of its own name only, without touching the details.
  */
  lemma WorkerWritesItsRow(s: Session, a: Action)
    requires Enabled(s, a) && IsWorkerStep(a)
    ensures var s', name := SessionStep(s, a), NameOf(s, a.i);
            && (forall n :: n != name ==> RowAt(s'.merged, n) == RowAt(s.merged, n))
            && (a.Detail? ==>
                  && RowAt(s'.merged, name).enriched == RowAt(s.merged, name).enriched
                  && RowAt(s'.merged, name).summary == RowAt(s.merged, name).summary
                  && (a.fields.Some? ==> RowAt(s'.merged, name).detail == a.fields.value)
                  && (a.fields == None ==> RowAt(s'.merged, name).detail == RowAt(s.merged, name).detail))
            && (a.Related? ==>
                  && RowAt(s'.merged, name).detail == RowAt(s.merged, name).detail
                  && (a.metrics.enriched ==> RowAt(s'.merged, name) == a.metrics.(detail := RowAt(s.merged, name).detail))
                  && (!a.metrics.enriched ==> RowAt(s'.merged, name) == RowAt(s.merged, name)))
            && (!a.Detail? && !a.Related? ==> s'.merged == s.merged)
  {
    hide Count, SomeLeft, AllBack;
  }

  /** A list that is begun again for the same targets keeps its session; otherwise a new one counts from nothing. */
  lemma BeginKeepsOrReplaces(st: State, a: Action)
    requires Inv(st) && a.Begin?
    ensures var st' := BeginStep(st, a);
            && a.cluster in st'.current && st'.current[a.cluster] in st'.sessions
            && var s := st'.sessions[st'.current[a.cluster]];
               && s.order == a.order && s.work == a.work && s.sweep == a.sweep && !s.cancelled
               && (st'.nextRev != st.nextRev ==>
                     && st'.current[a.cluster] == st'.nextRev == st.nextRev + 1 && s.detailDone == s.relatedDone == 0
                     && (a.cluster in st.current ==> st'.sessions[st.current[a.cluster]].cancelled))
               && (st'.nextRev == st.nextRev ==>
                     && a.cluster in st.current && st'.current == st.current
                     && s == st.sessions[st.current[a.cluster]].(merged := s.merged))
               && (forall c :: c != a.cluster && c in st.current ==> c in st'.current && st'.current[c] == st.current[c])
  {
    hide Progress, Carried;
    CurrentIsKnown(st, a.cluster);
  }

  // ------------------------------------------------ each worker counts once

  predicate InBatch(s: Session, focus: bool) {
    if focus then s.phase.FocusRun? else s.phase.SweepRun?
  }

  function Counter(s: Session, detail: bool): nat {
    if detail then s.detailDone else s.relatedDone
  }

  function CountedPcs(detail: bool): set<Pc> {
    if detail then DETAILED else FINISHED
  }

  /** Whether a step of worker i of that batch raised the counter. */
  predicate Raises(st: State, a: Action, st': State, rev: nat, focus: bool, i: nat, detail: bool) {
    && IsWorkerStep(a) && a.rev == rev && a.i == i
    && rev in st.sessions && rev in st'.sessions && InBatch(st.sessions[rev], focus)
    && Counter(st'.sessions[rev], detail) > Counter(st.sessions[rev], detail)
  }

  /** How many of the first k steps of a run did. */
  function Raised(states: seq<State>, actions: seq<Action>, k: nat, rev: nat, focus: bool, i: nat, detail: bool): nat
    requires k <= |actions| && |states| == |actions| + 1
  {
    if k == 0 then 0
    else
      Raised(states, actions, k - 1, rev, focus, i, detail)
      + if Raises(states[k - 1], actions[k - 1], states[k], rev, focus, i, detail) then 1 else 0
  }

  /** What that number is, by where the session stands: none before the batch, by the worker's place in it, and at most one behind it. */
  ghost predicate CountsOnce(s: Session, focus: bool, i: nat, detail: bool, n: nat) {
    match s.phase
    case New => n == 0
    case FocusWait => n == 0
    case FocusRun(ws, _) => if !focus then n == 0 else i < |ws| ==> n == if ws[i] in CountedPcs(detail) then 1 else 0
    case SweepWait => if !focus then n == 0 else n <= 1 && (!s.cancelled && i < |s.work| ==> n == 1)
    case SweepRun(ws, _) =>
      if focus then n <= 1 && (!s.cancelled && i < |s.work| ==> n == 1)
      else i < |ws| ==> n == if ws[i] in CountedPcs(detail) then 1 else 0
    case Over => n <= 1 && (focus && !s.cancelled && i < |s.work| ==> n == 1)
  }

  lemma WorkerCountsOnce(s: Session, a: Action, focus: bool, i: nat, detail: bool, n: nat)
    requires Progress(s) && Enabled(s, a) && IsWorkerStep(a) && CountsOnce(s, focus, i, detail, n)
    requires i < if focus then |s.work| else |s.sweep|
    ensures var s' := SessionStep(s, a);
            var raised := a.i == i && InBatch(s, focus) && Counter(s', detail) > Counter(s, detail);
            CountsOnce(s', focus, i, detail, if raised then n + 1 else n)
  {
    hide Count, SomeLeft, MergeRow, Batch, Counted;
    EachNameCountsOnce(s, a);
  }

  lemma RunnerCountsOnce(s: Session, a: Action, focus: bool, i: nat, detail: bool, n: nat)
    requires Progress(s) && Enabled(s, a) && !IsWorkerStep(a) && CountsOnce(s, focus, i, detail, n)
    requires i < if focus then |s.work| else |s.sweep|
    ensures CountsOnce(SessionStep(s, a), focus, i, detail, n)
  {
    hide Count, MergeRow, Counted;
    AllWaiting(|s.work|);
    AllWaiting(|s.sweep|);
    if Running(s.phase) && i < |s.phase.workers| {
      assert s.phase.workers[i] in s.phase.workers;
    }
  }

  lemma AllWaiting(n: nat)
    ensures |Workers(n)| == n && forall i :: 0 <= i < n ==> Workers(n)[i] == Waiting
  {
  }

  /** A step of the system as one session sees it: its own step, or new rows, or its cancellation. */
  lemma SessionSees(st: State, a: Action, rev: nat)
    requires Inv(st) && Possible(st, a) && rev in st.sessions
    ensures rev in Step(st, a).sessions
    ensures var s, s' := st.sessions[rev], Step(st, a).sessions[rev];
            if !a.Begin? && !a.Poll? && a.rev == rev then s' == SessionStep(s, a)
            else s' == s.(order := s'.order, merged := s'.merged, cancelled := s'.cancelled) && (s.cancelled ==> s'.cancelled)
  {
    hide Progress, Enabled, SessionStep, Polled, Carried;
    RevIsOld(st, rev);
  }

  lemma StepCountsOnce(st: State, a: Action, rev: nat, focus: bool, i: nat, detail: bool, n: nat)
    requires Inv(st) && Possible(st, a) && rev in st.sessions && CountsOnce(st.sessions[rev], focus, i, detail, n)
    requires i < if focus then |st.sessions[rev].work| else |st.sessions[rev].sweep|
    ensures rev in Step(st, a).sessions
    ensures CountsOnce(Step(st, a).sessions[rev], focus, i, detail, if Raises(st, a, Step(st, a), rev, focus, i, detail) then n + 1 else n)
  {
    hide Progress, Enabled, SessionStep, Step;
    SessionSees(st, a, rev);
    var s := st.sessions[rev];
    if !a.Begin? && !a.Poll? && a.rev == rev {
      hide CountsOnce;
      if IsWorkerStep(a) {
        WorkerCountsOnce(s, a, focus, i, detail, n);
      } else {
        RunnerCountsOnce(s, a, focus, i, detail, n);
      }
    }
  }

  /** A session that has just been published has counted nothing. */
  lemma NewCountsOnce(st: State, a: Action, rev: nat, focus: bool, i: nat, detail: bool)
    requires Inv(st) && Possible(st, a) && rev !in st.sessions && rev in Step(st, a).sessions
    ensures CountsOnce(Step(st, a).sessions[rev], focus, i, detail, 0)
  {
    hide Progress, Enabled, SessionStep, Carried, Polled;
  }

  /**
   Over any run, the number of steps in which worker i of a batch raised the counter: while
   the batch runs, one if the worker has come that far and none before; never more than one;
   and exactly one behind a focused batch of a session that was not cancelled.
  */
  lemma {:induction false} EachNameCountsOnceOverRuns(states: seq<State>, actions: seq<Action>, k: nat, rev: nat, focus: bool, i: nat, detail: bool)
    requires IsRun(states, actions) && k <= |actions|
    ensures var n := Raised(states, actions, k, rev, focus, i, detail);
            if rev !in states[k].sessions then n == 0
            else i < (if focus then |states[k].sessions[rev].work| else |states[k].sessions[rev].sweep|) ==>
              CountsOnce(states[k].sessions[rev], focus, i, detail, n)
  {
    hide Step, Possible, Inv, CountsOnce, Raises;
    if k > 0 {
      EachNameCountsOnceOverRuns(states, actions, k - 1, rev, focus, i, detail);
      RunKeepsInv(states, actions, k - 1);
      var st, a := states[k - 1], actions[k - 1];
      RaisesKnown(st, a, states[k], rev, focus, i, detail);
      if rev in st.sessions {
        SessionMoves(st, a, rev);
        if i < (if focus then |st.sessions[rev].work| else |st.sessions[rev].sweep|) {
          StepCountsOnce(st, a, rev, focus, i, detail, Raised(states, actions, k - 1, rev, focus, i, detail));
        }
      } else if rev in states[k].sessions {
        NewCountsOnce(st, a, rev, focus, i, detail);
      }
    }
  }

  lemma RaisesKnown(st: State, a: Action, st': State, rev: nat, focus: bool, i: nat, detail: bool)
    ensures Raises(st, a, st', rev, focus, i, detail) ==> rev in st.sessions && rev in st'.sessions
  {
  }
}
