/** What the steps of the enrichment do to lists, rows and batches, said without their definitions. */
module EnrichmentEffects {
  import opened Options
  import opened Enrichment

  // ------------------------------------------------------------- a list begins

  /** A row of a new list: its own details, and what an earlier row of the name had been enriched with. */
  predicate BeganRow(prev: map<string, Row>, base: map<string, Row>, name: string, row: Row) {
    var own := if name in base then base[name] else Row(false, "", "");
    && row.detail == own.detail
    && if name in prev && prev[name].enriched then row.enriched && row.summary == prev[name].summary
       else row.enriched == own.enriched && row.summary == own.summary
  }

  predicate BeganRows(prev: map<string, Row>, order: seq<string>, base: map<string, Row>, rows: map<string, Row>) {
    && (forall name <- order :: name in rows)
    && (forall name <- rows :: name in order && BeganRow(prev, base, name, rows[name]))
  }

  lemma CarriedRows(prev: map<string, Row>, order: seq<string>, base: map<string, Row>)
    ensures BeganRows(prev, order, base, Carried(prev, order, base))
    ensures BeganRows(map[], order, base, map name | name in order :: RowAt(base, name))
  {
  }

  /** The cluster's session is asked for the very same lists again. */
  predicate AskedAgain(st: State, a: Action)
    requires a.Begin?
  {
    a.cluster in st.current && st.current[a.cluster] in st.sessions
    && var s := st.sessions[st.current[a.cluster]];
       && s.order == a.order && s.work == a.work && s.favs == a.favs && s.sweep == a.sweep
  }

  function RowsBefore(st: State, cluster: string): map<string, Row> {
    if cluster in st.current && st.current[cluster] in st.sessions then st.sessions[st.current[cluster]].merged else map[]
  }

  /** The running session is kept exactly when it is asked for the same again; only its rows change then. */
  lemma SameListsKeepTheSession(st: State, a: Action)
    requires Inv(st) && a.Begin? && AskedAgain(st, a)
    ensures var st', rev := BeginStep(st, a), st.current[a.cluster];
            && st'.current == st.current && st'.nextRev == st.nextRev && rev in st'.sessions
            && st'.sessions == st.sessions[rev := st.sessions[rev].(merged := st'.sessions[rev].merged)]
            && BeganRows(st.sessions[rev].merged, a.order, a.base, st'.sessions[rev].merged)
  {
    CarriedRows(st.sessions[st.current[a.cluster]].merged, a.order, a.base);
    hide Carried, Progress;
  }

  /** Otherwise the session before is cancelled and a new one, which has done nothing yet, takes its place and its enriched rows. */
  lemma OtherListsReplaceTheSession(st: State, a: Action)
    requires Inv(st) && a.Begin? && !AskedAgain(st, a)
    ensures var st', rev := BeginStep(st, a), st.nextRev + 1;
            && st'.nextRev == rev && st'.current == st.current[a.cluster := rev]
            && st'.sessions.Keys == st.sessions.Keys + {rev}
            && st'.sessions[rev] == Session(a.cluster, a.order, a.work, a.favs, a.sweep, st'.sessions[rev].merged,
                                            0, 0, |a.work| + |a.sweep|, New, false)
            && BeganRows(RowsBefore(st, a.cluster), a.order, a.base, st'.sessions[rev].merged)
            && (forall r <- st.sessions :: st'.sessions[r] ==
                  if a.cluster in st.current && r == st.current[a.cluster] then st.sessions[r].(cancelled := true) else st.sessions[r])
  {
    CarriedRows(RowsBefore(st, a.cluster), a.order, a.base);
    NextIsFree(st, a.cluster);
    hide Carried, Progress;
  }

  lemma NextIsFree(st: State, cluster: string)
    requires Inv(st)
    ensures st.nextRev + 1 !in st.sessions && (cluster in st.current ==> st.current[cluster] in st.sessions)
  {
    hide Progress;
  }

  // -------------------------------------------------------------------- a poll

  /** A poll gives listed names what is cached about them, where that is enriched, and changes no other row. */
  lemma PollMerges(merged: map<string, Row>, order: seq<string>, cached: map<string, Row>, name: string)
    ensures var was := if name in merged then merged[name] else Row(false, "", "");
            var rows := Polled(merged, order, cached);
            var now := if name in rows then rows[name] else Row(false, "", "");
            if name in order && name in cached && cached[name].enriched then
              now == Row(true, was.detail, cached[name].summary)
            else
              now == was
    ensures name in merged ==> name in Polled(merged, order, cached)
    ensures name in Polled(merged, order, cached) ==> name in merged || (name in order && name in cached)
  {
  }

  /** A poll of the cluster's current session merges into its rows; no other session, and no counter, changes. */
  lemma PollTouchesOneSession(st: State, cluster: string, rev: nat, cached: map<string, Row>)
    requires Inv(st) && cluster in st.current && st.current[cluster] == rev
    ensures rev in st.sessions
    ensures var s := st.sessions[rev];
            PollStep(st, cluster, rev, cached) == st.(sessions := st.sessions[rev := s.(merged := Polled(s.merged, s.order, cached))])
  {
    hide Progress, Polled;
  }

  // ------------------------------------------------------------------- batches

  /** A batch that starts: everyone waits, and at least one worker at a time may work. */
  predicate Starts(workers: seq<Pc>, limit: nat, size: nat, asked: int) {
    && |workers| == size && (forall w <- workers :: w == Waiting)
    && limit == if asked > 1 then asked else 1
  }

  /** The sweep follows only where it is switched on and has names; it waits for quiet first if it is to pause. */
  predicate SweepFollows(s: Session, sweepOn: bool, pause: bool, limit: int, next: Phase) {
    if sweepOn && s.sweep != [] then
      if pause then next == SweepWait else next.SweepRun? && Starts(next.workers, next.limit, |s.sweep|, limit)
    else next == Over
  }

  /** Where the runner goes: it waits for quiet, runs the focused batch, then the sweep, and stops where a worker has left. */
  lemma RunnerGoesOn(s: Session, a: Action)
    requires Enabled(s, a) && !IsWorkerStep(a)
    ensures var s' := SessionStep(s, a);
            && s' == s.(phase := s'.phase)
            && match a
               case Start(_, on, pause, limit) => if s.work != [] then s'.phase == FocusWait else SweepFollows(s, on, pause, limit, s'.phase)
               case Quiet(_, limit) =>
                 if s.phase == FocusWait then s'.phase.FocusRun? && Starts(s'.phase.workers, s'.phase.limit, |s.work|, limit)
                 else s'.phase.SweepRun? && Starts(s'.phase.workers, s'.phase.limit, |s.sweep|, limit)
               case BatchEnd(_, on, pause, limit) =>
                 if s.phase.FocusRun? && Left !in s.phase.workers then SweepFollows(s, on, pause, limit, s'.phase) else s'.phase == Over
               case _ => s'.phase == Over
  {
    BatchStarts(|s.work|, if a.Quiet? then a.limit else 1);
    BatchStarts(|s.sweep|, if a.Quiet? || a.Start? || a.BatchEnd? then a.limit else 1);
    hide Starts, Workers, Limit, Count, AllBack;
  }

  lemma BatchStarts(n: nat, limit: int)
    ensures Starts(Workers(n), Limit(limit), n, limit)
  {
  }

  /** A focused batch that a worker has left, or a session that is over. */
  predicate Stopping(s: Session) {
    s.phase == Over || (s.phase.FocusRun? && Left in s.phase.workers)
  }

  lemma WorkerStaysLeft(s: Session, a: Action)
    requires Enabled(s, a) && s.phase.FocusRun? && Left in s.phase.workers
    ensures Stopping(SessionStep(s, a))
  {
    hide Count, AllBack, MergeRow;
    var j :| 0 <= j < |s.phase.workers| && s.phase.workers[j] == Left;
    if IsWorkerStep(a) {
      assert s.phase.workers[a.i] != Left;
      assert SessionStep(s, a).phase.workers[j] == Left;
    }
  }

  lemma StoppingStays(st: State, a: Action, rev: nat)
    requires Inv(st) && Possible(st, a) && rev in st.sessions && Stopping(st.sessions[rev])
    ensures rev in Step(st, a).sessions && Stopping(Step(st, a).sessions[rev])
  {
    hide Inv, Step, SessionStep;
    SessionSees(st, a, rev);
    var s := st.sessions[rev];
    if !a.Begin? && !a.Poll? && a.rev == rev && s.phase.FocusRun? {
      WorkerStaysLeft(s, a);
    }
  }

  /** Once a worker has left the focused batch, or the session is over, the session never sweeps again. */
  lemma {:induction false} StoppedSessionsDoNotSweep(states: seq<State>, actions: seq<Action>, i: nat, k: nat, rev: nat)
    requires IsRun(states, actions) && i <= k < |states| && rev in states[i].sessions && Stopping(states[i].sessions[rev])
    ensures rev in states[k].sessions && Stopping(states[k].sessions[rev])
  {
    hide Step, Possible, Inv, Stopping;
    if i < k {
      StoppedSessionsDoNotSweep(states, actions, i, k - 1, rev);
      RunKeepsInv(states, actions, k - 1);
      StoppingStays(states[k - 1], actions[k - 1], rev);
    }
  }

  // ------------------------------------------------------------------ progress

  lemma {:induction false} SomeoneHolds(ws: seq<Pc>)
    requires Count(ws, HOLDING) >= 1
    ensures exists i :: 0 <= i < |ws| && (ws[i] == Working || ws[i] == Detailed)
  {
    var n := |ws| - 1;
    if ws[n] !in HOLDING {
      SomeoneHolds(ws[..n]);
      var i :| 0 <= i < n && (ws[..n][i] == Working || ws[..n][i] == Detailed);
      assert ws[i] == ws[..n][i];
    }
  }

  /** The next step of a session that is not over: of its runner, of a worker at work, or of one that may begin. */
  lemma NextStep(s: Session, rev: nat) returns (a: Action)
    requires Progress(s) && s.phase != Over
    ensures !a.Begin? && !a.Poll? && a.rev == rev && Enabled(s, a)
  {
    hide Count, Counted;
    if s.phase == New {
      a := Start(rev, false, false, 1);
    } else if s.phase.FocusWait? || s.phase.SweepWait? {
      a := Quiet(rev, 1);
    } else {
      var ws := s.phase.workers;
      if Count(ws, HOLDING) >= 1 {
        SomeoneHolds(ws);
        var i :| 0 <= i < |ws| && (ws[i] == Working || ws[i] == Detailed);
        a := if ws[i] == Working then ClientError(rev, i) else PlaneError(rev, i);
      } else if i :| 0 <= i < |ws| && ws[i] == Waiting {
        a := Acquire(rev, i);
      } else {
        NobodyHolds(ws);
        a := BatchEnd(rev, false, false, 1);
      }
    }
  }

  lemma {:induction false} NobodyHolds(ws: seq<Pc>)
    requires Count(ws, HOLDING) == 0
    ensures forall i :: 0 <= i < |ws| ==> ws[i] != Working && ws[i] != Detailed
  {
    if ws != [] {
      NobodyHolds(ws[..|ws| - 1]);
      assert forall i :: 0 <= i < |ws| - 1 ==> ws[..|ws| - 1][i] == ws[i];
    }
  }

  /** In every reachable state each session is over or can go on, whatever the other sessions do: nothing waits for ever. */
  lemma SessionsAreNeverStuck(states: seq<State>, actions: seq<Action>, k: nat, rev: nat) returns (a: Action)
    requires IsRun(states, actions) && k < |states| && rev in states[k].sessions && states[k].sessions[rev].phase != Over
    ensures Possible(states[k], a) && !a.Begin? && !a.Poll? && a.rev == rev
  {
    RunKeepsInv(states, actions, k);
    hide IsRun, Enabled;
    a := NextStep(states[k].sessions[rev], rev);
  }

  /** The end of a session's context is seen by its runner while it waits for quiet and by every worker that has not begun. */
  lemma CancellationIsSeen(s: Session, rev: nat, i: nat)
    requires s.cancelled
    ensures s.phase.FocusWait? || s.phase.SweepWait? ==> Enabled(s, WaitCancelled(rev))
    ensures s.phase.FocusRun? && |s.phase.workers| == |s.work| && i < |s.work| && s.phase.workers[i] == Waiting ==> Enabled(s, Leave(rev, i))
    ensures s.phase.SweepRun? && |s.phase.workers| == |s.sweep| && i < |s.sweep| && s.phase.workers[i] == Waiting ==> Enabled(s, Leave(rev, i))
  {
  }
}
