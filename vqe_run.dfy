/**
 The run-state bookkeeping of the VQE dashboard as values: the three tracked
 methods, their bounded series of (iteration, energy) samples, the converged
 set and the stop flag, together with the functions that say what one tick and
 one reset do to that state, and the lemmas that state what the dashboard
 promises about it.
 */
module VqeRun {

  /** The three keys of the dashboard's series table. */
  datatype Method = NormalVqe | UccsdHybrid | UccsdHybridZne

  /** The keys in the table's insertion order, which is the order every loop visits them in. */
  const Methods: seq<Method> := [NormalVqe, UccsdHybrid, UccsdHybridZne]

  const AllMethods: set<Method> := {NormalVqe, UccsdHybrid, UccsdHybridZne}

  /** A method has converged when its last ConvergenceWindow energies span less than ConvergenceThreshold. */
  const ConvergenceThreshold: real := 0.001
  const ConvergenceWindow: nat := 5

  /** Every series is cut back to its most recent HistoryLimit entries after a tick. */
  const HistoryLimit: nat := 50

  /** The two parallel lists the table keeps per method. */
  datatype Series = Series(iterations: seq<nat>, energy: seq<real>)

  /** Everything a tick or a reset reads or writes. */
  datatype RunState = RunState(series: map<Method, Series>, iter: nat, converged: set<Method>, stopped: bool)

  /** The state the dashboard starts in. */
  function Initial(): RunState
  {
    RunState(map m | m in AllMethods :: Series([], []), 0, {}, false)
  }

  lemma {:induction false} CountOfConverged(c: set<Method>)
    ensures |c| <= 3
    ensures |c| >= 3 <==> c == AllMethods
  {
    assert |AllMethods| == 3;
    assert c <= AllMethods by {
      forall m | m in c ensures m in AllMethods {
        match m
        case NormalVqe =>
        case UccsdHybrid =>
        case UccsdHybridZne =>
      }
    }
    if c != AllMethods {
      var m :| m in AllMethods && m !in c;
      var rest := AllMethods - {m};
      assert |rest| == 2 by {
        match m
        case NormalVqe => assert rest == {UccsdHybrid, UccsdHybridZne};
        case UccsdHybrid => assert rest == {NormalVqe, UccsdHybridZne};
        case UccsdHybridZne => assert rest == {NormalVqe, UccsdHybrid};
      }
      assert rest == c + (rest - c);
    } else {
      assert AllMethods == c + (AllMethods - c);
    }
  }

  /** Every method is a key of the table, listed once in the visiting order. */
  lemma MethodsListsAll(m: Method)
    ensures m in Methods && m in AllMethods
  {
  }

  // ---------------------------------------------------------------------------
  // Sliding-window convergence test

  function Max(s: seq<real>): (r: real)
    requires |s| > 0
    ensures forall i :: 0 <= i < |s| ==> s[i] <= r
    ensures exists i :: 0 <= i < |s| && s[i] == r
  {
    if |s| == 1 then s[0]
    else
      var rest := Max(s[1..]);
      assert forall i :: 1 <= i < |s| ==> s[i] == s[1..][i - 1];
      if s[0] >= rest then s[0] else rest
  }

  function Min(s: seq<real>): (r: real)
    requires |s| > 0
    ensures forall i :: 0 <= i < |s| ==> r <= s[i]
    ensures exists i :: 0 <= i < |s| && s[i] == r
  {
    if |s| == 1 then s[0]
    else
      var rest := Min(s[1..]);
      assert forall i :: 1 <= i < |s| ==> s[i] == s[1..][i - 1];
      if s[0] <= rest then s[0] else rest
  }

  /** The energies the convergence test looks at: the last ConvergenceWindow of them. */
  function Recent(energy: seq<real>): seq<real>
    requires |energy| >= ConvergenceWindow
  {
    energy[|energy| - ConvergenceWindow..]
  }

  /** The convergence test applied to one method's energy list. */
  predicate Settled(energy: seq<real>)
  {
    |energy| >= ConvergenceWindow && Max(Recent(energy)) - Min(Recent(energy)) < ConvergenceThreshold
  }

  /** The test holds exactly when the list is long enough and no two of its last five energies differ by the threshold or more. */
  lemma {:induction false} SettledIff(energy: seq<real>)
    ensures Settled(energy) <==>
      |energy| >= ConvergenceWindow &&
      forall i, j :: |energy| - ConvergenceWindow <= i < |energy| && |energy| - ConvergenceWindow <= j < |energy| ==>
        energy[i] - energy[j] < ConvergenceThreshold
  {
    if |energy| >= ConvergenceWindow {
      var w, n := Recent(energy), |energy|;
      assert forall k :: n - ConvergenceWindow <= k < n ==> energy[k] == w[k - (n - ConvergenceWindow)];
      var hi :| 0 <= hi < |w| && w[hi] == Max(w);
      var lo :| 0 <= lo < |w| && w[lo] == Min(w);
      assert energy[hi + n - ConvergenceWindow] == Max(w);
      assert energy[lo + n - ConvergenceWindow] == Min(w);
    }
  }

  /** The set after the check: every method of the table that was not converged joins when its test holds. */
  function Converge(series: map<Method, Series>, converged: set<Method>): set<Method>
  {
    converged + set m | m in series && m !in converged && Settled(series[m].energy)
  }

  // ---------------------------------------------------------------------------
  // Samples

  /** The amplitude of the step a converged method's energy takes per tick. */
  function Jitter(m: Method): (j: real)
    ensures 0.0 < j <= 0.001
  {
    match m
    case NormalVqe => 0.001
    case UccsdHybrid => 0.001
    case UccsdHybridZne => 0.0005
  }

  /** A converged method's next energy: its last one moved by the jitter times a draw shifted to be centred on zero. */
  function JitteredEnergy(m: Method, last: real, u: real): real
  {
    last + Jitter(m) * (u - 0.5)
  }

  /** For a draw in [0, 1) the jittered energy stays within half the jitter of the last one. */
  lemma {:induction false} JitterBound(m: Method, last: real, u: real)
    requires 0.0 <= u < 1.0
    ensures var d := JitteredEnergy(m, last, u) - last;
      && -Jitter(m) / 2.0 <= d < Jitter(m) / 2.0
      && (m != UccsdHybridZne ==> -0.0005 <= d < 0.0005)
      && (m == UccsdHybridZne ==> -0.00025 <= d < 0.00025)
  {
    var d := JitteredEnergy(m, last, u) - last;
    assert d == Jitter(m) * (u - 0.5);
    assert -0.5 <= u - 0.5 < 0.5;
    match m
    case NormalVqe =>
    case UccsdHybrid =>
    case UccsdHybridZne =>
  }

  /** Python's `s[-1]`. */
  function Last(s: seq<real>): real
    requires |s| > 0
  {
    s[|s| - 1]
  }

  /** Every method of the table that is converged has an energy to jitter. */
  predicate Ready(st: RunState)
  {
    forall m :: m in st.converged && m in st.series ==> |st.series[m].energy| > 0
  }

  /**
   The energy a tick records for m: the sample it is given while m is
   unconverged, or the jittered last energy, moved by the draw u(m), once m
   has converged.
   */
  function NextEnergy(st: RunState, m: Method, sample: Method -> real, u: Method -> real): real
    requires m in st.series && Ready(st)
  {
    if m in st.converged then JitteredEnergy(m, Last(st.series[m].energy), u(m)) else sample(m)
  }

  // ---------------------------------------------------------------------------
  // One tick and one reset

  /** Python's `s[-n:]` for n > 0: the last n entries, or all of them when there are fewer. */
  function KeepLast<T>(s: seq<T>, n: nat): (r: seq<T>)
    ensures |r| == if |s| > n then n else |s|
    ensures r == s[|s| - |r|..]
  {
    if |s| > n then s[|s| - n..] else s
  }

  /** The table after every method has had (iter, its next energy) appended. */
  function Appended(st: RunState, sample: Method -> real, u: Method -> real): map<Method, Series>
    requires Ready(st)
  {
    map m | m in st.series ::
      Series(st.series[m].iterations + [st.iter], st.series[m].energy + [NextEnergy(st, m, sample, u)])
  }

  /** The table after truncation, which is decided by the length of the normal_vqe series alone. */
  function Trimmed(series: map<Method, Series>): map<Method, Series>
  {
    if NormalVqe in series && |series[NormalVqe].iterations| > HistoryLimit then
      map m | m in series :: Trim(series[m])
    else series
  }

  /** One series cut back to its last HistoryLimit entries. */
  function Trim(s: Series): Series
  {
    Series(KeepLast(s.iterations, HistoryLimit), KeepLast(s.energy, HistoryLimit))
  }

  /** The state after the tick body: append, check convergence, maybe stop, count, truncate. */
  function Generate(st: RunState, sample: Method -> real, u: Method -> real): RunState
    requires Ready(st)
  {
    var appended := Appended(st, sample, u);
    var converged := Converge(appended, st.converged);
    RunState(Trimmed(appended), st.iter + 1, converged, st.stopped || |converged| == 3)
  }

  /** The state after a tick: the guard, then the body only when the run is still going. */
  function Step(st: RunState, sample: Method -> real, u: Method -> real): RunState
    requires Ready(st)
  {
    if st.stopped || |st.converged| >= 3 then
      st.(stopped := st.stopped || |st.converged| >= 3)
    else
      Generate(st, sample, u)
  }

  /** The state after a reset: every series of the table emptied, the counter, set and flag cleared. */
  function Cleared(st: RunState): RunState
  {
    RunState(map m | m in st.series :: Series([], []), 0, {}, false)
  }

  // ---------------------------------------------------------------------------
  // The invariant of a run

  /** How many entries a series holds after `iter` ticks of one run. */
  function Retained(iter: nat): (n: nat)
    ensures n <= iter && n <= HistoryLimit
    ensures n == iter || n == HistoryLimit
  {
    if iter > HistoryLimit then HistoryLimit else iter
  }

  /**
   A series after `iter` ticks of a run: two lists of equal length, at most
   HistoryLimit, whose iteration numbers are the most recent ones, in order.
   */
  predicate SeriesInv(s: Series, iter: nat)
  {
    |s.iterations| == Retained(iter) && |s.energy| == Retained(iter) &&
    forall k :: 0 <= k < |s.iterations| ==> s.iterations[k] == iter - Retained(iter) + k
  }

  predicate Inv(st: RunState)
  {
    && st.series.Keys == AllMethods
    && (forall m :: m in st.series ==> SeriesInv(st.series[m], st.iter))
    && (forall m :: m in st.converged ==> m in st.series && |st.series[m].energy| >= ConvergenceWindow)
    && (st.stopped <==> st.converged == AllMethods)
  }

  /**
   `history` holds, per method, every energy appended in the run, one per
   tick, and each series keeps the last HistoryLimit of them.
   */
  predicate Tracks(st: RunState, history: map<Method, seq<real>>)
  {
    && history.Keys == AllMethods
    && forall m :: m in history ==>
      |history[m]| == st.iter && m in st.series && st.series[m].energy == KeepLast(history[m], HistoryLimit)
  }

  /** The history after a tick body has recorded each method's next energy. */
  function Recorded(history: map<Method, seq<real>>, st: RunState, sample: Method -> real, u: Method -> real): map<Method, seq<real>>
    requires Ready(st) && history.Keys <= st.series.Keys
  {
    map m | m in history :: history[m] + [NextEnergy(st, m, sample, u)]
  }

  /** The table with the three methods updated one after another, as the tick body writes it. */
  lemma AppendedInOrder(st: RunState, sample: Method -> real, u: Method -> real)
    requires Ready(st) && st.series.Keys == AllMethods
    ensures Appended(st, sample, u) ==
      st.series[NormalVqe := Series(st.series[NormalVqe].iterations + [st.iter], st.series[NormalVqe].energy + [NextEnergy(st, NormalVqe, sample, u)])]
               [UccsdHybrid := Series(st.series[UccsdHybrid].iterations + [st.iter], st.series[UccsdHybrid].energy + [NextEnergy(st, UccsdHybrid, sample, u)])]
               [UccsdHybridZne := Series(st.series[UccsdHybridZne].iterations + [st.iter], st.series[UccsdHybridZne].energy + [NextEnergy(st, UccsdHybridZne, sample, u)])]
  {
    forall m ensures m in AllMethods {
      MethodsListsAll(m);
    }
  }

  lemma InitialInv()
    ensures Inv(Initial())
  {
  }

  /** Appending the next entry and keeping the last n is the same as keeping the last n of everything appended. */
  lemma KeepLastOfAppend<T>(h: seq<T>, x: T, n: nat)
    requires n > 0
    ensures KeepLast(KeepLast(h, n) + [x], n) == KeepLast(h + [x], n)
  {
    var a, b := KeepLast(KeepLast(h, n) + [x], n), KeepLast(h + [x], n);
    assert |a| == |b|;
    forall k | 0 <= k < |a| ensures a[k] == b[k] {
      if k == |a| - 1 {
      } else {
        assert a[k] == (h + [x])[|h| + 1 - |a| + k];
      }
    }
  }

  /** When every list of the table is as long as normal_vqe's, truncation cuts each series back alike. */
  lemma {:induction false} TrimmedIsTrim(series: map<Method, Series>, m: Method)
    requires m in series && NormalVqe in series
    requires |series[m].iterations| == |series[NormalVqe].iterations| && |series[m].energy| == |series[m].iterations|
    ensures m in Trimmed(series) && Trimmed(series)[m] == Trim(series[m])
  {
    if |series[NormalVqe].iterations| <= HistoryLimit {
      assert KeepLast(series[m].iterations, HistoryLimit) == series[m].iterations;
      assert KeepLast(series[m].energy, HistoryLimit) == series[m].energy;
    }
  }

  /** Under the invariant, the tick body appends exactly one entry per method and cuts every series back to the limit. */
  lemma {:induction false} GenerateAppends(st: RunState, sample: Method -> real, u: Method -> real)
    requires Inv(st)
    ensures Ready(st)
    ensures var t := Generate(st, sample, u);
      && t.iter == st.iter + 1
      && t.series.Keys == AllMethods
      && forall m :: m in AllMethods ==>
        && t.series[m].iterations == KeepLast(st.series[m].iterations + [st.iter], HistoryLimit)
        && t.series[m].energy == KeepLast(st.series[m].energy + [NextEnergy(st, m, sample, u)], HistoryLimit)
  {
    var appended := Appended(st, sample, u);
    assert appended.Keys == AllMethods;
    forall m | m in AllMethods
      ensures Trimmed(appended)[m] == Trim(appended[m])
    {
      assert SeriesInv(st.series[m], st.iter) && SeriesInv(st.series[NormalVqe], st.iter);
      TrimmedIsTrim(appended, m);
    }
  }

  /** One series keeps its invariant when the next entry is appended and it is cut back to the limit. */
  lemma {:induction false} SeriesInvAppend(s: Series, iter: nat, x: real, t: Series)
    requires SeriesInv(s, iter)
    requires t.iterations == KeepLast(s.iterations + [iter], HistoryLimit) && t.energy == KeepLast(s.energy + [x], HistoryLimit)
    ensures SeriesInv(t, iter + 1)
  {
    var a := s.iterations + [iter];
    assert |a| == Retained(iter) + 1 && |s.energy + [x]| == Retained(iter) + 1;
    assert |t.iterations| == Retained(iter + 1);
    forall k | 0 <= k < |t.iterations| ensures t.iterations[k] == iter + 1 - Retained(iter + 1) + k {
      var j := |a| - |t.iterations| + k;
      assert t.iterations[k] == a[j];
      if j < |s.iterations| {
        assert a[j] == s.iterations[j];
      }
    }
  }

  /** What the convergence check adds: only methods of the table whose appended energies pass the test. */
  lemma {:induction false} ConvergeMembers(series: map<Method, Series>, converged: set<Method>, m: Method)
    ensures m in Converge(series, converged) <==> m in converged || (m in series && Settled(series[m].energy))
  {
  }

  /** After the tick body every series still satisfies its invariant, one tick later. */
  lemma {:induction false} GenerateKeepsSeries(st: RunState, sample: Method -> real, u: Method -> real)
    requires Inv(st)
    ensures Ready(st)
    ensures var t := Generate(st, sample, u);
      t.series.Keys == AllMethods && forall m :: m in t.series ==> SeriesInv(t.series[m], t.iter)
  {
    GenerateAppends(st, sample, u);
    var t := Generate(st, sample, u);
    forall m | m in t.series ensures SeriesInv(t.series[m], t.iter) {
      SeriesInvAppend(st.series[m], st.iter, NextEnergy(st, m, sample, u), t.series[m]);
    }
  }

  /** After the tick body every converged method has at least ConvergenceWindow energies. */
  lemma {:induction false} GenerateKeepsConverged(st: RunState, sample: Method -> real, u: Method -> real)
    requires Inv(st)
    ensures Ready(st)
    ensures var t := Generate(st, sample, u);
      forall m :: m in t.converged ==> m in t.series && |t.series[m].energy| >= ConvergenceWindow
  {
    GenerateKeepsSeries(st, sample, u);
    var t := Generate(st, sample, u);
    var appended := Appended(st, sample, u);
    forall m | m in t.converged ensures m in t.series && |t.series[m].energy| >= ConvergenceWindow {
      ConvergeMembers(appended, st.converged, m);
      assert SeriesInv(t.series[m], t.iter);
    }
  }

  /** After the tick body the run is stopped exactly when all three methods have converged. */
  lemma {:induction false} GenerateKeepsStop(st: RunState, sample: Method -> real, u: Method -> real)
    requires Inv(st)
    ensures Ready(st)
    ensures var t := Generate(st, sample, u); t.stopped <==> t.converged == AllMethods
  {
    var t := Generate(st, sample, u);
    CountOfConverged(st.converged);
    CountOfConverged(t.converged);
  }

  lemma {:induction false} GeneratePreservesInv(st: RunState, sample: Method -> real, u: Method -> real)
    requires Inv(st)
    ensures Ready(st) && Inv(Generate(st, sample, u))
  {
    GenerateKeepsSeries(st, sample, u);
    GenerateKeepsConverged(st, sample, u);
    GenerateKeepsStop(st, sample, u);
  }

  /** The tick body's state assembled from its three phases: append, convergence check, truncation. */
  lemma GenerateInPhases(st: RunState, sample: Method -> real, u: Method -> real,
                         appended: map<Method, Series>, converged: set<Method>, trimmed: map<Method, Series>)
    requires Ready(st) && appended == Appended(st, sample, u) && trimmed == Trimmed(appended)
    requires converged == Converge(appended, st.converged)
    ensures Generate(st, sample, u) == RunState(trimmed, st.iter + 1, converged, st.stopped || |converged| == 3)
  {
  }

  /** The recorded history is one tick longer, and its last HistoryLimit entries are those of the series with the next energy appended. */
  lemma {:induction false} RecordedKeepsLast(st: RunState, history: map<Method, seq<real>>, sample: Method -> real, u: Method -> real)
    requires Ready(st) && Tracks(st, history)
    ensures var recorded := Recorded(history, st, sample, u);
      && recorded.Keys == AllMethods
      && forall m :: m in AllMethods ==>
        && |recorded[m]| == st.iter + 1
        && KeepLast(recorded[m], HistoryLimit) == KeepLast(st.series[m].energy + [NextEnergy(st, m, sample, u)], HistoryLimit)
  {
    forall m | m in AllMethods
      ensures KeepLast(history[m] + [NextEnergy(st, m, sample, u)], HistoryLimit)
        == KeepLast(st.series[m].energy + [NextEnergy(st, m, sample, u)], HistoryLimit)
    {
      KeepLastOfAppend(history[m], NextEnergy(st, m, sample, u), HistoryLimit);
    }
  }

  /** Each series still holds the last HistoryLimit of everything appended once the tick body has recorded one more energy. */
  lemma {:induction false} GenerateTracks(st: RunState, history: map<Method, seq<real>>, sample: Method -> real, u: Method -> real)
    requires Inv(st) && Tracks(st, history)
    ensures Ready(st) && Tracks(Generate(st, sample, u), Recorded(history, st, sample, u))
  {
    GenerateAppends(st, sample, u);
    RecordedKeepsLast(st, history, sample, u);
  }

  /** Every tick keeps the invariant: sizes, consecutive iteration numbers, converged lists long enough, stop flag. */
  lemma {:induction false} StepPreservesInv(st: RunState, sample: Method -> real, u: Method -> real)
    requires Inv(st)
    ensures Ready(st) && Inv(Step(st, sample, u))
  {
    CountOfConverged(st.converged);
    if !st.stopped {
      GeneratePreservesInv(st, sample, u);
    }
  }

  /** A tick of a run that is not stopped appends iter and the next energy to every series and counts one up. */
  lemma {:induction false} StepAppendsOnce(st: RunState, sample: Method -> real, u: Method -> real)
    requires Inv(st) && !st.stopped
    ensures Ready(st)
    ensures var t := Step(st, sample, u);
      && t.iter == st.iter + 1
      && forall m :: m in AllMethods ==>
        && t.series[m].iterations == KeepLast(st.series[m].iterations + [st.iter], HistoryLimit)
        && t.series[m].energy == KeepLast(st.series[m].energy + [NextEnergy(st, m, sample, u)], HistoryLimit)
  {
    CountOfConverged(st.converged);
    GenerateAppends(st, sample, u);
  }

  /** A tick that starts stopped, or with all three converged, appends nothing, keeps the counter and leaves the run stopped. */
  lemma StepWhenDoneIsIdle(st: RunState, sample: Method -> real, u: Method -> real)
    requires Ready(st) && (st.stopped || |st.converged| >= 3)
    ensures var t := Step(st, sample, u);
      t.series == st.series && t.iter == st.iter && t.converged == st.converged && t.stopped
  {
  }

  /**
   Under the invariant, membership of the converged set only grows, and a
   method joins exactly when the run was not stopped, it was not converged and
   its energies with the new one appended pass the convergence test.
   */
  lemma {:induction false} ConvergenceIsOneShot(st: RunState, sample: Method -> real, u: Method -> real, m: Method)
    requires Inv(st)
    ensures Ready(st) && m in st.series
    ensures var t := Step(st, sample, u);
      && (m in st.converged ==> m in t.converged)
      && (m in t.converged && m !in st.converged <==>
          !st.stopped && m !in st.converged && Settled(st.series[m].energy + [NextEnergy(st, m, sample, u)]))
  {
    CountOfConverged(st.converged);
  }

  /** A method can only have converged once at least ConvergenceWindow ticks of the run have happened. */
  lemma {:induction false} ConvergedAfterWindow(st: RunState, m: Method)
    requires Inv(st) && m in st.converged
    ensures st.iter >= ConvergenceWindow && st.series[m].energy != []
  {
    assert SeriesInv(st.series[m], st.iter);
  }

  /** A converged method's newest energy differs from its previous one by less than half its jitter. */
  lemma {:induction false} ConvergedStepBound(st: RunState, sample: Method -> real, u: Method -> real, m: Method)
    requires Inv(st) && !st.stopped && m in st.converged && 0.0 <= u(m) < 1.0
    ensures Ready(st)
    ensures var before, after := st.series[m].energy, Step(st, sample, u).series[m].energy;
      && |before| > 0 && |after| > 0
      && var d := after[|after| - 1] - before[|before| - 1];
      && (m != UccsdHybridZne ==> -0.0005 <= d < 0.0005)
      && (m == UccsdHybridZne ==> -0.00025 <= d < 0.00025)
  {
    StepAppendsOnce(st, sample, u);
    JitterBound(m, Last(st.series[m].energy), u(m));
  }

  /** After every tick the run is stopped exactly when all three methods have converged. */
  lemma {:induction false} StopsExactlyWhenAllConverged(st: RunState, sample: Method -> real, u: Method -> real)
    requires Inv(st)
    ensures Ready(st)
    ensures var t := Step(st, sample, u); t.stopped <==> |t.converged| == 3
  {
    StepPreservesInv(st, sample, u);
    CountOfConverged(Step(st, sample, u).converged);
  }

  /** A reset from any state of the table gives the initial state, which keeps the invariant. */
  lemma ClearedIsInitial(st: RunState)
    requires st.series.Keys == AllMethods
    ensures Cleared(st) == Initial() && Inv(Cleared(st))
  {
  }
}
