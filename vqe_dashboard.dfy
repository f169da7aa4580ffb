/**
 The dashboard's run state as an object whose methods update its fields in
 place, in the order the dashboard does. Each method is proved against the
 value-level function of VqeRun that describes it, or states its field
 updates directly.
 */
module VqeDashboard {
  import opened VqeRun

  class Dashboard {
    /** Per method, the parallel lists of iteration numbers and energies. */
    var series: map<Method, Series>
    /** The iteration number the next tick records. */
    var iter: nat
    /** Set once all three methods have converged; a stopped run appends nothing. */
    var stopped: bool
    /** The methods that have converged in this run. */
    var converged: set<Method>

    /** Every energy appended to each series since the run began, before any truncation. */
    ghost var history: map<Method, seq<real>>

    ghost function State(): RunState
      reads this
    {
      RunState(series, iter, converged, stopped)
    }

    /** The run invariant, and each energy list is the last HistoryLimit entries of everything appended in the run. */
    ghost predicate Valid()
      reads this
    {
      Inv(State()) && Tracks(State(), history)
    }

    constructor ()
      ensures Valid() && State() == Initial()
      ensures forall m :: m in AllMethods ==> history[m] == []
    {
      series := map[NormalVqe := Series([], []), UccsdHybrid := Series([], []), UccsdHybridZne := Series([], [])];
      iter := 0;
      stopped := false;
      converged := {};
      history := map m | m in AllMethods :: [];
      new;
      assert series == Initial().series;
    }

    /**
     The convergence check: each method of the table that is not yet converged
     joins when it has at least ConvergenceWindow energies and the last ones
     span less than ConvergenceThreshold.
     */
    method CheckConvergence()
      requires series.Keys == AllMethods
      modifies `converged
      ensures converged == Converge(series, old(converged))
      ensures forall m :: m in converged <==> m in old(converged) || (m in series && Settled(series[m].energy))
    {
      for i := 0 to |Methods|
        invariant forall m :: m in converged <==> m in old(converged) || (m in Methods[..i] && Settled(series[m].energy))
      {
        var methodName := Methods[i];
        assert Methods[..i + 1] == Methods[..i] + [methodName];
        if methodName in converged {
          continue;
        }
        var energies := series[methodName].energy;
        if |energies| >= ConvergenceWindow {
          var recentEnergies := energies[|energies| - ConvergenceWindow..];
          var energyRange := Max(recentEnergies) - Min(recentEnergies);
          if energyRange < ConvergenceThreshold {
            converged := converged + {methodName};
          }
        }
      }
      assert Methods[..|Methods|] == Methods;
      forall m ensures m in Methods && (m in converged <==> m in Converge(series, old(converged))) {
        MethodsListsAll(m);
        ConvergeMembers(series, old(converged), m);
      }
    }

    /**
     The first half of the tick body: one energy per method (the given sample,
     or the jittered last energy once converged), appended together with the
     current iteration number.
     */
    method AppendSamples(sample: Method -> real, u: Method -> real)
      requires series.Keys == AllMethods && Ready(State())
      modifies `series
      ensures series == Appended(old(State()), sample, u)
      ensures series.Keys == AllMethods
    {
      var iteration := iter;

      var normalEnergy := if NormalVqe !in converged then sample(NormalVqe)
        else JitteredEnergy(NormalVqe, Last(series[NormalVqe].energy), u(NormalVqe));
      var hybridEnergy := if UccsdHybrid !in converged then sample(UccsdHybrid)
        else JitteredEnergy(UccsdHybrid, Last(series[UccsdHybrid].energy), u(UccsdHybrid));
      var zneEnergy := if UccsdHybridZne !in converged then sample(UccsdHybridZne)
        else JitteredEnergy(UccsdHybridZne, Last(series[UccsdHybridZne].energy), u(UccsdHybridZne));

      series := series[NormalVqe := Series(series[NormalVqe].iterations + [iteration], series[NormalVqe].energy + [normalEnergy])];
      series := series[UccsdHybrid := Series(series[UccsdHybrid].iterations + [iteration], series[UccsdHybrid].energy + [hybridEnergy])];
      series := series[UccsdHybridZne := Series(series[UccsdHybridZne].iterations + [iteration], series[UccsdHybridZne].energy + [zneEnergy])];
      AppendedInOrder(old(State()), sample, u);
    }

    /**
     The tick body: append one energy per method, check convergence, stop
     once all three have converged, count the tick and truncate.
     */
    method GenerateNewDataPoint(sample: Method -> real, u: Method -> real)
      requires series.Keys == AllMethods && history.Keys <= AllMethods && Ready(State())
      modifies this
      ensures State() == Generate(old(State()), sample, u)
      ensures history == Recorded(old(history), old(State()), sample, u)
    {
      ghost var st := State();
      AppendSamples(sample, u);
      ghost var appended := series;
      CheckConvergence();
      ghost var joined := converged;
      FinishTick();
      TruncateSeries();
      assert appended == Appended(st, sample, u) && joined == Converge(appended, st.converged);
      assert series == Trimmed(appended) && iter == st.iter + 1 && stopped == (st.stopped || |joined| == 3);
      GenerateInPhases(st, sample, u, appended, joined, series);
      history := Recorded(history, st, sample, u);
    }

    /** The end of the tick body: the run stops once all three methods have converged, and the counter moves on. */
    method FinishTick()
      modifies `stopped, `iter
      ensures stopped == (old(stopped) || |converged| == 3)
      ensures iter == old(iter) + 1
    {
      var convergedCount := |converged|;
      if convergedCount == 3 {
        stopped := true;
      }
      iter := iter + 1;
    }

    /** Cuts every series back to its last HistoryLimit entries once the normal_vqe series is longer than that. */
    method TruncateSeries()
      modifies `series
      ensures series == Trimmed(old(series))
    {
      if NormalVqe in series && |series[NormalVqe].iterations| > HistoryLimit {
        for i := 0 to |Methods|
          invariant series.Keys == old(series).Keys
          invariant forall m :: m in series ==> series[m] == if m in Methods[..i] then Trim(old(series)[m]) else old(series)[m]
        {
          var m := Methods[i];
          assert Methods[..i + 1] == Methods[..i] + [m];
          if m in series {
            series := series[m := series[m].(iterations := KeepLast(series[m].iterations, HistoryLimit))];
            series := series[m := series[m].(energy := KeepLast(series[m].energy, HistoryLimit))];
          }
        }
        assert Methods[..|Methods|] == Methods;
        forall m | m in series ensures series[m] == Trim(old(series)[m]) {
          MethodsListsAll(m);
        }
      }
    }

    /**
     One timer tick: when the run is stopped or all three methods have
     converged it only sets the flag; otherwise it runs the tick body.
     */
    method Tick(sample: Method -> real, u: Method -> real)
      requires Valid()
      modifies this
      ensures Valid()
      ensures Ready(old(State())) && State() == Step(old(State()), sample, u)
      ensures old(stopped) ==> history == old(history)
      ensures !old(stopped) ==> history == Recorded(old(history), old(State()), sample, u)
    {
      CountOfConverged(converged);
      if stopped || |converged| >= 3 {
        if |converged| >= 3 {
          stopped := true;
        }
        return;
      }
      ghost var st := State();
      GeneratePreservesInv(st, sample, u);
      GenerateTracks(st, history, sample, u);
      GenerateNewDataPoint(sample, u);
    }

    /** The restart: counter to 0, converged set and stop flag cleared, every series emptied. */
    method Reset()
      requires series.Keys == AllMethods
      modifies this
      ensures Valid()
      ensures State() == Cleared(old(State())) && State() == Initial()
      ensures forall m :: m in AllMethods ==> history[m] == []
    {
      iter := 0;
      converged := {};
      stopped := false;
      for i := 0 to |Methods|
        invariant iter == 0 && converged == {} && !stopped
        invariant series.Keys == AllMethods
        invariant forall m :: m in series && m in Methods[..i] ==> series[m] == Series([], [])
      {
        var key := Methods[i];
        assert Methods[..i + 1] == Methods[..i] + [key];
        series := series[key := series[key].(iterations := [])];
        series := series[key := series[key].(energy := [])];
      }
      assert Methods[..|Methods|] == Methods;
      forall m | m in series ensures series[m] == Series([], []) {
        MethodsListsAll(m);
      }
      history := map m | m in AllMethods :: [];
      ClearedIsInitial(old(State()));
      assert series == Initial().series;
      InitialInv();
    }
  }
}
