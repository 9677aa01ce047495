/** The calls that the comparison of remote and local control takes for a local run are those of the
    control's own init loop. */
module LocalTraces {
  import opened Basics
  import opened LockValues
  import AcquireSessions
  import Controls
  import RemoteControls

  /** The gate winners among the first `n` entries, in the control's order. */
  function WonOrder(names: seq<Key>, locks: seq<Lock>, n: nat): seq<Key>
    requires n <= |names| == |locks|
  {
    if n == 0 then [] else WonOrder(names, locks, n - 1) + if locks[n - 1].init then [names[n - 1]] else []
  }

  /** Whether their inits succeed, should they run. */
  function WonOks(locks: seq<Lock>, outcome: seq<Option<string>>, n: nat): seq<bool>
    requires n <= |locks| == |outcome|
  {
    if n == 0 then [] else WonOks(locks, outcome, n - 1) + if locks[n - 1].init then [outcome[n - 1].None?] else []
  }

  function Events(reports: seq<(Key, bool)>): seq<AcquireSessions.Event> {
    seq(|reports|, i requires 0 <= i < |reports| => AcquireSessions.Result(reports[i].0, reports[i].1))
  }

  lemma {:induction false} Lengths(names: seq<Key>, locks: seq<Lock>, outcome: seq<Option<string>>, n: nat)
    requires n <= |names| == |locks| == |outcome|
    ensures |WonOrder(names, locks, n)| == |WonOks(locks, outcome, n)| == Controls.WinsBefore(locks, n)
  {
    if n > 0 {
      Lengths(names, locks, outcome, n - 1);
    }
  }

  lemma {:induction false} WinsGrow(locks: seq<Lock>, m: nat, n: nat)
    requires m <= n <= |locks|
    ensures Controls.WinsBefore(locks, m) <= Controls.WinsBefore(locks, n)
    ensures m < n && locks[m].init ==> Controls.WinsBefore(locks, m) < Controls.WinsBefore(locks, n)
    decreases n - m
  {
    if m < n {
      WinsGrow(locks, m, n - 1);
    }
  }

  lemma {:induction false} OksPrefix(locks: seq<Lock>, outcome: seq<Option<string>>, m: nat, n: nat)
    requires m <= n <= |locks| == |outcome|
    ensures WonOks(locks, outcome, m) <= WonOks(locks, outcome, n)
    decreases n - m
  {
    if m < n {
      OksPrefix(locks, outcome, m, n - 1);
    }
  }

  lemma {:induction false} OksBefore(locks: seq<Lock>, outcome: seq<Option<string>>, n: nat)
    requires |locks| == |outcome| && n <= Controls.FirstFailure(Controls.Inits(locks), outcome)
    ensures n <= |locks| && false !in WonOks(locks, outcome, n)
  {
    if n > 0 {
      OksBefore(locks, outcome, n - 1);
      assert Controls.Inits(locks)[n - 1] == locks[n - 1].init;
    }
  }

  lemma FirstFalseIs(oks: seq<bool>, a: seq<bool>)
    requires a <= oks && false !in a && (a == oks || a + [false] <= oks)
    ensures RemoteControls.FirstFalse(oks) == |a|
  {
    assert forall i :: 0 <= i < |a| ==> oks[i] == a[i] && a[i] in a;
    if a != oks {
      assert oks[|a|] == (a + [false])[|a|];
    }
  }

  /** The first failure among the winners is the first failure of the loop. */
  lemma FailureIndex(names: seq<Key>, locks: seq<Lock>, outcome: seq<Option<string>>)
    requires |names| == |locks| == |outcome|
    ensures var f := Controls.FirstFailure(Controls.Inits(locks), outcome);
            RemoteControls.FirstFalse(WonOks(locks, outcome, |locks|)) == Controls.WinsBefore(locks, f)
  {
    var f, n := Controls.FirstFailure(Controls.Inits(locks), outcome), |locks|;
    OksBefore(locks, outcome, f);
    Lengths(names, locks, outcome, f);
    OksPrefix(locks, outcome, f, n);
    if f < n {
      OksPrefix(locks, outcome, f + 1, n);
      assert Controls.Inits(locks)[f] == locks[f].init;
      assert WonOks(locks, outcome, f + 1) == WonOks(locks, outcome, f) + [false];
    }
    FirstFalseIs(WonOks(locks, outcome, n), WonOks(locks, outcome, f));
  }

  lemma {:induction false} SameReports(names: seq<Key>, locks: seq<Lock>, f: nat, n: nat)
    requires n <= |names| == |locks| && f <= |locks|
    ensures Events(Controls.ReportsOf(names, locks, f, n)) ==
            RemoteControls.LocalResults(WonOrder(names, locks, n), Controls.WinsBefore(locks, f))
    ensures |WonOrder(names, locks, n)| == Controls.WinsBefore(locks, n)
  {
    if n > 0 {
      SameReports(names, locks, f, n - 1);
      if n <= f {
        WinsGrow(locks, n - 1, f);
      } else {
        WinsGrow(locks, f, n - 1);
      }
      OneMoreReport(names, locks, f, n);
    }
  }

  lemma OneMoreReport(names: seq<Key>, locks: seq<Lock>, f: nat, n: nat)
    requires 0 < n <= |names| == |locks| && f <= |locks|
    requires locks[n - 1].init ==> (n - 1 < f <==> |WonOrder(names, locks, n - 1)| < Controls.WinsBefore(locks, f))
    requires Events(Controls.ReportsOf(names, locks, f, n - 1)) ==
             RemoteControls.LocalResults(WonOrder(names, locks, n - 1), Controls.WinsBefore(locks, f))
    ensures Events(Controls.ReportsOf(names, locks, f, n)) ==
            RemoteControls.LocalResults(WonOrder(names, locks, n), Controls.WinsBefore(locks, f))
  {
    var was, now := Events(Controls.ReportsOf(names, locks, f, n - 1)), Events(Controls.ReportsOf(names, locks, f, n));
    var local := RemoteControls.LocalResults(WonOrder(names, locks, n), Controls.WinsBefore(locks, f));
    if locks[n - 1].init {
      assert now == was + [AcquireSessions.Result(names[n - 1], n - 1 < f)];
      assert local == was + [AcquireSessions.Result(names[n - 1], n - 1 < f)];
    } else {
      assert Controls.ReportsOf(names, locks, f, n) == Controls.ReportsOf(names, locks, f, n - 1);
      assert WonOrder(names, locks, n) == WonOrder(names, locks, n - 1);
    }
  }

  /** For every iteration order and every outcome of the inits: the results that the control's loop
      reports are the local results of its winners in that order, failed from the first failure on,
      and it runs as many inits as the client would. */
  lemma LocalTrace(names: seq<Key>, locks: seq<Lock>, outcome: seq<Option<string>>)
    requires |names| == |locks| == |outcome|
    ensures var f, order, oks := Controls.FirstFailure(Controls.Inits(locks), outcome), WonOrder(names, locks, |names|), WonOks(locks, outcome, |names|);
            && |order| == |oks|
            && Events(Controls.ReportsOf(names, locks, f, |names|)) == RemoteControls.LocalResults(order, RemoteControls.FirstFalse(oks))
            && Controls.WinsBefore(locks, if f < |names| then f + 1 else f) == RemoteControls.Runs(oks)
  {
    var f := Controls.FirstFailure(Controls.Inits(locks), outcome);
    FailureIndex(names, locks, outcome);
    Lengths(names, locks, outcome, |names|);
    SameReports(names, locks, f, |names|);
    WinsGrow(locks, f, |names|);
    if f < |names| {
      assert Controls.Inits(locks)[f] == locks[f].init;
    }
  }
}
