/** One node's health memory: a window of accepted probe results with derived counters, kept up to date
    record by record (service/proxy/health_batcher.go:308-420, 541-658), and the log it summarises. */
module HealthLog {

  const LIMIT: nat := 30
  const DEDUP := 2_000_000_000

  datatype When = Never | At(t: int)

  datatype Record = Record(source: string, target: string, probeUrl: string, available: bool,
                           latencyMs: nat, error: string, at: int)

  datatype Config = Config(threshold: int, duration: int)

  /** The columns a flush writes. */
  datatype Columns = Columns(
    available: bool, failures: nat, successes: nat, streak: nat, blacklisted: bool, until: When,
    latencyMs: nat, error: string, checkedAt: When, lastSuccess: When, lastFailure: When)

  const BLANK := Columns(false, 0, 0, 0, false, Never, 0, "", Never, Never, Never)

  datatype Memory = Memory(cols: Columns, history: seq<Record>, dirty: bool, revision: nat)

  const FRESH := Memory(BLANK, [], false, 0)

  /** What changes a node's memory: a result, or one of the four resets
      (NodeRelease, NodeBlacklist, an exclusion from a starting runtime, a revival). */
  datatype Input =
    | Result(r: Record, cfg: Config)
    | Release
    | Blacklist(now: int, duration: int)
    | Exclude(now: int, cfg: Config, error: string)
    | Revival

  // ---------------------------------------------------------------- the incremental form

  predicate IsTraffic(source: string) {
    source == "runtime-traffic" || source == "mapping-test"
  }

  predicate Clash(e: Record, r: Record) {
    && !e.available && !r.available && IsTraffic(e.source) && IsTraffic(r.source) && e.source != r.source
    && -DEDUP <= r.at - e.at <= DEDUP
  }

  predicate Duplicate(history: seq<Record>, r: Record) {
    exists i :: 0 <= i < |history| && Clash(history[i], r)
  }

  function Last<T>(s: seq<T>): seq<T> {
    if |s| > LIMIT then s[|s| - LIMIT..] else s
  }

  function Count(rs: seq<Record>, available: bool): nat {
    if |rs| == 0 then 0
    else Count(rs[..|rs| - 1], available) + if rs[|rs| - 1].available == available then 1 else 0
  }

  function LastTime(rs: seq<Record>, available: bool): When {
    if |rs| == 0 then Never
    else if rs[|rs| - 1].available == available then At(rs[|rs| - 1].at)
    else LastTime(rs[..|rs| - 1], available)
  }

  predicate Running(blacklisted: bool, until: When, at: int) {
    blacklisted && (until.At? ==> until.t > at)
  }

  /** applyNodeHealthProbeRecord (health_batcher.go:541). */
  function Accept(m: Memory, r: Record, cfg: Config): Memory {
    var h := Last(m.history + [r]);
    var streak := if r.available then 0 else m.cols.streak + 1;
    var hit := !r.available && cfg.threshold > 0 && streak >= cfg.threshold;
    var keep := !r.available && !hit && Running(m.cols.blacklisted, m.cols.until, r.at);
    Memory(
      Columns(r.available, Count(h, false), Count(h, true), streak,
              hit || keep, if hit then At(r.at + cfg.duration) else if keep then m.cols.until else Never,
              r.latencyMs, if r.available then "" else r.error,
              At(r.at), LastTime(h, true), LastTime(h, false)),
      h, true, m.revision + 1)
  }

  function Touch(m: Memory, cols: Columns): Memory {
    m.(cols := cols, dirty := true, revision := m.revision + 1)
  }

  function Apply(m: Memory, i: Input): Memory {
    match i
    case Result(r, cfg) => if Duplicate(m.history, r) then m else Accept(m, r, cfg)
    case Release => Touch(m, m.cols.(blacklisted := false, until := Never, streak := 0, error := ""))
    case Blacklist(now, duration) =>
      Touch(m, m.cols.(available := false, blacklisted := true, until := At(now + duration), streak := 0,
                       error := "manually blacklisted"))
    case Exclude(now, cfg, error) =>
      Touch(m, m.cols.(available := false, blacklisted := true, until := At(now + cfg.duration), streak := 0,
                       error := error, lastFailure := At(now)))
    case Revival =>
      Touch(m, m.cols.(available := true, blacklisted := false, until := Never, streak := 0, error := ""))
  }

  function Run(m: Memory, inputs: seq<Input>): Memory {
    if |inputs| == 0 then m else Apply(Run(m, inputs[..|inputs| - 1]), inputs[|inputs| - 1])
  }

  // ---------------------------------------------------------------- the log

  function Records(log: seq<Input>): seq<Record> {
    if |log| == 0 then []
    else
      var last := log[|log| - 1];
      Records(log[..|log| - 1]) + if last.Result? then [last.r] else []
  }

  function Window(log: seq<Input>): seq<Record> {
    Last(Records(log))
  }

  /** The log keeps every input except a failure that repeats one in the window. */
  function Log(inputs: seq<Input>): seq<Input> {
    if |inputs| == 0 then []
    else
      var log := Log(inputs[..|inputs| - 1]);
      var i := inputs[|inputs| - 1];
      if i.Result? && Duplicate(Window(log), i.r) then log else log + [i]
  }

  predicate Failure(i: Input) {
    i.Result? && !i.r.available
  }

  /** Failures since the last success or reset. */
  function Streak(log: seq<Input>): nat {
    if |log| == 0 || !Failure(log[|log| - 1]) then 0 else Streak(log[..|log| - 1]) + 1
  }

  /** The exclusion, if any, since the last result. */
  function ExcludedAt(log: seq<Input>): When {
    if |log| == 0 then Never
    else
      match log[|log| - 1]
      case Result(_, _) => Never
      case Exclude(now, _, _) => At(now)
      case _ => ExcludedAt(log[..|log| - 1])
  }

  function LastSeen(log: seq<Input>): (When, nat) {
    var rs := Records(log);
    if |rs| == 0 then (Never, 0) else (At(rs[|rs| - 1].at), rs[|rs| - 1].latencyMs)
  }

  function Available(log: seq<Input>): bool {
    if |log| == 0 then false
    else
      match log[|log| - 1]
      case Result(r, _) => r.available
      case Release => Available(log[..|log| - 1])
      case Blacklist(_, _) => false
      case Exclude(_, _, _) => false
      case Revival => true
  }

  /** Everything a node's memory holds, except the blacklist, is a recount of its log: the window is the
      last thirty accepted records, the counters count it, the streak counts accepted failures since the
      last success or reset, and the last failure time is the window's unless an exclusion set it. */
  ghost predicate Recounts(m: Memory, log: seq<Input>) {
    && m.history == Window(log)
    && m.cols.failures == Count(m.history, false)
    && m.cols.successes == Count(m.history, true)
    && m.cols.streak == Streak(log)
    && m.cols.lastSuccess == LastTime(m.history, true)
    && m.cols.lastFailure == (if ExcludedAt(log).At? then ExcludedAt(log) else LastTime(m.history, false))
    && (m.cols.checkedAt, m.cols.latencyMs) == LastSeen(log)
    && m.cols.available == Available(log)
    && m.revision == |log| && m.dirty == (log != [])
  }

  lemma RecordsAppend(log: seq<Input>, i: Input)
    ensures (log + [i])[..|log|] == log
    ensures Records(log + [i]) == Records(log) + if i.Result? then [i.r] else []
  {
    assert (log + [i])[..|log|] == log;
  }

  lemma LastAppend<T>(s: seq<T>, x: T)
    ensures Last(Last(s) + [x]) == Last(s + [x])
  {
  }

  lemma ResultRecounts(m: Memory, log: seq<Input>, r: Record, cfg: Config)
    requires Recounts(m, log) && !Duplicate(m.history, r)
    ensures Recounts(Accept(m, r, cfg), log + [Result(r, cfg)])
  {
    RecordsAppend(log, Result(r, cfg));
    LastAppend(Records(log), r);
  }

  lemma ResetRecounts(m: Memory, log: seq<Input>, i: Input)
    requires Recounts(m, log) && !i.Result?
    ensures Recounts(Apply(m, i), log + [i])
  {
    RecordsAppend(log, i);
    assert Records(log + [i]) == Records(log);
  }

  lemma {:induction false} MemoryRecountsTheLog(inputs: seq<Input>)
    ensures Recounts(Run(FRESH, inputs), Log(inputs))
  {
    if |inputs| > 0 {
      var before := inputs[..|inputs| - 1];
      var i := inputs[|inputs| - 1];
      MemoryRecountsTheLog(before);
      var m := Run(FRESH, before);
      if !i.Result? {
        ResetRecounts(m, Log(before), i);
      } else if !Duplicate(m.history, i.r) {
        ResultRecounts(m, Log(before), i.r, i.cfg);
      }
    }
  }

  /** The recorded last failure is the window's exactly when no exclusion came after the last accepted
      result, or the exclusion happened at that very time. */
  lemma LastFailureIsRecountIff(inputs: seq<Input>)
    ensures var m := Run(FRESH, inputs);
            m.cols.lastFailure == LastTime(m.history, false) <==>
              ExcludedAt(Log(inputs)) in {Never, LastTime(m.history, false)}
  {
    MemoryRecountsTheLog(inputs);
  }

  /** An exclusion of a node that never failed a probe: a last failure without any failure. */
  lemma ExclusionIsNoRecordedFailure(now: int, cfg: Config, error: string)
    ensures var m := Run(FRESH, [Exclude(now, cfg, error)]);
            m.cols.lastFailure == At(now) && m.cols.failures == 0 && LastTime(m.history, false) == Never
  {
    var i := Exclude(now, cfg, error);
    assert [i][..0] == [];
    assert Run(FRESH, [i]) == Apply(FRESH, i);
  }

  /** The streak is the length of the log's longest tail of failures. */
  lemma {:induction false} StreakIsTheTail(log: seq<Input>)
    ensures Streak(log) <= |log|
    ensures forall k :: |log| - Streak(log) <= k < |log| ==> Failure(log[k])
    ensures Streak(log) < |log| ==> !Failure(log[|log| - 1 - Streak(log)])
  {
    if |log| > 0 && Failure(log[|log| - 1]) {
      StreakIsTheTail(log[..|log| - 1]);
    }
  }

  // ---------------------------------------------------------------- one event, one record

  ghost predicate Spaced(window: seq<Record>) {
    forall i, j :: 0 <= i < j < |window| ==> !Clash(window[i], window[j])
  }

  lemma SpacedAppend(window: seq<Record>, r: Record)
    requires Spaced(window) && !Duplicate(window, r)
    ensures Spaced(Last(window + [r]))
  {
  }

  /** The two sources that see the same broken connection never both enter the window: any two failures
      from different traffic sources are more than two seconds apart, in whatever order they arrive. */
  lemma {:induction false} WindowIsSpaced(inputs: seq<Input>)
    ensures Spaced(Run(FRESH, inputs).history)
  {
    if |inputs| > 0 {
      var before := inputs[..|inputs| - 1];
      WindowIsSpaced(before);
      var i := inputs[|inputs| - 1];
      var m := Run(FRESH, before);
      if i.Result? && !Duplicate(m.history, i.r) {
        SpacedAppend(m.history, i.r);
      }
    }
  }

  // ---------------------------------------------------------------- blacklisting

  /** What an accepted failure does to the blacklist, in terms of the log. */
  lemma FailureBlacklistsIff(inputs: seq<Input>, r: Record, cfg: Config)
    requires cfg.threshold > 0 && !r.available && !Duplicate(Run(FRESH, inputs).history, r)
    ensures var m := Run(FRESH, inputs);
            var n := Apply(m, Result(r, cfg));
            && (n.cols.blacklisted <==>
                 || Streak(Log(inputs) + [Result(r, cfg)]) >= cfg.threshold
                 || Running(m.cols.blacklisted, m.cols.until, r.at))
            && (n.cols.blacklisted && n.cols.until != m.cols.until ==> n.cols.until == At(r.at + cfg.duration))
  {
    MemoryRecountsTheLog(inputs);
    RecordsAppend(Log(inputs), Result(r, cfg));
  }

  /** A failure never lifts a running blacklist, but the threshold replaces its end: a longer blacklist set
      by hand is cut short exactly when the streak reaches the threshold and the new end is earlier. */
  lemma FailureShortensIff(m: Memory, r: Record, cfg: Config)
    requires !r.available && !Duplicate(m.history, r) && m.cols.until.At?
             && Running(m.cols.blacklisted, m.cols.until, r.at)
    ensures var n := Apply(m, Result(r, cfg));
            && n.cols.blacklisted && n.cols.until.At?
            && (n.cols.until.t < m.cols.until.t <==>
                  cfg.threshold > 0 && m.cols.streak + 1 >= cfg.threshold && r.at + cfg.duration < m.cols.until.t)
  {
  }

  /** A node blacklisted by hand until 1000 fails once where one failure is the limit: the end moves to 60. */
  lemma ManualBlacklistShortened(r: Record)
    requires !r.available && r.at == 10
    ensures var manual := Blacklist(0, 1000);
            && Run(FRESH, [manual]).cols.until == At(1000)
            && Run(FRESH, [manual, Result(r, Config(1, 50))]).cols.until == At(60)
  {
    var manual, failure := Blacklist(0, 1000), Result(r, Config(1, 50));
    assert [manual][..0] == [] && [manual, failure][..1] == [manual];
    assert Run(FRESH, [manual]) == Apply(FRESH, manual);
    assert Run(FRESH, [manual, failure]) == Apply(Apply(FRESH, manual), failure);
  }

  // ---------------------------------------------------------------- the loops

  /** isDuplicateRuntimeTrafficMappingFailure (health_batcher.go:610). */
  method FindDuplicate(history: seq<Record>, r: Record) returns (found: bool)
    ensures found == Duplicate(history, r)
  {
    if r.available || !IsTraffic(r.source) {
      return false;
    }
    var i := |history|;
    while i > 0
      invariant 0 <= i <= |history|
      invariant forall k :: i <= k < |history| ==> !Clash(history[k], r)
    {
      i := i - 1;
      var e := history[i];
      if e.available || e.source == r.source || !IsTraffic(e.source) {
        continue;
      }
      var gap := if r.at - e.at < 0 then e.at - r.at else r.at - e.at;
      if gap <= DEDUP {
        assert Clash(history[i], r);
        return true;
      }
    }
    return false;
  }

  lemma {:induction false} CountSplit(a: seq<Record>, b: seq<Record>, available: bool)
    ensures Count(a + b, available) == Count(a, available) + Count(b, available)
  {
    if |b| == 0 {
      assert a + b == a;
    } else {
      CountSplit(a, b[..|b| - 1], available);
      assert (a + b)[..|a + b| - 1] == a + b[..|b| - 1];
    }
  }

  lemma {:induction false} LastTimeSplit(a: seq<Record>, b: seq<Record>, available: bool)
    ensures LastTime(a + b, available) ==
            if LastTime(b, available) == Never then LastTime(a, available) else LastTime(b, available)
  {
    if |b| == 0 {
      assert a + b == a;
    } else {
      LastTimeSplit(a, b[..|b| - 1], available);
      assert (a + b)[..|a + b| - 1] == a + b[..|b| - 1];
    }
  }

  /** summarizeNodeHealthHistoryWindow (health_batcher.go:637). */
  method Summarize(history: seq<Record>) returns (successes: nat, failures: nat, lastSuccess: When, lastFailure: When)
    ensures successes == Count(history, true) && failures == Count(history, false)
    ensures lastSuccess == LastTime(history, true) && lastFailure == LastTime(history, false)
  {
    successes, failures, lastSuccess, lastFailure := 0, 0, Never, Never;
    var i := |history|;
    while i > 0
      invariant 0 <= i <= |history|
      invariant successes == Count(history[i..], true) && failures == Count(history[i..], false)
      invariant lastSuccess == LastTime(history[i..], true) && lastFailure == LastTime(history[i..], false)
    {
      i := i - 1;
      var e := history[i];
      assert history[i..] == [e] + history[i + 1..] && [e][..0] == [];
      CountSplit([e], history[i + 1..], true);
      CountSplit([e], history[i + 1..], false);
      LastTimeSplit([e], history[i + 1..], true);
      LastTimeSplit([e], history[i + 1..], false);
      if e.available {
        successes := successes + 1;
        if lastSuccess == Never {
          lastSuccess := At(e.at);
        }
        continue;
      }
      failures := failures + 1;
      if lastFailure == Never {
        lastFailure := At(e.at);
      }
    }
    assert history[0..] == history;
  }

  /** The member of the memory table that a record changes (nodeHealthMemoryState). */
  class NodeMemory {
    var cols: Columns
    var history: seq<Record>
    var dirty: bool
    var revision: nat

    constructor ()
      ensures View() == FRESH
    {
      cols, history, dirty, revision := BLANK, [], false, 0;
    }

    function View(): Memory
      reads this
    {
      Memory(cols, history, dirty, revision)
    }

    method RecordResult(r: Record, cfg: Config)
      modifies this
      ensures View() == Apply(old(View()), Result(r, cfg))
    {
      var repeated := FindDuplicate(history, r);
      if repeated {
        return;
      }
      var previous := cols;
      history := Shifted(r);
      var successes, failures, lastSuccess, lastFailure := Summarize(history);
      var streak := 0;
      if !r.available {
        streak := previous.streak + 1;
      }
      cols := cols.(available := r.available, failures := failures, successes := successes, streak := streak,
                    checkedAt := At(r.at), latencyMs := r.latencyMs, lastSuccess := lastSuccess,
                    lastFailure := lastFailure);
      var blacklisted, until := Verdict(r, cfg, streak, previous);
      cols := cols.(blacklisted := blacklisted, until := until, error := if r.available then "" else r.error);
      dirty := true;
      revision := revision + 1;
    }

    /** The window with one more record. */
    method Shifted(r: Record) returns (window: seq<Record>)
      ensures window == Last(history + [r])
    {
      window := history + [r];
      if |window| > LIMIT {
        window := window[|window| - LIMIT..];
      }
    }

    /** The four outcomes for the blacklist (health_batcher.go:590). */
    method Verdict(r: Record, cfg: Config, streak: nat, previous: Columns) returns (blacklisted: bool, until: When)
      ensures var hit := !r.available && cfg.threshold > 0 && streak >= cfg.threshold;
              var keep := !r.available && !hit && Running(previous.blacklisted, previous.until, r.at);
              && blacklisted == (hit || keep)
              && until == if hit then At(r.at + cfg.duration) else if keep then previous.until else Never
    {
      if r.available {
        return false, Never;
      }
      if cfg.threshold > 0 && streak >= cfg.threshold {
        return true, At(r.at + cfg.duration);
      }
      if previous.blacklisted && (previous.until == Never || previous.until.t > r.at) {
        return true, previous.until;
      }
      return false, Never;
    }

    /** updateSnapshot (health_batcher.go:338) with the four callers' updates. */
    method Reset(i: Input)
      requires !i.Result?
      modifies this`cols, this`dirty, this`revision
      ensures View() == Apply(old(View()), i)
    {
      cols := cols.(streak := 0);
      match i {
        case Release =>
          cols := cols.(blacklisted := false, until := Never, error := "");
        case Blacklist(now, duration) =>
          cols := cols.(available := false, blacklisted := true, until := At(now + duration),
                        error := "manually blacklisted");
        case Exclude(now, cfg, error) =>
          cols := cols.(available := false, blacklisted := true, until := At(now + cfg.duration), error := error);
          cols := cols.(lastFailure := At(now));
        case Revival =>
          cols := cols.(available := true, blacklisted := false, until := Never, error := "");
        case Result(_, _) =>
      }
      dirty := true;
      revision := revision + 1;
    }
  }
}
