/** When a running job reports progress: `progress::should_emit` and `ProgressMeter`
    (coordinator_client.rs). Deltas come from one task, so calls are sequential. */
module Progress {
  import opened Text

  const TOKEN_INTERVAL: nat := 64
  const TIME_INTERVAL_MS: nat := 2_000

  datatype Phase = LoadingModel | Prefill | Generating | Finalizing

  /** One `job_progress` frame; `selected` is the provider and model, once settled. */
  datatype Report = Report(seqNo: nat, phase: Phase, outputTokens: Option<nat>, selected: Option<(string, string)>)

  predicate ShouldEmit(tokens: nat, lastTokens: nat, nowMs: nat, lastMs: nat) {
    SaturatingSub(tokens, lastTokens) >= TOKEN_INTERVAL || SaturatingSub(nowMs, lastMs) >= TIME_INTERVAL_MS
  }

  /** The fields of a meter. */
  datatype Meter = Meter(seqNo: nat, tokens: nat, lastTokens: nat, lastMs: nat, selected: Option<(string, string)>)

  const FRESH := Meter(0, 0, 0, 0, None)

  function Sent(m: Meter): Meter {
    m.(seqNo := m.seqNo + 1)
  }

  function ReportOf(m: Meter, phase: Phase, outputTokens: Option<nat>): Report {
    Report(m.seqNo, phase, outputTokens, m.selected)
  }

  /** `note_delta` at a time: the meter after it and the frames it makes. */
  function Noted(m: Meter, nowMs: nat): (Meter, seq<Report>) {
    var counted := m.(tokens := m.tokens + 1);
    if ShouldEmit(counted.tokens, m.lastTokens, nowMs, m.lastMs) then
      var emitted := counted.(lastMs := nowMs, lastTokens := counted.tokens);
      (Sent(emitted), [ReportOf(emitted, Generating, Some(emitted.tokens))])
    else (counted, [])
  }

  /** The meter as it is: shared counters changed in place, and the frames handed to the channel. */
  class ProgressMeter {
    var seqNo: nat
    var tokens: nat
    var lastEmitTokens: nat
    var lastEmitMs: nat
    var selected: Option<(string, string)>
    var made: seq<Report>

    function State(): Meter
      reads this
    {
      Meter(seqNo, tokens, lastEmitTokens, lastEmitMs, selected)
    }

    constructor ()
      ensures State() == FRESH && made == []
    {
      seqNo, tokens, lastEmitTokens, lastEmitMs := 0, 0, 0, 0;
      selected := None;
      made := [];
    }

    method NoteDelta(nowMs: nat)
      modifies this
      ensures State() == Noted(old(State()), nowMs).0 && made == old(made) + Noted(old(State()), nowMs).1
    {
      tokens := tokens + 1;
      var lastTokens, lastMs := lastEmitTokens, lastEmitMs;
      if !ShouldEmit(tokens, lastTokens, nowMs, lastMs) {
        return;
      }
      // The compare-and-exchange cannot fail between two calls of one task.
      lastEmitMs := nowMs;
      lastEmitTokens := tokens;
      Send(Generating, Some(tokens));
    }

    method NoteSelected(provider: string, model: string)
      modifies this
      ensures State() == Sent(old(State()).(selected := Some((provider, model))))
      ensures made == old(made) + [ReportOf(old(State()).(selected := Some((provider, model))), Prefill, None)]
    {
      selected := Some((provider, model));
      Send(Prefill, None);
    }

    method Send(phase: Phase, outputTokens: Option<nat>)
      modifies `seqNo, `made
      ensures State() == Sent(old(State()))
      ensures made == old(made) + [ReportOf(old(State()), phase, outputTokens)]
    {
      made := made + [Report(seqNo, phase, outputTokens, selected)];
      seqNo := seqNo + 1;
    }
  }

  // ---- throttling ----------------------------------------------------------------------

  predicate NonDecreasing(times: seq<nat>) {
    forall i, j | 0 <= i <= j < |times| :: times[i] <= times[j]
  }

  /** A run of deltas at the given times: the meter after them and all frames made. */
  function Deltas(times: seq<nat>): (Meter, seq<Report>) {
    if times == [] then (FRESH, [])
    else
      var (m, made) := Deltas(times[..|times| - 1]);
      var (m', more) := Noted(m, times[|times| - 1]);
      (m', made + more)
  }

  function LastTime(times: seq<nat>): nat {
    if times == [] then 0 else times[|times| - 1]
  }

  /** After every delta, fewer than 64 tokens and less than 2000 ms are unreported, and tokens
      count the deltas. */
  lemma {:induction false} NothingLongUnreported(times: seq<nat>)
    requires NonDecreasing(times)
    ensures var m := Deltas(times).0;
      && m.tokens == |times| && m.lastTokens <= m.tokens && m.lastMs <= LastTime(times)
      && (times != [] ==> m.tokens - m.lastTokens < 64 && LastTime(times) - m.lastMs < 2000)
  {
    if times != [] {
      NothingLongUnreported(times[..|times| - 1]);
    }
  }

  /** Each frame is paid for by 64 tokens or by 2000 ms that no other frame uses. */
  lemma {:induction false} EachFrameIsPaidFor(times: seq<nat>) returns (byTokens: nat, byTime: nat)
    requires NonDecreasing(times)
    ensures |Deltas(times).1| == byTokens + byTime
    ensures TOKEN_INTERVAL * byTokens <= Deltas(times).0.lastTokens
    ensures TIME_INTERVAL_MS * byTime <= Deltas(times).0.lastMs
  {
    NothingLongUnreported(times);
    if times == [] {
      byTokens, byTime := 0, 0;
    } else {
      var before := times[..|times| - 1];
      NothingLongUnreported(before);
      byTokens, byTime := EachFrameIsPaidFor(before);
      var (m, now) := (Deltas(before).0, LastTime(times));
      if m.tokens + 1 - m.lastTokens >= TOKEN_INTERVAL {
        byTokens := byTokens + 1;
      } else if now - m.lastMs >= TIME_INTERVAL_MS {
        byTime := byTime + 1;
      }
    }
  }

  /** N deltas in T ms make at most N/64 + T/2000 Generating frames. */
  lemma Throttle(times: seq<nat>)
    requires NonDecreasing(times)
    ensures |Deltas(times).1| <= |times| / 64 + LastTime(times) / 2000
  {
    var byTokens, byTime := EachFrameIsPaidFor(times);
    NothingLongUnreported(times);
    Fits(TOKEN_INTERVAL, byTokens, |times|);
    Fits(TIME_INTERVAL_MS, byTime, LastTime(times));
  }

  lemma Fits(interval: nat, n: nat, total: nat)
    requires interval > 0 && interval * n <= total
    ensures n <= total / interval
  {
    var q := total / interval;
    assert total < interval * (q + 1);
    TimesGrows(interval, q + 1, n);
  }

  lemma TimesGrows(k: nat, a: nat, b: nat)
    ensures a <= b ==> k * a <= k * b
  {
  }

  function Zeros(n: nat): seq<nat> {
    if n == 0 then [] else Zeros(n - 1) + [0]
  }

  /** The token half of the bound is reached by a burst. */
  lemma {:induction false} ThrottleIsTight(n: nat)
    ensures |Zeros(n)| == n && (forall t | t in Zeros(n) :: t == 0)
    ensures |Deltas(Zeros(n)).1| == n / 64
    ensures var m := Deltas(Zeros(n)).0;
      m.tokens == n && m.lastTokens == 64 * (n / 64) && m.lastMs == 0
  {
    if n > 0 {
      ThrottleIsTight(n - 1);
      assert Zeros(n)[..n - 1] == Zeros(n - 1);
    }
  }
}
