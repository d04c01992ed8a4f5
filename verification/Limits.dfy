/** Request guardrails (limits.rs): a pruned rolling window of admission times and a count of
    provider slots, shared by all dispatches behind one lock. */
module Limits {
  import opened Text

  const WINDOW_SECS: nat := 3600
  const U32_SIZE: nat := 0x1_0000_0000

  type Word = n: nat | n < U32_SIZE

  datatype Caps = Caps(perHour: Option<Word>, parallel: Option<Word>)

  /** What the lock guards. */
  datatype State = State(times: seq<nat>, inflight: nat)

  datatype Outcome = Reserved | HourlyCap | ParallelCap

  function Cutoff(now: nat): nat {
    SaturatingSub(now, WINDOW_SECS)
  }

  /** Entries are only removed from the front, up to the first that is recent enough. */
  function Prune(times: seq<nat>, cutoff: nat): seq<nat> {
    if times != [] && times[0] < cutoff then Prune(times[1..], cutoff) else times
  }

  predicate HourFull(caps: Caps, times: seq<nat>) {
    caps.perHour.Some? && |times| >= caps.perHour.value
  }

  predicate SlotsFull(caps: Caps, inflight: nat, external: bool) {
    external && caps.parallel.Some? && inflight >= caps.parallel.value
  }

  function OutcomeOf(caps: Caps, s: State, external: bool, now: nat): Outcome {
    if HourFull(caps, Prune(s.times, Cutoff(now))) then HourlyCap
    else if SlotsFull(caps, s.inflight, external) then ParallelCap
    else Reserved
  }

  function Reserve(caps: Caps, s: State, external: bool, now: nat): State {
    var kept := Prune(s.times, Cutoff(now));
    if OutcomeOf(caps, s, external, now) != Reserved then State(kept, s.inflight)
    else State(kept + [now], if external then s.inflight + 1 else s.inflight)
  }

  /** Dropping a reservation; the subtraction saturates. */
  function Release(s: State, external: bool): State {
    if external then s.(inflight := SaturatingSub(s.inflight, 1)) else s
  }

  /** `n as u32` keeps the low 32 bits. */
  function AsU32(n: nat): Word {
    n % U32_SIZE
  }

  /** The guard itself: its fields change in place under the lock. Under an hourly cap the window
      never outgrows the cap, so the cast of its length loses nothing. */
  class LimitGuard {
    const caps: Caps
    var requestTimes: seq<nat>
    var inflight: nat

    function Current(): State
      reads this
    {
      State(requestTimes, inflight)
    }

    ghost predicate Valid()
      reads this
    {
      caps.perHour.Some? ==> |requestTimes| <= caps.perHour.value
    }

    constructor (caps: Caps)
      ensures Valid() && this.caps == caps && Current() == State([], 0)
    {
      this.caps := caps;
      requestTimes, inflight := [], 0;
    }

    method TryReserve(usesExternalProvider: bool, now: nat) returns (r: Outcome)
      requires Valid()
      modifies this
      ensures Valid()
      ensures r == OutcomeOf(caps, old(Current()), usesExternalProvider, now)
      ensures Current() == Reserve(caps, old(Current()), usesExternalProvider, now)
    {
      var cutoff := SaturatingSub(now, WINDOW_SECS);
      while requestTimes != [] && requestTimes[0] < cutoff
        invariant Prune(requestTimes, cutoff) == Prune(old(requestTimes), cutoff)
        invariant inflight == old(inflight) && |requestTimes| <= old(|requestTimes|)
        decreases |requestTimes|
      {
        requestTimes := requestTimes[1..];
      }
      if caps.perHour.Some? && AsU32(|requestTimes|) >= caps.perHour.value {
        return HourlyCap;
      }
      if usesExternalProvider {
        if caps.parallel.Some? && inflight >= caps.parallel.value {
          return ParallelCap;
        }
      }
      requestTimes := requestTimes + [now];
      if usesExternalProvider {
        inflight := inflight + 1;
      }
      r := Reserved;
    }

    /** The end of a reservation's life. */
    method Drop(providerSlot: bool)
      requires Valid()
      modifies this
      ensures Valid()
      ensures Current() == Release(old(Current()), providerSlot)
    {
      if providerSlot {
        inflight := SaturatingSub(inflight, 1);
      }
    }
  }

  // ---- runs ----------------------------------------------------------------------------

  /** Requests and drops, in the order they take the lock. A request's time was read before. */
  datatype Op = Ask(external: bool, now: nat) | Drop(i: nat)

  /** The guarded state, every admission time so far, and the live reservations: for each whether it
      holds a provider slot. */
  datatype Book = Book(state: State, log: seq<nat>, live: seq<bool>)

  function After(caps: Caps, b: Book, op: Op): Option<Book> {
    match op
    case Ask(external, now) =>
      var next := Reserve(caps, b.state, external, now);
      if OutcomeOf(caps, b.state, external, now) != Reserved then Some(b.(state := next))
      else Some(Book(next, b.log + [now], b.live + [external]))
    case Drop(i) =>
      if i < |b.live| then Some(Book(Release(b.state, b.live[i]), b.log, b.live[..i] + b.live[i + 1..])) else None
  }

  function Run(caps: Caps, ops: seq<Op>): Option<Book> {
    if ops == [] then Some(Book(State([], 0), [], []))
    else
      match Run(caps, ops[..|ops| - 1])
      case None => None
      case Some(b) => After(caps, b, ops[|ops| - 1])
  }

  lemma RunSnoc(caps: Caps, ops: seq<Op>, op: Op)
    ensures Run(caps, ops + [op]) == (match Run(caps, ops) case None => None case Some(b) => After(caps, b, op))
  {
    assert (ops + [op])[..|ops|] == ops;
  }

  function Externals(live: seq<bool>): nat {
    if live == [] then 0 else (if live[0] then 1 else 0) + Externals(live[1..])
  }

  lemma {:induction false} ExternalsAppend(a: seq<bool>, b: seq<bool>)
    ensures Externals(a + b) == Externals(a) + Externals(b)
  {
    if a == [] {
      assert a + b == b;
    } else {
      assert (a + b)[1..] == a[1..] + b;
      ExternalsAppend(a[1..], b);
    }
  }

  lemma {:induction false} ExternalsRemove(live: seq<bool>, i: nat)
    requires i < |live|
    ensures Externals(live) == Externals(live[..i] + live[i + 1..]) + if live[i] then 1 else 0
  {
    var without := live[..i] + live[i + 1..];
    if i == 0 {
      assert without == live[1..];
    } else {
      ExternalsRemove(live[1..], i - 1);
      assert without[1..] == live[1..][..i - 1] + live[1..][i..];
    }
  }

  /** `tail` is the end of `whole`. */
  predicate Ends<T(==)>(tail: seq<T>, whole: seq<T>) {
    |tail| <= |whole| && whole[|whole| - |tail|..] == tail
  }

  lemma EndsTwice<T>(a: seq<T>, b: seq<T>, c: seq<T>)
    requires Ends(a, b) && Ends(b, c)
    ensures Ends(a, c)
  {
    assert c[|c| - |b|..][|b| - |a|..] == c[|c| - |a|..];
  }

  lemma EndsPush<T>(a: seq<T>, b: seq<T>, x: T)
    requires Ends(a, b)
    ensures Ends(a + [x], b + [x])
  {
  }

  lemma {:induction false} PruneIsSuffix(times: seq<nat>, cutoff: nat)
    ensures var kept := Prune(times, cutoff);
      && Ends(kept, times)
      && (forall i | 0 <= i < |times| - |kept| :: times[i] < cutoff)
      && (kept != [] ==> kept[0] >= cutoff)
  {
    if times != [] && times[0] < cutoff {
      PruneIsSuffix(times[1..], cutoff);
      var kept := Prune(times, cutoff);
      assert times[1..][|times| - 1 - |kept|..] == times[|times| - |kept|..];
      assert forall i | 0 < i < |times| - |kept| :: times[i] == times[1..][i - 1];
    }
  }

  /** The slots counted are those of the live reservations, within the cap. */
  predicate SlotsOk(caps: Caps, b: Book) {
    b.state.inflight == Externals(b.live) && (caps.parallel.Some? ==> b.state.inflight <= caps.parallel.value)
  }

  /** The window is the latest part of the admission log, within the cap. */
  predicate HourOk(caps: Caps, b: Book) {
    Ends(b.state.times, b.log) && (caps.perHour.Some? ==> |b.state.times| <= caps.perHour.value)
  }

  lemma AskKeepsSlots(caps: Caps, b: Book, external: bool, now: nat)
    requires SlotsOk(caps, b)
    ensures SlotsOk(caps, After(caps, b, Ask(external, now)).value)
  {
    ExternalsAppend(b.live, [external]);
    assert Externals([external]) == (if external then 1 else 0) + Externals([]);
  }

  lemma AskKeepsHour(caps: Caps, b: Book, external: bool, now: nat)
    requires HourOk(caps, b)
    ensures HourOk(caps, After(caps, b, Ask(external, now)).value)
  {
    var kept := Prune(b.state.times, Cutoff(now));
    PruneIsSuffix(b.state.times, Cutoff(now));
    EndsTwice(kept, b.state.times, b.log);
    EndsPush(kept, b.log, now);
  }

  /** Slot conservation over every interleaving of requests and drops. */
  lemma {:induction false} Conservation(caps: Caps, ops: seq<Op>)
    requires Run(caps, ops).Some?
    ensures SlotsOk(caps, Run(caps, ops).value) && HourOk(caps, Run(caps, ops).value)
  {
    if ops != [] {
      var before, op := ops[..|ops| - 1], ops[|ops| - 1];
      Conservation(caps, before);
      var b := Run(caps, before).value;
      if op.Ask? {
        AskKeepsSlots(caps, b, op.external, op.now);
        AskKeepsHour(caps, b, op.external, op.now);
      } else {
        ExternalsRemove(b.live, op.i);
      }
    }
  }

  /** In every reachable state: dropping a live reservation never saturates the counter, the cast of
      the window's length to 32 bits never truncates under a cap, and a refused request changes
      nothing but the pruned window. */
  lemma ReachableIsExact(caps: Caps, ops: seq<Op>, external: bool, now: nat)
    requires Run(caps, ops).Some?
    ensures var b := Run(caps, ops).value;
      && b.state.inflight == Externals(b.live)
      && (forall i | 0 <= i < |b.live| && b.live[i] :: Release(b.state, true).inflight + 1 == b.state.inflight)
      && (caps.perHour.Some? ==> |b.state.times| < U32_SIZE)
      && (caps.parallel.Some? ==> b.state.inflight <= caps.parallel.value < U32_SIZE)
      && (OutcomeOf(caps, b.state, external, now) != Reserved ==>
            After(caps, b, Ask(external, now)) == Some(b.(state := b.state.(times := Prune(b.state.times, Cutoff(now))))))
      && (OutcomeOf(caps, b.state, external, now) == ParallelCap <==>
            && OutcomeOf(caps, b.state, false, now) == Reserved
            && external && caps.parallel == Some(Externals(b.live)))
  {
    Conservation(caps, ops);
    var b := Run(caps, ops).value;
    forall i | 0 <= i < |b.live| && b.live[i]
      ensures b.state.inflight > 0
    {
      ExternalsRemove(b.live, i);
    }
  }

  // ---- the rolling hour ----------------------------------------------------------------

  /** The latest time any request carried. */
  function Peak(ops: seq<Op>): nat {
    if ops == [] then 0
    else
      var before, op := Peak(ops[..|ops| - 1]), ops[|ops| - 1];
      if op.Ask? && op.now > before then op.now else before
  }

  /** Times step back by at most `d` from the latest one seen, in lock order. */
  predicate StepsBack(ops: seq<Op>, d: nat) {
    ops == [] || (StepsBack(ops[..|ops| - 1], d)
                  && (ops[|ops| - 1].Ask? ==> ops[|ops| - 1].now + d >= Peak(ops[..|ops| - 1])))
  }

  lemma StepsBackSnoc(ops: seq<Op>, op: Op, d: nat)
    requires op.Ask?
    ensures Peak(ops + [op]) == if op.now > Peak(ops) then op.now else Peak(ops)
    ensures StepsBack(ops + [op], d) <==> StepsBack(ops, d) && op.now + d >= Peak(ops)
  {
    assert (ops + [op])[..|ops|] == ops;
  }

  function CountIn(log: seq<nat>, lo: nat, hi: nat): nat {
    if log == [] then 0
    else CountIn(log[..|log| - 1], lo, hi) + if lo <= log[|log| - 1] <= hi then 1 else 0
  }

  lemma {:induction false} CountInAppend(a: seq<nat>, b: seq<nat>, lo: nat, hi: nat)
    ensures CountIn(a + b, lo, hi) == CountIn(a, lo, hi) + CountIn(b, lo, hi)
  {
    if b == [] {
      assert a + b == a;
    } else {
      assert (a + b)[..|a + b| - 1] == a + b[..|b| - 1];
      CountInAppend(a, b[..|b| - 1], lo, hi);
    }
  }

  lemma {:induction false} CountInBounds(log: seq<nat>, lo: nat, hi: nat)
    ensures CountIn(log, lo, hi) <= |log|
    ensures (forall i | 0 <= i < |log| :: !(lo <= log[i] <= hi)) ==> CountIn(log, lo, hi) == 0
    ensures (forall i | 0 <= i < |log| :: lo <= log[i] <= hi) ==> CountIn(log, lo, hi) == |log|
  {
    if log != [] {
      CountInBounds(log[..|log| - 1], lo, hi);
    }
  }

  /** What the window lost is older than an hour before the latest time; nothing is later than the
      latest time; and later admissions step back from earlier ones by at most `d`. */
  ghost predicate WindowOk(times: seq<nat>, log: seq<nat>, peak: nat, d: nat) {
    && Ends(times, log)
    && (forall i | 0 <= i < |log| - |times| :: log[i] + WINDOW_SECS < peak)
    && (forall i | 0 <= i < |log| :: log[i] <= peak)
    && (forall i, j | 0 <= i < j < |log| :: log[i] <= log[j] + d)
  }

  function Max(a: nat, b: nat): nat {
    if a > b then a else b
  }

  lemma PruneKeepsWindow(times: seq<nat>, log: seq<nat>, now: nat, peak: nat, d: nat)
    requires WindowOk(times, log, peak, d)
    ensures WindowOk(Prune(times, Cutoff(now)), log, Max(now, peak), d)
  {
    var kept := Prune(times, Cutoff(now));
    PruneIsSuffix(times, Cutoff(now));
    EndsTwice(kept, times, log);
    var lost := |log| - |times|;
    forall i | 0 <= i < |log| - |kept|
      ensures log[i] + WINDOW_SECS < Max(now, peak)
    {
      if i >= lost {
        assert log[i] == log[lost..][i - lost];
      }
    }
  }

  lemma PushKeepsWindow(times: seq<nat>, log: seq<nat>, now: nat, peak: nat, d: nat)
    requires WindowOk(times, log, peak, d) && now <= peak <= now + d
    ensures WindowOk(times + [now], log + [now], peak, d)
  {
    EndsPush(times, log, now);
  }

  lemma {:induction false} WindowHolds(caps: Caps, ops: seq<Op>, d: nat)
    requires Run(caps, ops).Some? && StepsBack(ops, d)
    ensures var b := Run(caps, ops).value; WindowOk(b.state.times, b.log, Peak(ops), d)
  {
    if ops != [] {
      var before, op := ops[..|ops| - 1], ops[|ops| - 1];
      WindowHolds(caps, before, d);
      var b := Run(caps, before).value;
      if op.Ask? {
        PruneKeepsWindow(b.state.times, b.log, op.now, Peak(before), d);
        PushKeepsWindow(Prune(b.state.times, Cutoff(op.now)), b.log, op.now, Peak(ops), d);
      }
    }
  }

  /** The rolling bound: when times step back by at most `d` seconds, no closed window of 3600 - d
      seconds holds more admissions than the hourly cap. */
  lemma RollingHour(caps: Caps, ops: seq<Op>, d: nat, lo: nat)
    requires Run(caps, ops).Some? && StepsBack(ops, d) && d <= 3600 && caps.perHour.Some?
    ensures CountIn(Run(caps, ops).value.log, lo, lo + 3600 - d) <= caps.perHour.value
  {
    RollingWindow(caps, ops, d, lo);
  }

  lemma {:induction false} RollingWindow(caps: Caps, ops: seq<Op>, d: nat, lo: nat)
    requires Run(caps, ops).Some? && StepsBack(ops, d) && d <= WINDOW_SECS && caps.perHour.Some?
    ensures CountIn(Run(caps, ops).value.log, lo, lo + WINDOW_SECS - d) <= caps.perHour.value
  {
    if ops != [] {
      var before, op := ops[..|ops| - 1], ops[|ops| - 1];
      RollingWindow(caps, before, d, lo);
      var b, c := Run(caps, before).value, Run(caps, ops).value;
      Conservation(caps, ops);
      WindowHolds(caps, ops, d);
      if op.Ask? && OutcomeOf(caps, b.state, op.external, op.now) == Reserved {
        assert c.log[..|c.log| - 1] == b.log;
        if lo <= op.now <= lo + WINDOW_SECS - d {
          LostIsOutside(c.state.times, c.log, Peak(ops), d, lo);
        }
      }
    }
  }

  lemma CountInTail(lost: seq<nat>, times: seq<nat>, lo: nat, hi: nat)
    requires forall i | 0 <= i < |lost| :: !(lo <= lost[i] <= hi)
    ensures CountIn(lost + times, lo, hi) <= |times|
  {
    CountInAppend(lost, times, lo, hi);
    CountInBounds(lost, lo, hi);
    CountInBounds(times, lo, hi);
  }

  lemma LostIsOutside(times: seq<nat>, log: seq<nat>, peak: nat, d: nat, lo: nat)
    requires WindowOk(times, log, peak, d) && d <= WINDOW_SECS && peak <= lo + WINDOW_SECS
    ensures CountIn(log, lo, lo + WINDOW_SECS - d) <= |times|
  {
    var lost, hi := log[..|log| - |times|], lo + WINDOW_SECS - d;
    forall i | 0 <= i < |lost|
      ensures !(lo <= lost[i] <= hi)
    {
      assert log[i] + WINDOW_SECS < peak;
    }
    assert log == lost + times;
    CountInTail(lost, times, lo, hi);
  }

  /** From an empty window, under a cap of one an hour, a local request is admitted. */
  lemma AdmitsWhenEmpty(caps: Caps, b: Book, now: nat)
    requires caps.perHour == Some(1) && b.state == State([], 0)
    ensures After(caps, b, Ask(false, now)) == Some(Book(State([now], 0), b.log + [now], b.live + [false]))
  {
    assert Prune([], Cutoff(now)) == [];
    assert [] + [now] == [now];
  }

  /** A request that finds no slot still empties a window that is over an hour old. */
  lemma RefusalStillPrunes(caps: Caps, b: Book, before: nat, now: nat)
    requires caps == Caps(Some(1), Some(0)) && b.state == State([before], 0) && now > before + WINDOW_SECS
    ensures After(caps, b, Ask(true, now)) == Some(b.(state := State([], 0)))
  {
    assert [before][1..] == [];
    assert Prune([before], Cutoff(now)) == Prune([], Cutoff(now)) == [];
  }

  /** The bound cannot be widened by a second: with a cap of one, a request refused for want of a
      slot still prunes, and the next may then be the second in 3601 - d seconds. */
  lemma RollingHourIsTight(d: nat, start: nat)
    requires d <= 3600
    ensures exists caps: Caps, ops ::
              && caps.perHour == Some(1) && StepsBack(ops, d) && Run(caps, ops).Some?
              && CountIn(Run(caps, ops).value.log, start, start + 3600 + 1 - d) == 2
  {
    var caps := Caps(Some(1), Some(0));
    var late, last := start + WINDOW_SECS + 1, start + WINDOW_SECS + 1 - d;
    var none: seq<Op> := [];
    var a := none + [Ask(false, start)];
    var b := a + [Ask(true, late)];
    var c := b + [Ask(false, last)];
    RunSnoc(caps, none, Ask(false, start));
    RunSnoc(caps, a, Ask(true, late));
    RunSnoc(caps, b, Ask(false, last));
    AdmitsWhenEmpty(caps, Run(caps, none).value, start);
    RefusalStillPrunes(caps, Run(caps, a).value, start, late);
    AdmitsWhenEmpty(caps, Run(caps, b).value, last);
    var log := Run(caps, c).value.log;
    assert log == [start, last] && log[..1] == [start] && [start][..0] == [];
    assert CountIn([start], start, last) == CountIn([], start, last) + 1;
    StepsBackSnoc(none, Ask(false, start), d);
    StepsBackSnoc(a, Ask(true, late), d);
    StepsBackSnoc(b, Ask(false, last), d);
  }

  /** What pruning keeps is at most `d` before the hour's start. */
  lemma KeptIsRecent(times: seq<nat>, log: seq<nat>, peak: nat, d: nat, lo: nat)
    requires WindowOk(times, log, peak, d) && times != [] && (lo == 0 || times[0] >= lo + d)
    ensures CountIn(log, lo, peak) >= |times|
  {
    var lost := log[..|log| - |times|];
    assert log == lost + times;
    forall i | 0 <= i < |times|
      ensures lo <= times[i] <= peak
    {
      assert times[i] == log[|lost| + i] && times[0] == log[|lost|];
    }
    CountInAppend(lost, times, lo, peak);
    CountInBounds(times, lo, peak);
  }

  lemma {:induction false} CountInWider(log: seq<nat>, lo: nat, hi: nat, lo': nat, hi': nat)
    requires lo' <= lo && hi <= hi'
    ensures CountIn(log, lo, hi) <= CountIn(log, lo', hi')
  {
    if log != [] {
      CountInWider(log[..|log| - 1], lo, hi, lo', hi');
    }
  }

  lemma KeptIsCounted(times: seq<nat>, log: seq<nat>, now: nat, peak: nat, d: nat, lo: nat)
    requires WindowOk(times, log, peak, d) && now + d >= peak && (lo == 0 || Cutoff(now) >= lo + d)
    ensures CountIn(log, lo, now + d) >= |Prune(times, Cutoff(now))|
  {
    var kept, latest := Prune(times, Cutoff(now)), Max(now, peak);
    PruneIsSuffix(times, Cutoff(now));
    if kept != [] {
      assert WindowOk(kept, log, latest, d) by { PruneKeepsWindow(times, log, now, peak, d); }
      assert CountIn(log, lo, latest) >= |kept| by { KeptIsRecent(kept, log, latest, d, lo); }
      CountInWider(log, lo, latest, lo, now + d);
    }
  }

  /** A refusal is warranted: when times step back by at most `d`, a request refused for the hourly
      cap follows that many admissions timed between 3600 + d seconds before it and d after. */
  lemma RefusalIsWarranted(caps: Caps, ops: seq<Op>, external: bool, now: nat, d: nat)
    requires Run(caps, ops).Some? && StepsBack(ops, d) && now + d >= Peak(ops)
    requires OutcomeOf(caps, Run(caps, ops).value.state, external, now) == HourlyCap
    ensures CountIn(Run(caps, ops).value.log, SaturatingSub(now, 3600 + d), now + d) >= caps.perHour.value
  {
    var b := Run(caps, ops).value;
    WindowHolds(caps, ops, d);
    KeptIsCounted(b.state.times, b.log, now, Peak(ops), d, SaturatingSub(now, WINDOW_SECS + d));
  }

  /** The admissions not older than a time. */
  function Since(log: seq<nat>, cutoff: nat): seq<nat> {
    if log == [] then []
    else
      var before, last := Since(log[..|log| - 1], cutoff), log[|log| - 1];
      if last >= cutoff then before + [last] else before
  }

  lemma {:induction false} SinceIsSuffix(log: seq<nat>, k: nat, cutoff: nat)
    requires k <= |log| && (forall i | 0 <= i < k :: log[i] < cutoff) && (forall i | k <= i < |log| :: log[i] >= cutoff)
    ensures Since(log, cutoff) == log[k..]
  {
    if log != [] {
      var before := log[..|log| - 1];
      if k < |log| {
        SinceIsSuffix(before, k, cutoff);
        assert log[k..] == before[k..] + [log[|log| - 1]];
      } else {
        SinceIsSuffix(before, k - 1, cutoff);
        assert before[k - 1..] == [];
      }
    }
  }

  lemma KeptIsSince(times: seq<nat>, log: seq<nat>, now: nat, peak: nat)
    requires WindowOk(times, log, peak, 0) && now >= peak
    ensures Prune(times, Cutoff(now)) == Since(log, Cutoff(now))
  {
    PruneKeepsWindow(times, log, now, peak, 0);
    PruneIsSuffix(times, Cutoff(now));
    var kept := Prune(times, Cutoff(now));
    var k := |log| - |kept|;
    assert log[k..] == kept;
    forall i | k <= i < |log|
      ensures log[i] >= Cutoff(now)
    {
      assert log[k] == kept[0] && log[k] <= log[i] + 0;
    }
    SinceIsSuffix(log, k, Cutoff(now));
  }

  /** When times never step back, the pruned window is exactly the unpruned log restricted to the
      last hour, so the hourly cap refuses a request if and only if that hour already holds as many
      admissions as the cap. */
  lemma WindowIsLog(caps: Caps, ops: seq<Op>, external: bool, now: nat)
    requires Run(caps, ops).Some? && StepsBack(ops, 0) && now >= Peak(ops)
    ensures var b := Run(caps, ops).value;
      && Prune(b.state.times, Cutoff(now)) == Since(b.log, SaturatingSub(now, 3600))
      && (OutcomeOf(caps, b.state, external, now) == HourlyCap
          <==> caps.perHour.Some? && |Since(b.log, SaturatingSub(now, 3600))| >= caps.perHour.value)
  {
    var b := Run(caps, ops).value;
    Conservation(caps, ops);
    WindowHolds(caps, ops, 0);
    KeptIsSince(b.state.times, b.log, now, Peak(ops));
    PruneIsSuffix(b.state.times, Cutoff(now));
  }
}
