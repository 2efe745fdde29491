/**
 * The exam host's browser clock: the published anchor, the startup sample that binds to it, the order of elapsed times
 * and the rate limit. Time is the steady clock in nanoseconds.
 */
module BrowserClock {
  import opened Bytes
  import Lifecycle

  const MILLISECOND: int := 1_000_000
  const SECOND: int := 1000 * MILLISECOND
  const MAX_TIME: int := 0x7fff_ffff_ffff_ffff
  const MIN_TIME: int := -0x8000_0000_0000_0000
  const MAX_COLLECTOR: nat := 0x1f_ffff_ffff_ffff
  const MAX_WINDOW_SAMPLES: nat := 256
  const MAX_RETRIES: nat := 3

  type Time = t: int | MIN_TIME <= t <= MAX_TIME

  /** `started` marks the browser's startup sample; `uncertainty` is the numeric value of that sample. */
  datatype Sample = Sample(started: bool, elapsed: nat, uncertainty: nat)

  /** Everything accepted between two resets of the browser clock, with the published anchor. */
  datatype Epoch = Epoch(anchor: Option<nat>, samples: seq<Sample>)

  /** When a sample was accepted, and the start of the rate window it was counted in. */
  datatype Stamp = Stamp(receipt: int, window: int)

  /** What has happened so far: finished epochs, the current one, accepted samples since the start, publications. */
  datatype History = History(past: seq<Epoch>, current: seq<Sample>, stamps: seq<Stamp>, attempts: seq<int>)

  datatype Host = Host(
    context: Lifecycle.Identity, collector: nat, active: Option<Lifecycle.Identity>, origin: Time,
    lastNative: Option<Time>, anchor: Option<nat>, lastElapsed: Option<nat>, bound: bool, lastAttempt: Option<Time>,
    retries: nat, windowStart: Option<Time>, rate: nat, h: History)

  const IDLE := Host(Lifecycle.UNBOUND, 0, None, 0, None, None, None, false, None, 0, None, 0, History([], [], [], []))

  // ---- transitions ----

  function ClearClock(s: Host): Host {
    s.(anchor := None, lastElapsed := None, bound := false, lastAttempt := None, retries := 0,
       h := s.h.(past := s.h.past + [Epoch(s.anchor, s.h.current)], current := [], attempts := []))
  }

  function Stop(s: Host): Host {
    var c := ClearClock(s);
    c.(lastNative := None, windowStart := None, rate := 0, active := None, collector := 0, context := Lifecycle.UNBOUND,
       h := c.h.(stamps := []))
  }

  datatype Started = Started(s: Host, ok: bool)

  /** `encodes` says that the codec accepts the context. */
  function Start(s: Host, context: Lifecycle.Identity, encodes: bool, collector: nat, origin: Time): Started {
    var c := Stop(s);
    if !encodes then Started(c, false)
    else
      Started(c.(context := context, origin := origin, lastNative := Some(origin),
                 windowStart := Some(origin), rate := 0,
                 collector := if collector <= MAX_COLLECTOR then collector else 0), true)
  }

  function ApplyEnable(s: Host, enable: Lifecycle.Identity): Started {
    if s.collector == 0 || !enable.Valid() || enable != s.context then Started(s, false)
    else if s.active.Some? then Started(s, true)
    else Started(s.(active := Some(enable)), true)
  }

  function Advance(s: Host, collector: nat, origin: Time): Host {
    if s.collector == 0 then s
    else if collector == 0 || collector > MAX_COLLECTOR || collector == s.collector then Stop(s)
    else ClearClock(s.(collector := collector, origin := origin, lastNative := Some(origin)))
  }

  datatype Native = Native(s: Host, elapsed: Option<nat>)

  /** Milliseconds since the generation's origin; a clock that goes back or out of range resets the browser clock. */
  function NativeElapsed(s: Host, now: Time): Native {
    if s.collector == 0 || now < s.origin || (s.lastNative.Some? && now < s.lastNative.value) ||
       (s.origin < 0 && now > MAX_TIME + s.origin) || (now - s.origin) / MILLISECOND > MAX_COLLECTOR
    then Native(ClearClock(s), None)
    else Native(s.(lastNative := Some(now)), Some((now - s.origin) / MILLISECOND))
  }

  /** `posted` says that the page accepted the message. */
  function PostEnable(s: Host, now: Time, posted: bool): Started {
    if s.active.None? then Started(s, false)
    else if s.anchor.Some? then Started(s, true)
    else
      var n := NativeElapsed(s, now);
      if n.elapsed.None? then Started(n.s, false)
      else if !posted then Started(ClearClock(n.s), false)
      else
        Started(n.s.(anchor := n.elapsed, lastAttempt := Some(now), h := n.s.h.(attempts := n.s.h.attempts + [now])),
                true)
  }

  function MaintainStartup(s: Host, now: Time, posted: bool): Started {
    if s.active.None? || s.anchor.None? || s.bound || s.lastAttempt.None? || s.retries >= MAX_RETRIES then
      Started(s, false)
    else
      var n := NativeElapsed(s, now);
      if n.elapsed.None? || now < s.lastAttempt.value + SECOND then Started(n.s, false)
      else
        Started(n.s.(lastAttempt := Some(now), retries := n.s.retries + 1,
                     h := n.s.h.(attempts := n.s.h.attempts + [now])), posted)
  }

  /** A new rate window opens more than a second after the last one. */
  function Windowed(s: Host, receipt: Time): Host {
    if s.windowStart.None? || receipt > s.windowStart.value + SECOND
    then s.(windowStart := Some(receipt), rate := 0) else s
  }

  datatype Verdict = Fine(last: nat) | DuplicateStart | Regressed

  /** Walks a message's samples; only the first one of a binding message may be a startup sample. */
  function Walk(samples: seq<Sample>, mayStart: bool, last: nat): Verdict
    decreases |samples|
  {
    if samples == [] then Fine(last)
    else if samples[0].started && !mayStart then DuplicateStart
    else if samples[0].elapsed < last then Regressed
    else Walk(samples[1..], false, samples[0].elapsed)
  }

  datatype Forwarded = Forwarded(s: Host, samples: Option<seq<Sample>>)

  function Stamps(receipt: int, window: int, count: nat): (r: seq<Stamp>)
    ensures |r| == count
  {
    seq(count, _ => Stamp(receipt, window))
  }

  function Deliver(s: Host, samples: seq<Sample>, last: nat, receipt: Time): Host
    requires s.windowStart.Some?
  {
    s.(lastElapsed := Some(last), rate := s.rate + |samples|, bound := true,
       h := s.h.(current := s.h.current + samples,
                 stamps := s.h.stamps + Stamps(receipt, s.windowStart.value, |samples|)))
  }

  /** `parsed` is what the message parser makes of the browser's message, None when it refuses. */
  function Forward(s: Host, parsed: Option<seq<Sample>>, receipt: Time): Forwarded {
    if s.active.None? || s.anchor.None? || parsed.None? || parsed.value == [] then Forwarded(s, None)
    else
      var n := NativeElapsed(s, receipt);
      if n.elapsed.None? then Forwarded(n.s, None)
      else Admit(Windowed(n.s, receipt), parsed.value, receipt, n.elapsed.value)
  }

  function Admit(w: Host, samples: seq<Sample>, receipt: Time, received: nat): Forwarded
    requires samples != []
  {
    if w.anchor.None? || w.windowStart.None? || w.rate + |samples| > MAX_WINDOW_SAMPLES then Forwarded(w, None)
    else
      var anchor := w.anchor.value;
      if !w.bound && (!samples[0].started || samples[0].elapsed != anchor) then Forwarded(w, None)
      else
        match Walk(samples, !w.bound, if w.lastElapsed.Some? then w.lastElapsed.value else anchor)
        case DuplicateStart => Forwarded(w, None)
        case Regressed => Forwarded(ClearClock(w), None)
        case Fine(last) =>
          if w.bound then Forwarded(Deliver(w, samples, last, receipt), Some(samples))
          else if received < anchor || received - anchor > U32_MAX - 2 then Forwarded(ClearClock(w), None)
          else
            var bound := [samples[0].(uncertainty := received - anchor + 2)] + samples[1..];
            Forwarded(Deliver(w, bound, last, receipt), Some(bound))
  }

  datatype Call =
    | DoStart(context: Lifecycle.Identity, encodes: bool, collector: nat, origin: Time)
    | DoStop
    | DoEnable(enable: Lifecycle.Identity)
    | DoAdvance(collector: nat, origin: Time)
    | DoNative(now: Time)
    | DoPost(now: Time, posted: bool)
    | DoMaintain(now: Time, posted: bool)
    | DoForward(parsed: Option<seq<Sample>>, now: Time)

  function Step(s: Host, c: Call): Host {
    match c
    case DoStart(context, encodes, collector, origin) => Start(s, context, encodes, collector, origin).s
    case DoStop => Stop(s)
    case DoEnable(enable) => ApplyEnable(s, enable).s
    case DoAdvance(collector, origin) => Advance(s, collector, origin)
    case DoNative(now) => NativeElapsed(s, now).s
    case DoPost(now, posted) => PostEnable(s, now, posted).s
    case DoMaintain(now, posted) => MaintainStartup(s, now, posted).s
    case DoForward(parsed, now) => Forward(s, parsed, now).s
  }

  function Run(s: Host, calls: seq<Call>): Host
    decreases |calls|
  {
    if calls == [] then s else Run(Step(s, calls[0]), calls[1..])
  }

  // ---- one epoch of the browser clock ----

  /** Starts with the one startup sample at the anchor, with a bounded uncertainty, and never goes back. */
  ghost predicate EpochOk(anchor: Option<nat>, samples: seq<Sample>) {
    samples != [] ==>
      && samples[0].started && anchor == Some(samples[0].elapsed) && 2 <= samples[0].uncertainty <= U32_MAX
      && (forall i :: 0 < i < |samples| ==> !samples[i].started)
      && (forall i, j :: 0 <= i <= j < |samples| ==> samples[i].elapsed <= samples[j].elapsed)
  }

  ghost predicate Spaced(attempts: seq<int>) {
    forall i :: 0 <= i < |attempts| - 1 ==> attempts[i] + SECOND <= attempts[i + 1]
  }

  ghost predicate EpochInv(s: Host) {
    && (forall e :: e in s.h.past ==> EpochOk(e.anchor, e.samples))
    && EpochOk(s.anchor, s.h.current)
    && (s.bound <==> s.h.current != [])
    && (s.bound ==> s.anchor.Some? && s.lastElapsed == Some(s.h.current[|s.h.current| - 1].elapsed))
    && (!s.bound ==> s.lastElapsed.None?)
    && (s.anchor.Some? ==>
          |s.h.attempts| == 1 + s.retries && s.retries <= MAX_RETRIES && Spaced(s.h.attempts) &&
          s.lastAttempt == Some(s.h.attempts[|s.h.attempts| - 1]))
    && (s.anchor.None? ==> s.h.attempts == [] && s.retries == 0)
  }

  lemma {:induction false} WalkOrders(samples: seq<Sample>, mayStart: bool, last: nat)
    requires Walk(samples, mayStart, last).Fine?
    ensures forall i :: 0 <= i < |samples| ==> samples[i].elapsed >= last && (samples[i].started ==> mayStart && i == 0)
    ensures forall i, j :: 0 <= i <= j < |samples| ==> samples[i].elapsed <= samples[j].elapsed
    ensures Walk(samples, mayStart, last).last == if samples == [] then last else samples[|samples| - 1].elapsed
    decreases |samples|
  {
    if samples != [] {
      var rest := samples[1..];
      WalkOrders(rest, false, samples[0].elapsed);
      assert forall i :: 0 < i < |samples| ==> samples[i] == rest[i - 1];
    }
  }

  lemma ClearKeepsEpochs(s: Host)
    requires EpochInv(s)
    ensures EpochInv(ClearClock(s))
  {
    hide EpochOk;
    EmptyEpochOk(None);
  }

  lemma EmptyEpochOk(anchor: Option<nat>)
    ensures EpochOk(anchor, [])
  {
  }

  lemma NativeKeepsEpochs(s: Host, now: Time)
    requires EpochInv(s)
    ensures EpochInv(NativeElapsed(s, now).s)
  {
    hide EpochOk;
    ClearKeepsEpochs(s);
  }

  lemma DeliverKeepsEpochs(w: Host, samples: seq<Sample>, last: nat, receipt: Time)
    requires EpochInv(w) && w.anchor.Some? && w.windowStart.Some? && samples != []
    requires last == samples[|samples| - 1].elapsed
    requires EpochOk(w.anchor, w.h.current + samples)
    ensures EpochInv(Deliver(w, samples, last, receipt))
  {
    hide EpochOk;
  }

  lemma AdmitKeepsEpochs(w: Host, samples: seq<Sample>, receipt: Time, received: nat)
    requires EpochInv(w) && samples != []
    ensures EpochInv(Admit(w, samples, receipt, received).s)
  {
    ClearKeepsEpochs(w);
    if w.anchor.Some? && w.windowStart.Some? && Admit(w, samples, receipt, received).samples.Some? {
      var before := if w.lastElapsed.Some? then w.lastElapsed.value else w.anchor.value;
      var v := Walk(samples, !w.bound, before);
      WalkOrders(samples, !w.bound, before);
      var out := Admit(w, samples, receipt, received).samples.value;
      assert |out| == |samples| && forall i :: 0 <= i < |out| ==> out[i].elapsed == samples[i].elapsed;
      assert forall i :: 0 < i < |out| ==> out[i] == samples[i];
      hide Walk, ClearClock;
      assert EpochOk(w.anchor, w.h.current + out);
      DeliverKeepsEpochs(w, out, v.last, receipt);
    }
  }

  lemma ForwardKeepsEpochs(s: Host, parsed: Option<seq<Sample>>, receipt: Time)
    requires EpochInv(s)
    ensures EpochInv(Forward(s, parsed, receipt).s)
  {
    hide EpochOk, Admit, NativeElapsed;
    NativeKeepsEpochs(s, receipt);
    var n := NativeElapsed(s, receipt);
    if parsed.Some? && parsed.value != [] && n.elapsed.Some? {
      AdmitKeepsEpochs(Windowed(n.s, receipt), parsed.value, receipt, n.elapsed.value);
    }
  }

  lemma StepKeepsEpochs(s: Host, c: Call)
    requires EpochInv(s)
    ensures EpochInv(Step(s, c))
  {
    hide EpochOk, Forward;
    match c {
      case DoForward(parsed, now) => ForwardKeepsEpochs(s, parsed, now);
      case DoPost(now, _) =>
        NativeKeepsEpochs(s, now);
        ClearKeepsEpochs(NativeElapsed(s, now).s);
        EmptyEpochOk(NativeElapsed(s, now).elapsed);
      case DoMaintain(now, _) => NativeKeepsEpochs(s, now);
      case DoNative(now) => NativeKeepsEpochs(s, now);
      case _ => ClearKeepsEpochs(s);
    }
  }

  lemma {:induction false} RunKeepsEpochs(s: Host, calls: seq<Call>)
    requires EpochInv(s)
    ensures EpochInv(Run(s, calls))
    decreases |calls|
  {
    hide EpochInv, Step;
    if calls != [] {
      StepKeepsEpochs(s, calls[0]);
      RunKeepsEpochs(Step(s, calls[0]), calls[1..]);
    }
  }

  lemma IdleOk()
    ensures EpochInv(IDLE)
  {
  }

  /**
   * In every run, whatever the clock does, the samples accepted between two resets of the browser clock begin with the
   * only startup sample, at the published anchor and with an uncertainty that fits 32 bits, and never go back in time;
   * an anchor is published at most four times, at least a second apart.
   */
  lemma EpochsWellFormed(calls: seq<Call>)
    ensures var s := Run(IDLE, calls);
            && (forall e :: e in s.h.past ==> EpochOk(e.anchor, e.samples))
            && EpochOk(s.anchor, s.h.current)
            && |s.h.attempts| <= 1 + MAX_RETRIES && (s.anchor.Some? ==> Spaced(s.h.attempts))
  {
    hide Run, Step, EpochOk, Spaced;
    IdleOk();
    RunKeepsEpochs(IDLE, calls);
  }

  // ---- the rate limit ----

  /** The time a call is made at, as the steady clock says it. */
  function TimeOf(c: Call, clock: int): int {
    match c
    case DoStart(_, _, _, origin) => origin
    case DoAdvance(_, origin) => origin
    case DoNative(now) => now
    case DoPost(now, _) => now
    case DoMaintain(now, _) => now
    case DoForward(_, now) => now
    case _ => clock
  }

  predicate Steady(calls: seq<Call>, clock: int)
    decreases |calls|
  {
    calls == [] || (clock <= TimeOf(calls[0], clock) && Steady(calls[1..], TimeOf(calls[0], clock)))
  }

  function LastTime(calls: seq<Call>, clock: int): int
    decreases |calls|
  {
    if calls == [] then clock else LastTime(calls[1..], TimeOf(calls[0], clock))
  }

  /** Receipts and windows in order, each receipt within a second of its window, windows more than a second apart. */
  ghost predicate StampsOk(stamps: seq<Stamp>) {
    && (forall i :: 0 <= i < |stamps| ==> stamps[i].window <= stamps[i].receipt <= stamps[i].window + SECOND)
    && (forall i, j :: 0 <= i <= j < |stamps| ==> stamps[i].receipt <= stamps[j].receipt)
    && (forall i, j :: 0 <= i <= j < |stamps| ==>
          stamps[i].window == stamps[j].window || stamps[i].window + SECOND < stamps[j].window)
    && (forall i :: 0 <= i < |stamps| - MAX_WINDOW_SAMPLES ==>
          stamps[i].window < stamps[i + MAX_WINDOW_SAMPLES].window)
  }

  /** The last `rate` stamps belong to the open window, all others to windows that closed before it. */
  ghost predicate WindowOk(stamps: seq<Stamp>, window: int, rate: nat) {
    && rate <= MAX_WINDOW_SAMPLES && rate <= |stamps|
    && (forall i :: |stamps| - rate <= i < |stamps| ==> stamps[i].window == window)
    && (forall i :: 0 <= i < |stamps| - rate ==> stamps[i].window + SECOND < window)
  }

  ghost predicate RateInv(s: Host, clock: int) {
    && StampsOk(s.h.stamps)
    && (forall i :: 0 <= i < |s.h.stamps| ==> s.h.stamps[i].receipt <= clock)
    && (s.windowStart.Some? ==> s.windowStart.value <= clock && WindowOk(s.h.stamps, s.windowStart.value, s.rate))
    && (s.windowStart.None? ==> s.h.stamps == [] && s.rate == 0)
  }

  lemma StampsGrow(stamps: seq<Stamp>, receipt: int, window: int, rate: nat, count: nat)
    requires StampsOk(stamps) && WindowOk(stamps, window, rate) && rate + count <= MAX_WINDOW_SAMPLES
    requires window <= receipt <= window + SECOND
    requires forall i :: 0 <= i < |stamps| ==> stamps[i].receipt <= receipt
    ensures var grown := stamps + Stamps(receipt, window, count);
            StampsOk(grown) && WindowOk(grown, window, rate + count)
  {
    StampsOrdered(stamps, receipt, window, rate, count);
    var grown := stamps + Stamps(receipt, window, count);
    forall i | 0 <= i < |grown| - MAX_WINDOW_SAMPLES
      ensures grown[i].window < grown[i + MAX_WINDOW_SAMPLES].window
    {
      assert i < |stamps| - rate;
    }
  }

  lemma StampsOrdered(stamps: seq<Stamp>, receipt: int, window: int, rate: nat, count: nat)
    requires StampsOk(stamps) && WindowOk(stamps, window, rate) && window <= receipt <= window + SECOND
    requires forall i :: 0 <= i < |stamps| ==> stamps[i].receipt <= receipt
    ensures var grown := stamps + Stamps(receipt, window, count);
            && (forall i, j :: 0 <= i <= j < |grown| ==> grown[i].receipt <= grown[j].receipt)
            && forall i, j :: 0 <= i <= j < |grown| ==>
                 grown[i].window == grown[j].window || grown[i].window + SECOND < grown[j].window
  {
    var grown := stamps + Stamps(receipt, window, count);
    forall i | 0 <= i < |grown|
      ensures i < |stamps| ==> grown[i] == stamps[i]
      ensures i >= |stamps| ==> grown[i] == Stamp(receipt, window)
      ensures grown[i].window == window || grown[i].window + SECOND < window
    {
    }
  }

  lemma ClearKeepsRate(s: Host, clock: int)
    requires RateInv(s, clock)
    ensures RateInv(ClearClock(s), clock)
  {
    hide StampsOk, WindowOk;
  }

  lemma WindowedKeepsRate(s: Host, clock: int, receipt: Time)
    requires RateInv(s, clock) && clock <= receipt
    ensures var w := Windowed(s, receipt);
            RateInv(w, receipt) && w.windowStart.Some? && receipt <= w.windowStart.value + SECOND
  {
    hide StampsOk;
  }

  lemma AdmitKeepsRate(w: Host, samples: seq<Sample>, receipt: Time, received: nat)
    requires RateInv(w, receipt) && samples != []
    requires w.windowStart.Some? && receipt <= w.windowStart.value + SECOND
    ensures RateInv(Admit(w, samples, receipt, received).s, receipt)
  {
    hide StampsOk, WindowOk, Walk;
    ClearKeepsRate(w, receipt);
    if w.rate + |samples| <= MAX_WINDOW_SAMPLES {
      StampsGrow(w.h.stamps, receipt, w.windowStart.value, w.rate, |samples|);
    }
  }

  lemma NativeKeepsRate(s: Host, clock: int, now: Time)
    requires RateInv(s, clock) && clock <= now
    ensures RateInv(NativeElapsed(s, now).s, now)
  {
    hide StampsOk, WindowOk;
  }

  lemma FreshRate(window: Time)
    ensures StampsOk([]) && WindowOk([], window, 0)
  {
  }

  lemma StepKeepsRate(s: Host, c: Call, clock: int)
    requires RateInv(s, clock) && clock <= TimeOf(c, clock)
    ensures RateInv(Step(s, c), TimeOf(c, clock))
  {
    hide StampsOk, WindowOk, Windowed, Admit;
    FreshRate(0);
    match c {
      case DoStart(_, _, _, origin) => FreshRate(origin);
      case DoForward(parsed, now) =>
        NativeKeepsRate(s, clock, now);
        var n := NativeElapsed(s, now);
        WindowedKeepsRate(n.s, now, now);
        if parsed.Some? && parsed.value != [] && n.elapsed.Some? {
          AdmitKeepsRate(Windowed(n.s, now), parsed.value, now, n.elapsed.value);
        }
      case DoPost(now, _) => NativeKeepsRate(s, clock, now);
      case DoMaintain(now, _) => NativeKeepsRate(s, clock, now);
      case DoNative(now) => NativeKeepsRate(s, clock, now);
      case _ =>
    }
  }

  lemma {:induction false} RunKeepsRate(s: Host, calls: seq<Call>, clock: int)
    requires RateInv(s, clock) && Steady(calls, clock)
    ensures RateInv(Run(s, calls), LastTime(calls, clock))
    decreases |calls|
  {
    hide RateInv, Step;
    if calls != [] {
      StepKeepsRate(s, calls[0], clock);
      RunKeepsRate(Step(s, calls[0]), calls[1..], TimeOf(calls[0], clock));
    }
  }

  lemma TwoWindows(stamps: seq<Stamp>, i: nat)
    requires StampsOk(stamps) && i + 2 * MAX_WINDOW_SAMPLES < |stamps|
    ensures stamps[i].receipt + SECOND < stamps[i + 2 * MAX_WINDOW_SAMPLES].receipt
  {
    assert stamps[i].window < stamps[i + MAX_WINDOW_SAMPLES].window;
    var k := i + MAX_WINDOW_SAMPLES;
    assert stamps[k].window < stamps[k + MAX_WINDOW_SAMPLES].window;
  }

  /**
   * In every run on a steady clock at most 512 samples are accepted in any one-second span since the last start: any
   * 513 consecutive ones take longer, although a window may admit 256 at its end and the next one 256 at its start.
   */
  lemma AtMost512PerSecond(calls: seq<Call>, clock: int, i: nat)
    requires Steady(calls, clock)
    requires i + 2 * MAX_WINDOW_SAMPLES < |Run(IDLE, calls).h.stamps|
    ensures var stamps := Run(IDLE, calls).h.stamps;
            stamps[i].receipt + SECOND < stamps[i + 2 * MAX_WINDOW_SAMPLES].receipt
  {
    hide Run, Step, StampsOk, WindowOk;
    FreshRate(0);
    RunKeepsRate(IDLE, calls, clock);
    TwoWindows(Run(IDLE, calls).h.stamps, i);
  }

  // ---- what is forwarded ----

  /** Whole milliseconds from the origin of a collector to a time. */
  function Milliseconds(origin: int, now: int): int {
    (now - origin) / 1_000_000
  }

  /** A published anchor stays as it is, with its origin, until it is dropped. */
  lemma StepKeepsAnchor(s: Host, c: Call)
    requires s.anchor.Some? && Step(s, c).anchor.Some?
    ensures Step(s, c).anchor == s.anchor && Step(s, c).origin == s.origin
  {
    hide Walk;
  }

  lemma {:induction false} RunThen(s: Host, calls: seq<Call>, c: Call)
    ensures Run(s, calls + [c]) == Step(Run(s, calls), c)
    decreases |calls|
  {
    hide Step;
    if calls == [] {
      assert calls + [c] == [c] && [c][1..] == [];
    } else {
      assert (calls + [c])[1..] == calls[1..] + [c];
      RunThen(Step(s, calls[0]), calls[1..], c);
    }
  }

  /** The anchor that a successful post publishes holds until it is dropped. */
  lemma {:induction false} AnchorHolds(calls: seq<Call>, i: nat, j: nat)
    requires i < j <= |calls| && calls[i].DoPost? && Run(IDLE, calls[..i]).anchor.None?
    requires forall k :: i < k <= j ==> Run(IDLE, calls[..k]).anchor.Some?
    ensures var s, t := Run(IDLE, calls[..i]), Run(IDLE, calls[..j]);
            t.origin == s.origin && t.anchor.value == Milliseconds(s.origin, calls[i].now)
    decreases j
  {
    hide Run, Step;
    assert calls[..j] == calls[..j - 1] + [calls[j - 1]];
    RunThen(IDLE, calls[..j - 1], calls[j - 1]);
    if j == i + 1 {
      PostAnchors(Run(IDLE, calls[..i]), calls[i]);
    } else {
      AnchorHolds(calls, i, j - 1);
      StepKeepsAnchor(Run(IDLE, calls[..j - 1]), calls[j - 1]);
    }
  }

  lemma PostAnchors(s: Host, c: Call)
    requires c.DoPost? && s.anchor.None? && Step(s, c).anchor.Some?
    ensures Step(s, c).origin == s.origin && Step(s, c).anchor.value == Milliseconds(s.origin, c.now)
  {
  }

  /**
   * In every run, when an anchor published by a post has not been dropped since, the first message accepted behind it
   * is passed on with the uncertainty of its startup sample, which is the time from the post to the receipt in whole
   * milliseconds and two more, and otherwise unchanged.
   */
  lemma UncertaintyIsDelay(calls: seq<Call>, i: nat, j: nat)
    requires i < j < |calls| && calls[i].DoPost? && calls[j].DoForward? && calls[j].parsed.Some?
    requires Run(IDLE, calls[..i]).anchor.None? && !Run(IDLE, calls[..j]).bound
    requires forall k :: i < k <= j ==> Run(IDLE, calls[..k]).anchor.Some?
    requires Forward(Run(IDLE, calls[..j]), calls[j].parsed, calls[j].now).samples.Some?
    ensures var origin := Run(IDLE, calls[..i]).origin;
            var given := calls[j].parsed.value;
            var passed := Forward(Run(IDLE, calls[..j]), calls[j].parsed, calls[j].now).samples.value;
            && given != [] && |passed| == |given| && passed[1..] == given[1..]
            && passed[0].started && passed[0].elapsed == Milliseconds(origin, calls[i].now)
            && passed[0].uncertainty == Milliseconds(origin, calls[j].now) - Milliseconds(origin, calls[i].now) + 2
  {
    hide Run, Step, Forward;
    AnchorHolds(calls, i, j);
    BindingPasses(Run(IDLE, calls[..j]), calls[j].parsed, calls[j].now);
  }

  lemma BindingPasses(s: Host, parsed: Option<seq<Sample>>, receipt: Time)
    requires !s.bound && s.anchor.Some? && parsed.Some? && Forward(s, parsed, receipt).samples.Some?
    ensures var given, passed := parsed.value, Forward(s, parsed, receipt).samples.value;
            && given != [] && |passed| == |given| && passed[1..] == given[1..]
            && passed[0].started && passed[0].elapsed == s.anchor.value
            && passed[0].uncertainty == Milliseconds(s.origin, receipt) - s.anchor.value + 2
  {
    hide Walk;
    var n := NativeElapsed(s, receipt);
    var given := parsed.value;
    var w := Windowed(n.s, receipt);
    assert w.anchor == s.anchor && w.bound == s.bound;
    var passed := Admit(w, given, receipt, n.elapsed.value).samples.value;
    assert passed == [passed[0]] + given[1..];
  }

  /** Behind the first message everything that is accepted is passed on as it came. */
  lemma LaterPassUnchanged(s: Host, parsed: Option<seq<Sample>>, receipt: Time)
    requires s.bound && Forward(s, parsed, receipt).samples.Some?
    ensures Forward(s, parsed, receipt).samples == parsed
  {
    hide Walk;
  }

  /** Elapsed times that do not go back, from a time on, and a startup sample only where one may stand. */
  ghost predicate InOrder(samples: seq<Sample>, mayStart: bool, from: nat) {
    && (forall i :: 0 <= i < |samples| ==> samples[i].elapsed >= from && (samples[i].started ==> mayStart && i == 0))
    && forall i, j :: 0 <= i < j < |samples| ==> samples[i].elapsed <= samples[j].elapsed
  }

  lemma {:induction false} WalkFineIff(samples: seq<Sample>, mayStart: bool, last: nat)
    ensures Walk(samples, mayStart, last).Fine? <==> InOrder(samples, mayStart, last)
    decreases |samples|
  {
    if samples != [] {
      var x, rest := samples[0], samples[1..];
      WalkFineIff(rest, false, x.elapsed);
      if InOrder(samples, mayStart, last) {
        assert forall i :: 0 <= i < |rest| ==> rest[i] == samples[i + 1];
      }
      if Walk(samples, mayStart, last).Fine? {
        assert forall i :: 0 < i < |samples| ==> samples[i] == rest[i - 1];
      }
    }
  }

  /** How many samples the rate window leaves room for. */
  function Room(s: Host, receipt: Time): int {
    if s.windowStart.None? || receipt > s.windowStart.value + SECOND then MAX_WINDOW_SAMPLES
    else MAX_WINDOW_SAMPLES - s.rate
  }

  /**
   * A message is passed on exactly when the browser is enabled and has an anchor, the native clock runs, the rate
   * window has room, the samples are in order from the last one on, and the first message starts at the anchor within
   * an uncertainty of 32 bits.
   */
  lemma ForwardAcceptsIff(s: Host, parsed: Option<seq<Sample>>, receipt: Time)
    requires EpochInv(s)
    ensures Forward(s, parsed, receipt).samples.Some? <==>
            && s.active.Some? && s.anchor.Some? && parsed.Some? && parsed.value != []
            && NativeElapsed(s, receipt).elapsed.Some?
            && |parsed.value| <= Room(s, receipt)
            && InOrder(parsed.value, !s.bound, if s.bound then s.lastElapsed.value else s.anchor.value)
            && (!s.bound ==>
                  parsed.value[0].started && parsed.value[0].elapsed == s.anchor.value &&
                  0 <= Milliseconds(s.origin, receipt) - s.anchor.value <= U32_MAX - 2)
  {
    hide Walk, EpochOk, InOrder;
    if s.anchor.Some? && parsed.Some? && parsed.value != [] && NativeElapsed(s, receipt).elapsed.Some? {
      WalkFineIff(parsed.value, !s.bound, if s.bound then s.lastElapsed.value else s.anchor.value);
    }
  }

  // ---- the state as the host keeps it ----

  class ExamHostTelemetryState {
    var context: Lifecycle.Identity
    var collector: nat
    var active: Option<Lifecycle.Identity>
    var origin: Time
    var lastNative: Option<Time>
    var anchor: Option<nat>
    var lastElapsed: Option<nat>
    var bound: bool
    var lastAttempt: Option<Time>
    var retries: nat
    var windowStart: Option<Time>
    var rate: nat
    ghost var h: History

    ghost function View(): Host
      reads this
    {
      Host(context, collector, active, origin, lastNative, anchor, lastElapsed, bound, lastAttempt, retries,
           windowStart, rate, h)
    }

    constructor ()
      ensures View() == IDLE
    {
      context, collector, active, origin, lastNative := Lifecycle.UNBOUND, 0, None, 0, None;
      anchor, lastElapsed, bound, lastAttempt, retries := None, None, false, None, 0;
      windowStart, rate, h := None, 0, History([], [], [], []);
    }

    method ClearBrowserClock()
      modifies this`anchor, this`lastElapsed, this`bound, this`lastAttempt, this`retries, this`h
      ensures View() == ClearClock(old(View()))
    {
      h := h.(past := h.past + [Epoch(anchor, h.current)], current := [], attempts := []);
      anchor, lastElapsed, bound := None, None, false;
      lastAttempt, retries := None, 0;
    }

    method StopTelemetry()
      modifies this
      ensures View() == Stop(old(View()))
    {
      hide ClearClock;
      ClearBrowserClock();
      lastNative, windowStart, rate := None, None, 0;
      h := h.(stamps := []);
      active, collector, context := None, 0, Lifecycle.UNBOUND;
    }

    method StartTelemetry(c: Lifecycle.Identity, encodes: bool, id: nat, at: Time) returns (ok: bool)
      modifies this
      ensures Started(View(), ok) == Start(old(View()), c, encodes, id, at)
    {
      hide Stop;
      StopTelemetry();
      if !encodes {
        return false;
      }
      context, origin := c, at;
      lastNative, windowStart, rate := Some(at), Some(at), 0;
      collector := if id <= MAX_COLLECTOR then id else 0;
      ok := true;
    }

    method AcceptEnable(enable: Lifecycle.Identity) returns (ok: bool)
      modifies this`active
      ensures Started(View(), ok) == ApplyEnable(old(View()), enable)
    {
      if collector == 0 || !enable.Valid() || enable != context {
        return false;
      }
      if active.None? {
        active := Some(enable);
      }
      ok := true;
    }

    method AdvanceCollector(id: nat, at: Time)
      modifies this
      ensures View() == Advance(old(View()), id, at)
    {
      hide Stop, ClearClock;
      if collector == 0 {
        return;
      }
      if id == 0 || id > MAX_COLLECTOR || id == collector {
        StopTelemetry();
        return;
      }
      collector, origin, lastNative := id, at, Some(at);
      ClearBrowserClock();
    }

    method Elapsed(now: Time) returns (elapsed: Option<nat>)
      modifies this`lastNative, this`anchor, this`lastElapsed, this`bound, this`lastAttempt, this`retries, this`h
      ensures Native(View(), elapsed) == NativeElapsed(old(View()), now)
    {
      hide ClearClock;
      if collector == 0 || now < origin || (lastNative.Some? && now < lastNative.value) ||
         (origin < 0 && now > MAX_TIME + origin) || (now - origin) / MILLISECOND > MAX_COLLECTOR {
        ClearBrowserClock();
        return None;
      }
      lastNative := Some(now);
      return Some((now - origin) / MILLISECOND);
    }

    method PostBrowserEnable(now: Time, posted: bool) returns (ok: bool)
      modifies this
      ensures Started(View(), ok) == PostEnable(old(View()), now, posted)
    {
      hide ClearClock, NativeElapsed;
      if active.None? {
        return false;
      }
      if anchor.Some? {
        return true;
      }
      var elapsed := Elapsed(now);
      if elapsed.None? {
        return false;
      }
      if !posted {
        ClearBrowserClock();
        return false;
      }
      anchor, lastAttempt := elapsed, Some(now);
      h := h.(attempts := h.attempts + [now]);
      ok := true;
    }

    method MaintainBrowserStartup(now: Time, posted: bool) returns (ok: bool)
      modifies this
      ensures Started(View(), ok) == MaintainStartup(old(View()), now, posted)
    {
      hide ClearClock, NativeElapsed;
      if active.None? || anchor.None? || bound || lastAttempt.None? || retries >= MAX_RETRIES {
        return false;
      }
      var attempted := lastAttempt.value;
      var elapsed := Elapsed(now);
      if elapsed.None? || now < attempted + SECOND {
        return false;
      }
      lastAttempt, retries := Some(now), retries + 1;
      h := h.(attempts := h.attempts + [now]);
      ok := posted;
    }

    method WalkSamples(samples: seq<Sample>, mayStart: bool, before: nat) returns (v: Verdict)
      ensures v == Walk(samples, mayStart, before)
    {
      var last := before;
      for i := 0 to |samples|
        invariant Walk(samples, mayStart, before) == Walk(samples[i..], mayStart && i == 0, last)
      {
        assert samples[i..][1..] == samples[i + 1..];
        if samples[i].started && (!mayStart || i != 0) {
          return DuplicateStart;
        }
        if samples[i].elapsed < last {
          return Regressed;
        }
        last := samples[i].elapsed;
      }
      return Fine(last);
    }

    method DeliverSamples(samples: seq<Sample>, last: nat, receipt: Time)
      requires windowStart.Some?
      modifies this`lastElapsed, this`rate, this`bound, this`h
      ensures View() == Deliver(old(View()), samples, last, receipt)
    {
      bound, lastElapsed, rate := true, Some(last), rate + |samples|;
      h := h.(current := h.current + samples, stamps := h.stamps + Stamps(receipt, windowStart.value, |samples|));
    }

    method AdmitSamples(samples: seq<Sample>, receipt: Time, received: nat) returns (out: Option<seq<Sample>>)
      requires samples != []
      modifies this
      ensures Forwarded(View(), out) == Admit(old(View()), samples, receipt, received)
    {
      hide ClearClock, Walk, Deliver;
      if anchor.None? || windowStart.None? || rate + |samples| > MAX_WINDOW_SAMPLES {
        return None;
      }
      var at := anchor.value;
      if !bound && (!samples[0].started || samples[0].elapsed != at) {
        return None;
      }
      var v := WalkSamples(samples, !bound, if lastElapsed.Some? then lastElapsed.value else at);
      if v.DuplicateStart? {
        return None;
      }
      if v.Regressed? {
        ClearBrowserClock();
        return None;
      }
      var accepted := samples;
      if !bound {
        if received < at || received - at > U32_MAX - 2 {
          ClearBrowserClock();
          return None;
        }
        accepted := [samples[0].(uncertainty := received - at + 2)] + samples[1..];
      }
      DeliverSamples(accepted, v.last, receipt);
      return Some(accepted);
    }

    method ForwardBrowserSamples(parsed: Option<seq<Sample>>, receipt: Time) returns (out: Option<seq<Sample>>)
      modifies this
      ensures Forwarded(View(), out) == Forward(old(View()), parsed, receipt)
    {
      hide NativeElapsed, Admit;
      if active.None? || anchor.None? || parsed.None? || parsed.value == [] {
        return None;
      }
      var received := Elapsed(receipt);
      if received.None? {
        return None;
      }
      if windowStart.None? || receipt > windowStart.value + SECOND {
        windowStart, rate := Some(receipt), 0;
      }
      out := AdmitSamples(parsed.value, receipt, received.value);
    }
  }
}
