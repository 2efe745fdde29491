/**
 * The lock-free shortcut counter: one 64-bit word holding a 31-bit generation, an enabled bit and a 32-bit count.
 * Threads interleave at every atomic load, store and compare-and-exchange; only thread 0 resets.
 */
module ShortcutCounter {
  import opened Wire

  const COUNT_RANGE: nat := 0x1_0000_0000
  const ENABLED_BIT: nat := 0x1_0000_0000
  const GENERATION_STEP: nat := 0x2_0000_0000
  const GENERATIONS: nat := 0x8000_0000
  const WORD_RANGE: nat := 0x1_0000_0000_0000_0000
  const RESETTER: nat := 0

  function CountOf(w: nat): nat {
    w % COUNT_RANGE
  }

  /** The word without its count: generation and enabled bit. */
  function UpperOf(w: nat): nat {
    w - CountOf(w)
  }

  /** Generation and enabled bit as a number of their own. */
  function High(w: nat): nat {
    w / COUNT_RANGE
  }

  predicate EnabledIn(w: nat) {
    High(w) % 2 == 1
  }

  function GenerationOf(w: nat): nat {
    High(w) / 2
  }

  /** The next generation with an empty count, in 64-bit arithmetic. */
  function ResetWord(previous: nat, enabled: bool): nat {
    var stepped := (previous + GENERATION_STEP) % WORD_RANGE;
    stepped - stepped % GENERATION_STEP + if enabled then ENABLED_BIT else 0
  }

  lemma Split(d: nat, q: nat, r: nat)
    requires r < d
    ensures (d * q + r) / d == q && (d * q + r) % d == r
  {
    Remainder(d * q + r, d, q, r);
    var w := (d * q + r) / d - q;
    assert d * w == 0;
    Multiples(d, w);
  }

  lemma HighAndCount(w: nat)
    ensures w == COUNT_RANGE * High(w) + CountOf(w) && CountOf(w) < COUNT_RANGE
  {
  }

  lemma FromHigh(h: nat, count: nat)
    requires count < COUNT_RANGE
    ensures High(COUNT_RANGE * h + count) == h && CountOf(COUNT_RANGE * h + count) == count
  {
    Split(COUNT_RANGE, h, count);
  }

  lemma Stepped(h: nat, count: nat)
    requires h < COUNT_RANGE && count < COUNT_RANGE
    ensures (COUNT_RANGE * h + count + GENERATION_STEP) % WORD_RANGE == COUNT_RANGE * ((h + 2) % COUNT_RANGE) + count
  {
    var wrapped := if h + 2 >= COUNT_RANGE then 1 else 0;
    var rest := h + 2 - wrapped * COUNT_RANGE;
    Remainder(h + 2, COUNT_RANGE, wrapped, rest);
    Remainder(COUNT_RANGE * h + count + GENERATION_STEP, WORD_RANGE, wrapped, COUNT_RANGE * rest + count);
  }

  lemma Cleared(h: nat, count: nat)
    requires count < COUNT_RANGE
    ensures (COUNT_RANGE * h + count) % GENERATION_STEP == COUNT_RANGE * (h % 2) + count
  {
    var half := h / 2;
    assert h == 2 * half + h % 2;
    Remainder(COUNT_RANGE * h + count, GENERATION_STEP, half, COUNT_RANGE * (h % 2) + count);
  }

  lemma ResetWordFields(previous: nat, enabled: bool)
    requires previous < WORD_RANGE
    ensures var w := ResetWord(previous, enabled);
            && w < WORD_RANGE && CountOf(w) == 0 && (EnabledIn(w) <==> enabled)
            && GenerationOf(w) == (GenerationOf(previous) + 1) % GENERATIONS
  {
    hide High, CountOf;
    HighAndCount(previous);
    var h, count := High(previous), CountOf(previous);
    Stepped(h, count);
    var next := (h + 2) % COUNT_RANGE;
    Cleared(next, count);
    var w := ResetWord(previous, enabled);
    var high := next - next % 2 + if enabled then 1 else 0;
    assert w == COUNT_RANGE * high;
    FromHigh(high, 0);
    NextGeneration(h);
  }

  lemma NextGeneration(h: nat)
    requires h < COUNT_RANGE
    ensures (h + 2) % COUNT_RANGE / 2 == (h / 2 + 1) % GENERATIONS
  {
  }

  lemma CountFields(w: nat, count: nat)
    requires w < WORD_RANGE && count < COUNT_RANGE
    ensures var v := UpperOf(w) + count;
            && v < WORD_RANGE && CountOf(v) == count && UpperOf(v) == UpperOf(w)
            && EnabledIn(v) == EnabledIn(w) && GenerationOf(v) == GenerationOf(w)
  {
    hide High, CountOf;
    HighAndCount(w);
    FromHigh(High(w), count);
  }

  lemma UpperFixesFields(v: nat, w: nat)
    requires UpperOf(v) == UpperOf(w)
    ensures EnabledIn(v) == EnabledIn(w) && GenerationOf(v) == GenerationOf(w)
  {
    hide High, CountOf;
    HighAndCount(v);
    HighAndCount(w);
    FromHigh(High(v), 0);
    FromHigh(High(w), 0);
  }

  /** What a thread holds between two of its atomic steps; `began` is the number of resets before its first load. */
  datatype Actor =
    | Idle
    | Recording(amount: nat, upper: nat, previous: nat, began: nat)
    | Draining(previous: nat)
    | Resetting(previous: nat, enabled: bool)

  /** One generation's account: counts added, drained, and thrown away by the reset that ended it. */
  datatype Account = Account(recorded: nat, drained: nat, left: nat, saturated: bool)

  /** A record that took effect after `landed` resets. */
  datatype Landing = Landing(began: nat, landed: nat, amount: nat, enabled: bool)

  datatype Machine = Machine(
    word: nat, epoch: nat, actors: map<nat, Actor>, recorded: nat, drained: nat, saturated: bool,
    past: seq<Account>, landings: seq<Landing>)
  {
    function Of(t: nat): Actor {
      if t in actors then actors[t] else Idle
    }

    function Put(t: nat, a: Actor): Machine {
      this.(actors := actors[t := a])
    }
  }

  const START := Machine(0, 0, map[], 0, 0, false, [], [])

  /** `spurious` lets a weak compare-and-exchange fail although the word is the expected one. */
  datatype Move =
    | StartRecord(t: nat, amount: nat)
    | TryRecord(t: nat, spurious: bool)
    | StartDrain(t: nat)
    | TryDrain(t: nat, spurious: bool)
    | StartReset(enabled: bool)
    | FinishReset

  function BeginRecord(m: Machine, t: nat, amount: nat): Machine {
    if m.Of(t) != Idle || !EnabledIn(m.word) || amount >= COUNT_RANGE then m
    else m.Put(t, Recording(amount, UpperOf(m.word), m.word, m.epoch))
  }

  function AddTo(m: Machine, t: nat, a: Actor): Machine
    requires a.Recording?
  {
    var sum := CountOf(a.previous) + a.amount;
    var next := if sum >= COUNT_RANGE then COUNT_RANGE - 1 else sum;
    m.Put(t, Idle).(word := a.upper + next, recorded := m.recorded + a.amount,
                    saturated := m.saturated || sum >= COUNT_RANGE,
                    landings := m.landings + [Landing(a.began, m.epoch, a.amount, EnabledIn(m.word))])
  }

  /** A failed exchange reloads the word and gives up as soon as the generation or the enabled bit differs. */
  function ContinueRecord(m: Machine, t: nat, spurious: bool): Machine {
    match m.Of(t)
    case Recording(amount, upper, previous, began) =>
      if m.word == previous && !spurious then AddTo(m, t, m.Of(t))
      else if UpperOf(m.word) == upper then m.Put(t, Recording(amount, upper, m.word, began))
      else m.Put(t, Idle)
    case _ => m
  }

  function BeginDrain(m: Machine, t: nat): Machine {
    if m.Of(t) != Idle then m else m.Put(t, Draining(m.word))
  }

  function ContinueDrain(m: Machine, t: nat, spurious: bool): Machine {
    match m.Of(t)
    case Draining(previous) =>
      if m.word == previous && !spurious
      then m.Put(t, Idle).(word := UpperOf(previous), drained := m.drained + CountOf(previous))
      else m.Put(t, Draining(m.word))
    case _ => m
  }

  function BeginReset(m: Machine, enabled: bool): Machine {
    if m.Of(RESETTER) != Idle then m else m.Put(RESETTER, Resetting(m.word, enabled))
  }

  /** The store of a reset: whatever was counted since its load is thrown away with the old generation. */
  function EndReset(m: Machine): Machine {
    match m.Of(RESETTER)
    case Resetting(previous, enabled) =>
      m.Put(RESETTER, Idle).(
        word := ResetWord(previous, enabled), epoch := m.epoch + 1, recorded := 0, drained := 0, saturated := false,
        past := m.past + [Account(m.recorded, m.drained, CountOf(m.word), m.saturated)])
    case _ => m
  }

  function Step(m: Machine, move: Move): Machine {
    match move
    case StartRecord(t, amount) => BeginRecord(m, t, amount)
    case TryRecord(t, spurious) => ContinueRecord(m, t, spurious)
    case StartDrain(t) => BeginDrain(m, t)
    case TryDrain(t, spurious) => ContinueDrain(m, t, spurious)
    case StartReset(enabled) => BeginReset(m, enabled)
    case FinishReset => EndReset(m)
  }

  function Run(m: Machine, moves: seq<Move>): Machine
    decreases |moves|
  {
    if moves == [] then m else Run(Step(m, moves[0]), moves[1..])
  }

  ghost predicate ActorOk(m: Machine, t: nat, a: Actor) {
    match a
    case Idle => true
    case Recording(amount, upper, previous, began) =>
      && amount < COUNT_RANGE && previous < WORD_RANGE && upper == UpperOf(previous) && EnabledIn(previous)
      && began <= m.epoch && GenerationOf(previous) == began % GENERATIONS
    case Draining(previous) => previous < WORD_RANGE
    case Resetting(previous, _) =>
      t == RESETTER && previous < WORD_RANGE && GenerationOf(previous) == m.epoch % GENERATIONS
  }

  predicate Balanced(a: Account) {
    (!a.saturated ==> a.recorded == a.drained + a.left) && a.recorded >= a.drained + a.left
  }

  /** A record lands in the generation it began in, or a whole number of 31-bit generation cycles later. */
  predicate LandedInItsGeneration(l: Landing) {
    l.enabled && l.began <= l.landed && (l.landed - l.began) % GENERATIONS == 0
  }

  /** The counts that took effect in one generation. */
  function RecordedIn(landings: seq<Landing>, epoch: nat): nat {
    if landings == [] then 0
    else
      var last := landings[|landings| - 1];
      RecordedIn(landings[..|landings| - 1], epoch) + if last.landed == epoch then last.amount else 0
  }

  lemma RecordedPush(landings: seq<Landing>, l: Landing, epoch: nat)
    ensures RecordedIn(landings + [l], epoch) == RecordedIn(landings, epoch) + if l.landed == epoch then l.amount else 0
  {
    assert (landings + [l])[..|landings|] == landings;
  }

  lemma {:induction false} NothingRecordedYet(landings: seq<Landing>, epoch: nat)
    requires forall l :: l in landings ==> l.landed < epoch
    ensures RecordedIn(landings, epoch) == 0
  {
    if landings != [] {
      NothingRecordedYet(landings[..|landings| - 1], epoch);
    }
  }

  /** The accounts agree with the records that took effect. */
  ghost predicate Booked(m: Machine) {
    && |m.past| == m.epoch
    && (forall l :: l in m.landings ==> l.landed <= m.epoch)
    && m.recorded == RecordedIn(m.landings, m.epoch)
    && (forall e :: 0 <= e < m.epoch ==> m.past[e].recorded == RecordedIn(m.landings, e))
  }

  lemma StepKeepsBooked(m: Machine, move: Move)
    requires Booked(m)
    ensures Booked(Step(m, move))
  {
    hide CountOf, UpperOf, EnabledIn, GenerationOf, ResetWord;
    var n := Step(m, move);
    if |n.landings| > |m.landings| {
      var l := n.landings[|m.landings|];
      forall e: nat
        ensures RecordedIn(n.landings, e) == RecordedIn(m.landings, e) + if l.landed == e then l.amount else 0
      {
        RecordedPush(m.landings, l, e);
      }
    } else {
      assert n.landings == m.landings;
      if n.epoch > m.epoch {
        NothingRecordedYet(m.landings, n.epoch);
      }
    }
  }

  ghost predicate Inv(m: Machine) {
    && m.word < WORD_RANGE && GenerationOf(m.word) == m.epoch % GENERATIONS
    && (forall t :: t in m.actors ==> ActorOk(m, t, m.actors[t]))
    && Balanced(Account(m.recorded, m.drained, CountOf(m.word), m.saturated))
    && (forall a :: a in m.past ==> Balanced(a))
    && (forall l :: l in m.landings ==> LandedInItsGeneration(l))
  }

  lemma Congruent(x: nat, y: nat)
    requires y <= x && x % GENERATIONS == y % GENERATIONS
    ensures (x - y) % GENERATIONS == 0
  {
  }

  lemma RecordKeepsInv(m: Machine, t: nat, spurious: bool)
    requires Inv(m)
    ensures Inv(ContinueRecord(m, t, spurious))
  {
    hide CountOf, UpperOf, EnabledIn, GenerationOf, LandedInItsGeneration;
    var a := m.Of(t);
    if a.Recording? {
      if m.word == a.previous && !spurious {
        LandingBalances(m, t, a);
      } else if UpperOf(m.word) == a.upper {
        UpperFixesFields(m.word, a.previous);
      }
    }
  }

  lemma LandingBalances(m: Machine, t: nat, a: Actor)
    requires Inv(m) && a == m.Of(t) && a.Recording? && m.word == a.previous
    ensures Inv(AddTo(m, t, a))
  {
    hide UpperOf, EnabledIn, GenerationOf;
    var sum := CountOf(a.previous) + a.amount;
    CountFields(m.word, if sum >= COUNT_RANGE then COUNT_RANGE - 1 else sum);
    Congruent(m.epoch, a.began);
  }

  lemma DrainKeepsInv(m: Machine, t: nat, spurious: bool)
    requires Inv(m)
    ensures Inv(ContinueDrain(m, t, spurious))
  {
    hide UpperOf, EnabledIn, GenerationOf;
    CountFields(m.word, 0);
  }

  lemma NextEpoch(epoch: nat)
    ensures (epoch % GENERATIONS + 1) % GENERATIONS == (epoch + 1) % GENERATIONS
  {
  }

  lemma ResetKeepsInv(m: Machine)
    requires Inv(m)
    ensures Inv(EndReset(m))
  {
    hide CountOf, UpperOf, EnabledIn, GenerationOf, ResetWord, LandedInItsGeneration, Balanced;
    var a := m.Of(RESETTER);
    if a.Resetting? {
      ResetWordFields(a.previous, a.enabled);
      NextEpoch(m.epoch);
      assert Balanced(Account(0, 0, CountOf(ResetWord(a.previous, a.enabled)), false)) by {
        EmptyBalances();
      }
      var n := EndReset(m);
      forall t | t in n.actors
        ensures ActorOk(n, t, n.actors[t])
      {
        assert t != RESETTER ==> ActorOk(m, t, m.actors[t]);
      }
    }
  }

  lemma EmptyBalances()
    ensures Balanced(Account(0, 0, 0, false))
  {
  }

  lemma StepKeepsInv(m: Machine, move: Move)
    requires Inv(m)
    ensures Inv(Step(m, move))
  {
    hide CountOf, UpperOf, EnabledIn, GenerationOf, LandedInItsGeneration, ContinueRecord, ContinueDrain, EndReset;
    match move {
      case TryRecord(t, spurious) => RecordKeepsInv(m, t, spurious);
      case TryDrain(t, spurious) => DrainKeepsInv(m, t, spurious);
      case FinishReset => ResetKeepsInv(m);
      case _ =>
    }
  }

  lemma ZeroWord()
    ensures CountOf(0) == 0 && GenerationOf(0) == 0 % GENERATIONS
  {
  }

  lemma StartInv()
    ensures Inv(START)
  {
    hide CountOf, GenerationOf, LandedInItsGeneration, ActorOk;
    ZeroWord();
  }

  lemma StartOk()
    ensures Inv(START) && Booked(START)
  {
    hide Inv;
    StartInv();
    NothingRecordedYet([], 0);
  }

  lemma {:induction false} RunKeepsInv(m: Machine, moves: seq<Move>)
    requires Inv(m) && Booked(m)
    ensures Inv(Run(m, moves)) && Booked(Run(m, moves))
    decreases |moves|
  {
    hide Inv, Booked, Step;
    if moves != [] {
      StepKeepsInv(m, moves[0]);
      StepKeepsBooked(m, moves[0]);
      RunKeepsInv(Step(m, moves[0]), moves[1..]);
    }
  }

  /**
   * In every interleaving a record that takes effect does so while counting is enabled and in the generation in which
   * it was begun, unless the generation has wrapped around completely in between.
   */
  lemma NoStaleRecord(moves: seq<Move>, l: Landing)
    requires l in Run(START, moves).landings
    ensures l.enabled && (l.landed == l.began || l.landed >= l.began + GENERATIONS)
  {
    hide Run, LandedInItsGeneration;
    LandingsLand(moves, l);
    CyclesApart(l);
  }

  lemma CyclesApart(l: Landing)
    requires LandedInItsGeneration(l)
    ensures l.enabled && (l.landed == l.began || l.landed >= l.began + GENERATIONS)
  {
    Small(l.landed - l.began);
  }

  lemma LandingsLand(moves: seq<Move>, l: Landing)
    requires l in Run(START, moves).landings
    ensures LandedInItsGeneration(l)
  {
    hide Run, Booked, CountOf, GenerationOf, LandedInItsGeneration;
    StartOk();
    RunKeepsInv(START, moves);
  }

  lemma Small(distance: int)
    ensures 0 <= distance < GENERATIONS ==> distance % GENERATIONS == distance
  {
  }

  /** Unsaturated generations lose nothing: their records are what was drained and what was left at the end. */
  ghost predicate Conserved(m: Machine) {
    && |m.past| == m.epoch
    && (forall e :: 0 <= e < m.epoch && !m.past[e].saturated ==>
          RecordedIn(m.landings, e) == m.past[e].drained + m.past[e].left)
    && (!m.saturated ==> RecordedIn(m.landings, m.epoch) == m.drained + CountOf(m.word))
  }

  lemma AccountsConserve(m: Machine)
    requires Inv(m) && Booked(m)
    ensures Conserved(m)
  {
    hide ActorOk, CountOf, GenerationOf, RecordedIn, LandedInItsGeneration;
    assert forall e :: 0 <= e < m.epoch ==> Balanced(m.past[e]);
  }

  /** In every interleaving, for every generation that ended and for the current one. */
  lemma GenerationsBalance(moves: seq<Move>)
    ensures Conserved(Run(START, moves))
  {
    hide Run, Inv, Booked, Conserved;
    StartOk();
    RunKeepsInv(START, moves);
    AccountsConserve(Run(START, moves));
  }
}
