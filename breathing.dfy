/** The breathing exercise: a countdown that cycles Inhale -> Hold -> Exhale while running.
    One firing of the one-second interval is one `Tick`. */
module Breathing {

  datatype Phase = Inhale | Hold | Exhale

  /** The phase that follows `p` when its countdown runs out. */
  function Next(p: Phase): Phase {
    match p
    case Inhale => Hold
    case Hold => Exhale
    case Exhale => Inhale
  }

  /** `phaseDurations`: every phase counts down from 4. */
  function Duration(p: Phase): int {
    4
  }

  /** What the exercise shows: the phase name and the counter under it. */
  datatype Display = Display(phase: Phase, count: int)

  /** The display after a start or a stop. */
  const Initial := Display(Inhale, 4)

  /** The count updater run by one interval firing. */
  function Step(d: Display): (r: Display)
    ensures d.count > 1 ==> r == Display(d.phase, d.count - 1)
    ensures d.count <= 1 ==> r.phase == Next(d.phase) && r.count == Duration(r.phase)
    ensures r.count >= 1 && (d.count <= 4 ==> r.count <= 4)
  {
    if d.count <= 1 then Display(Next(d.phase), Duration(Next(d.phase)))
    else Display(d.phase, d.count - 1)
  }

  /** The display after `n` firings. */
  function Run(d: Display, n: nat): Display {
    if n == 0 then d else Step(Run(d, n - 1))
  }

  /** The phase shown during the `k`-th block of four seconds after a start. */
  function PhaseOfBlock(k: nat): Phase {
    if k % 3 == 0 then Inhale else if k % 3 == 1 then Hold else Exhale
  }

  /** The cycle has period three and no phase follows itself. */
  lemma NextCycles(p: Phase)
    ensures Next(Next(Next(p))) == p
    ensures Next(p) != p && Next(Next(p)) != p
  {
  }

  /** After `n` firings from a start, each phase is shown for four firings in the fixed
      order, counting 4, 3, 2, 1. */
  lemma {:induction false} RunFromStart(n: nat)
    ensures Run(Initial, n) == Display(PhaseOfBlock(n / 4), 4 - n % 4)
  {
    if n > 0 {
      RunFromStart(n - 1);
      var m := n - 1;
      if m % 4 == 3 {
        assert n / 4 == m / 4 + 1 && n % 4 == 0;
        assert PhaseOfBlock(n / 4) == Next(PhaseOfBlock(m / 4));
      } else {
        assert n / 4 == m / 4 && n % 4 == m % 4 + 1;
      }
    }
  }

  /** Twelve firings bring the exercise back to where it was: the display is periodic. */
  lemma CycleOfTwelve(n: nat)
    ensures Run(Initial, n + 12) == Run(Initial, n)
    ensures Run(Initial, 12) == Initial
  {
    RunFromStart(n);
    RunFromStart(n + 12);
    RunFromStart(12);
    assert (n + 12) / 4 == n / 4 + 3 && (n + 12) % 4 == n % 4;
  }

  /** From any display with its counter in 1..4, the counter stays in 1..4 forever. */
  lemma {:induction false} RunKeepsCountInRange(d: Display, n: nat)
    requires 1 <= d.count <= 4
    ensures 1 <= Run(d, n).count <= 4
  {
    if n > 0 {
      RunKeepsCountInRange(d, n - 1);
    }
  }

  /** The state of the breathing-exercise component. */
  class BreathingExercise {
    var phase: Phase
    var count: int
    var running: bool

    /** The counter is within the current phase's duration. */
    ghost predicate Valid()
      reads this
    {
      1 <= count <= Duration(phase)
    }

    function Shown(): Display
      reads this
    {
      Display(phase, count)
    }

    constructor ()
      ensures Valid() && Shown() == Initial && !running
    {
      phase, count, running := Inhale, 4, false;
    }

    /** One firing of the interval. No interval exists while the exercise is stopped. */
    method Tick()
      requires Valid()
      modifies this`phase, this`count
      ensures Valid()
      ensures !old(running) ==> Shown() == old(Shown())
      ensures old(running) ==> Shown() == Step(old(Shown()))
      ensures old(running) && old(count) > 1 ==> phase == old(phase) && count == old(count) - 1
      ensures old(running) && old(count) <= 1 ==> phase == Next(old(phase)) && count == Duration(phase)
    {
      if !running {
        return;
      }
      if count <= 1 {
        var next := Next(phase);
        phase, count := next, Duration(next);
      } else {
        count := count - 1;
      }
    }

    /** `startExercise`: running, from Inhale with the counter at 4. */
    method Start()
      modifies this
      ensures Valid() && running && Shown() == Initial
    {
      running, phase, count := true, Inhale, 4;
    }

    /** `stopExercise`: stopped, and back to Inhale with the counter at 4. */
    method Stop()
      modifies this
      ensures Valid() && !running && Shown() == Initial
    {
      running, phase, count := false, Inhale, 4;
    }
  }
}
