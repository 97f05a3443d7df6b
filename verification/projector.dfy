/** The dose projector: from the dose delivered in earlier runs, the dose the
    screen shows for the run in progress, the target total and the on-target
    beam current, it derives the total so far, the dose still to add, the
    screen reading at which to stop, and, when it can, the time at which the
    target is reached (end of beam).

    Doses are in µA·h, the beam current in µA, times in hours on a clock the
    caller supplies; all arithmetic is over the reals. */
module Projector {

  /** The three quantities derived from the doses alone. */
  datatype Doses = Doses(total: real, remaining: real, stop: real)

  /** The three outcomes of a calculation. Every one of them reports the total
      so far and the screen reading at which to stop. */
  datatype Outcome =
    | TargetMet(total: real, stop: real)
    | Eta(total: real, remaining: real, stop: real, hours: real, eta: real)
    | NeedBeam(total: real, remaining: real, stop: real)

  /** The total so far is the earlier dose plus the screen reading; the dose
      still to add brings that total up to the target; the stop reading is the
      screen reading at which nothing remains to add. */
  function ComputeRemainingAndStop(previous: real, screen: real, target: real): (d: Doses)
    ensures d.total - previous == screen
    ensures d.total + d.remaining == target
    ensures d.stop + previous == target
    ensures d.stop - d.remaining == screen
  {
    var total := previous + screen;
    Doses(total, target - total, target - previous)
  }

  /** The stop reading does not depend on the current screen reading. */
  lemma StopIndependentOfScreen(previous: real, screen1: real, screen2: real, target: real)
    ensures ComputeRemainingAndStop(previous, screen1, target).stop
         == ComputeRemainingAndStop(previous, screen2, target).stop
  {
  }

  /** The decision of the calculate handler, with the clock reading `now` (in
      hours) passed in: target met when nothing remains to add, otherwise an
      end-of-beam time when the beam current is positive, otherwise a request
      for a beam current. */
  function Decide(previous: real, screen: real, target: real, beam: real, now: real): (o: Outcome)
    ensures o.total == previous + screen
    ensures o.stop == target - previous
    ensures o.TargetMet? <==> o.total >= target
    ensures o.Eta? <==> o.total < target && beam > 0.0
    ensures o.NeedBeam? <==> o.total < target && beam <= 0.0
    ensures !o.TargetMet? ==> o.remaining > 0.0 && o.total + o.remaining == target
    ensures o.Eta? ==> o.hours > 0.0 && o.hours * beam == o.remaining && o.eta - now == o.hours
    ensures Consistent(o)
  {
    var d := ComputeRemainingAndStop(previous, screen, target);
    if d.remaining <= 0.0 then
      TargetMet(d.total, d.stop)
    else if beam > 0.0 then
      var hours := d.remaining / beam;
      Eta(d.total, d.remaining, d.stop, hours, now + hours)
    else
      NeedBeam(d.total, d.remaining, d.stop)
  }

  /** What every outcome of `Decide` satisfies: an outcome other than
      "target met" still has a positive dose to add, and a projected run has a
      positive duration. */
  predicate Consistent(o: Outcome) {
    match o
    case TargetMet(_, _) => true
    case Eta(_, remaining, _, hours, _) => remaining > 0.0 && hours > 0.0
    case NeedBeam(_, remaining, _) => remaining > 0.0
  }

  /** The "remaining to add" figure shown to the operator: zero once the
      target is met, the (positive) dose still to add otherwise. */
  function ReportedRemaining(o: Outcome): (r: real)
    requires Consistent(o)
    ensures r >= 0.0
    ensures r == 0.0 <==> o.TargetMet?
    ensures !o.TargetMet? ==> r == o.remaining
  {
    if o.TargetMet? then 0.0 else o.remaining
  }

  /** The reported remaining dose is the shortfall of the total below the
      target, floored at zero. */
  lemma ReportedRemainingIsShortfall(previous: real, screen: real, target: real, beam: real, now: real)
    ensures var o := Decide(previous, screen, target, beam, now);
            ReportedRemaining(o) == if target > o.total then target - o.total else 0.0
  {
  }

  /** The stop reading is the threshold on the screen: the target counts as met
      exactly when the screen reading has reached it. */
  lemma StopIsThreshold(previous: real, screen: real, target: real, beam: real, now: real)
    ensures Decide(previous, screen, target, beam, now).TargetMet?
        <==> screen >= Decide(previous, screen, target, beam, now).stop
  {
  }

  /** Once the target is met, neither the beam current nor the clock changes the outcome. */
  lemma TargetMetIgnoresBeam(previous: real, screen: real, target: real,
                             beam1: real, now1: real, beam2: real, now2: real)
    requires Decide(previous, screen, target, beam1, now1).TargetMet?
    ensures Decide(previous, screen, target, beam2, now2) == Decide(previous, screen, target, beam1, now1)
  {
  }

  /** Running at the given beam current for the projected hours delivers
      exactly the dose still to add, so the screen then shows the stop reading. */
  lemma EtaReachesStop(previous: real, screen: real, target: real, beam: real, now: real)
    requires Decide(previous, screen, target, beam, now).Eta?
    ensures var o := Decide(previous, screen, target, beam, now);
            screen + beam * o.hours == o.stop && o.total + beam * o.hours == target
  {
  }

  /** A larger beam current gives a strictly earlier end of beam. */
  lemma EtaEarlierWithMoreBeam(previous: real, screen: real, target: real,
                                beam1: real, beam2: real, now: real)
    requires 0.0 < beam1 < beam2
    requires Decide(previous, screen, target, beam1, now).Eta?
    ensures Decide(previous, screen, target, beam2, now).Eta?
    ensures Decide(previous, screen, target, beam2, now).eta
          < Decide(previous, screen, target, beam1, now).eta
  {
    var o1 := Decide(previous, screen, target, beam1, now);
    var o2 := Decide(previous, screen, target, beam2, now);
    // the same remaining dose is delivered in fewer hours at the larger current
    var h1, h2 := o1.hours, o2.hours;
    var same := h2 * beam2;
    assert same == h1 * beam1;
    var faster := h1 * beam2;
    assert h1 * beam1 < faster;
    assert same < faster;
    assert (h1 - h2) * beam2 > 0.0;
  }

  /** Four representative cases: a fresh run, a run part way through, a
      target already exceeded, and a zero beam current. */
  lemma WorkedExamples()
    ensures Decide(0.0, 0.0, 100000.0, 300.0, 0.0)
         == Eta(0.0, 100000.0, 100000.0, 1000.0 / 3.0, 1000.0 / 3.0)
    ensures Decide(50000.0, 10000.0, 100000.0, 150.0, 0.0)
         == Eta(60000.0, 40000.0, 50000.0, 800.0 / 3.0, 800.0 / 3.0)
    ensures Decide(100000.0, 5000.0, 100000.0, 300.0, 0.0) == TargetMet(105000.0, 0.0)
    ensures Decide(0.0, 0.0, 100000.0, 0.0, 0.0) == NeedBeam(0.0, 100000.0, 100000.0)
  {
  }
}
