/** The first version of the calculator: the same dose arithmetic, then the
    hours to go as the remaining dose over the beam current, with no
    target-met branch and no guard against a zero beam current. */
module FirstIteration {
  import Projector

  /** What the first version computes. */
  datatype Estimate = Estimate(total: real, remaining: real, hours: real)

  /** The first version's `calculate`. Division by a zero beam current raises
      in Python, so the model asks for a non-zero current. */
  function Calculate(previousDose: real, currentDose: real, maximumDose: real, current: real): (e: Estimate)
    requires current != 0.0
    ensures e.total - previousDose == currentDose
    ensures e.total + e.remaining == maximumDose
    ensures e.hours * current == e.remaining
  {
    var total := previousDose + currentDose;
    var remaining := maximumDose - total;
    Estimate(total, remaining, remaining / current)
  }

  /** Without a target-met branch, a total past the maximum yields a negative
      number of hours for any positive beam current. */
  lemma NegativeHoursPastTarget(previousDose: real, currentDose: real, maximumDose: real, current: real)
    requires current > 0.0 && previousDose + currentDose > maximumDose
    ensures Calculate(previousDose, currentDose, maximumDose, current).hours < 0.0
  {
  }

  /** A concrete case: 100000 µA·h before, 5000 on the screen, a maximum of
      100000 and 300 µA gives -50/3 hours, where the later calculator reports
      the target as met. */
  lemma NegativeHoursExample()
    ensures Calculate(100000.0, 5000.0, 100000.0, 300.0).hours == -50.0 / 3.0
    ensures Projector.Decide(100000.0, 5000.0, 100000.0, 300.0, 0.0).TargetMet?
  {
  }

  /** Wherever the later calculator projects an end of beam, the first version
      computes the same total, remaining dose and hours. */
  lemma AgreesWithProjector(previousDose: real, currentDose: real, maximumDose: real, current: real, now: real)
    requires current > 0.0 && previousDose + currentDose < maximumDose
    ensures Projector.Decide(previousDose, currentDose, maximumDose, current, now).Eta?
    ensures var e := Calculate(previousDose, currentDose, maximumDose, current);
            var o := Projector.Decide(previousDose, currentDose, maximumDose, current, now);
            e.total == o.total && e.remaining == o.remaining && e.hours == o.hours
  {
  }

  /** Without a guard on the beam current, a negative current with dose still
      to add also yields negative hours, where the later calculator asks for a
      beam current instead. */
  lemma NegativeCurrentDisagrees(previousDose: real, currentDose: real, maximumDose: real, current: real, now: real)
    requires current < 0.0 && previousDose + currentDose < maximumDose
    ensures Calculate(previousDose, currentDose, maximumDose, current).hours < 0.0
    ensures Projector.Decide(previousDose, currentDose, maximumDose, current, now).NeedBeam?
  {
  }
}
