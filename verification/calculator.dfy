/** The calculate handler: read the four entries, clean each one up, convert
    it to a number, and hand the numbers to the projector. The first entry
    that is not a number aborts the calculation with an error naming it, and
    nothing is computed. */
module Calculator {
  import opened Results
  import InputText
  import Projector

  /** The four entry fields, in the order the handler reads them. */
  datatype Field = Previous | CurrentScreen | Target | BeamCurrent

  /** The text of the four entries. */
  datatype Entries = Entries(previous: seq<char>, screen: seq<char>,
                             target: seq<char>, beam: seq<char>)
  {
    function Text(f: Field): seq<char> {
      match f
      case Previous => previous
      case CurrentScreen => screen
      case Target => target
      case BeamCurrent => beam
    }
  }

  /** The four entries as numbers. */
  datatype DoseInputs = DoseInputs(previous: real, screen: real, target: real, beam: real)

  /** An entry that does not read as a number, with the cleaned-up text that was rejected. */
  datatype InputError = InvalidInput(field: Field, text: seq<char>)

  /** The number converter, for instance Python's `float`, which yields
      nothing for text that is not a number. */
  type NumberParser = seq<char> -> Option<real>

  /** Every entry cleaned up as `parse_float` does before converting it. */
  function Clean(raw: Entries): (c: Entries)
    ensures forall f :: ',' !in c.Text(f)
  {
    Entries(InputText.Normalize(raw.previous), InputText.Normalize(raw.screen),
            InputText.Normalize(raw.target), InputText.Normalize(raw.beam))
  }

  /** Whether a (cleaned-up) entry reads as a number. */
  predicate Parses(parse: NumberParser, entries: Entries, f: Field) {
    parse(entries.Text(f)).Some?
  }

  /** Whether every field read before `f` parsed. */
  predicate ReadBefore(parse: NumberParser, entries: Entries, f: Field) {
    match f
    case Previous => true
    case CurrentScreen => Parses(parse, entries, Previous)
    case Target => Parses(parse, entries, Previous) && Parses(parse, entries, CurrentScreen)
    case BeamCurrent =>
      Parses(parse, entries, Previous) && Parses(parse, entries, CurrentScreen)
      && Parses(parse, entries, Target)
  }

  /** Whether all four entries read as numbers. */
  predicate AllParse(parse: NumberParser, entries: Entries) {
    ReadBefore(parse, entries, BeamCurrent) && Parses(parse, entries, BeamCurrent)
  }

  /** The conversion of one cleaned-up entry. */
  function ParseField(parse: NumberParser, entries: Entries, f: Field): (r: Result<real, InputError>)
    ensures r.Success? <==> parse(entries.Text(f)).Some?
    ensures r.Success? ==> Some(r.value) == parse(entries.Text(f))
    ensures r.Failure? ==> r.error == InvalidInput(f, entries.Text(f))
  {
    match parse(entries.Text(f))
    case Some(x) => Success(x)
    case None => Failure(InvalidInput(f, entries.Text(f)))
  }

  /** Converts the four cleaned-up entries in order, stopping at the first one
      that is not a number. */
  function ParseInputs(parse: NumberParser, entries: Entries): (r: Result<DoseInputs, InputError>)
    ensures r.Success? <==> AllParse(parse, entries)
    ensures r.Failure? ==> !Parses(parse, entries, r.error.field)
    ensures r.Failure? ==> ReadBefore(parse, entries, r.error.field)
    ensures r.Failure? ==> r.error.text == entries.Text(r.error.field)
    ensures r.Success? ==> && parse(entries.previous) == Some(r.value.previous)
                           && parse(entries.screen) == Some(r.value.screen)
                           && parse(entries.target) == Some(r.value.target)
                           && parse(entries.beam) == Some(r.value.beam)
  {
    match ParseField(parse, entries, Previous)
    case Failure(e) => Failure(e)
    case Success(previous) =>
      match ParseField(parse, entries, CurrentScreen)
      case Failure(e) => Failure(e)
      case Success(screen) =>
        match ParseField(parse, entries, Target)
        case Failure(e) => Failure(e)
        case Success(target) =>
          match ParseField(parse, entries, BeamCurrent)
          case Failure(e) => Failure(e)
          case Success(beam) => Success(DoseInputs(previous, screen, target, beam))
  }

  /** The calculation on converted numbers: an error naming the first entry
      that is not a number, or the projector's outcome for the four numbers. */
  function Evaluate(parse: NumberParser, entries: Entries, now: real): (r: Result<Projector.Outcome, InputError>)
    ensures r.Success? <==> AllParse(parse, entries)
    ensures r.Failure? ==> !Parses(parse, entries, r.error.field) && ReadBefore(parse, entries, r.error.field)
    ensures r.Failure? ==> r.error.text == entries.Text(r.error.field)
    ensures r.Success? ==>
              var d := ParseInputs(parse, entries).value;
              r.value == Projector.Decide(d.previous, d.screen, d.target, d.beam, now)
  {
    match ParseInputs(parse, entries)
    case Failure(e) => Failure(e)
    case Success(d) => Success(Projector.Decide(d.previous, d.screen, d.target, d.beam, now))
  }

  /** With four readable entries the calculation succeeds, reports the stop
      reading as target minus previous dose whatever the screen entry says,
      and reports an end of beam exactly when the total is short of the target
      and the beam current is positive. */
  lemma EvaluateReadable(parse: NumberParser, entries: Entries, now: real,
                         previous: real, screen: real, target: real, beam: real)
    requires parse(entries.previous) == Some(previous)
    requires parse(entries.screen) == Some(screen)
    requires parse(entries.target) == Some(target)
    requires parse(entries.beam) == Some(beam)
    ensures Evaluate(parse, entries, now)
         == Success(Projector.Decide(previous, screen, target, beam, now))
    ensures Evaluate(parse, entries, now).value.stop == target - previous
    ensures Evaluate(parse, entries, now).value.Eta? <==> previous + screen < target && beam > 0.0
  {
  }

  /** An unreadable previous-dose entry stops the calculation with an error
      naming that entry, whatever the other entries say. */
  lemma UnreadablePreviousNamed(parse: NumberParser, entries: Entries, now: real)
    requires parse(entries.previous).None?
    ensures Evaluate(parse, entries, now) == Failure(InvalidInput(Previous, entries.previous))
  {
  }

  /** The whole calculate handler, with the clock reading `now` (in hours)
      passed in: every entry is cleaned up, then converted and evaluated. */
  function OnCalculate(parse: NumberParser, raw: Entries, now: real): (r: Result<Projector.Outcome, InputError>)
    ensures r.Success? <==> AllParse(parse, Clean(raw))
    ensures r.Failure? ==> !Parses(parse, Clean(raw), r.error.field)
    ensures r.Failure? ==> ReadBefore(parse, Clean(raw), r.error.field)
    ensures r.Failure? ==> r.error.text == Clean(raw).Text(r.error.field)
    ensures r.Failure? ==> ',' !in r.error.text
    ensures r.Success? ==>
              var d := ParseInputs(parse, Clean(raw)).value;
              r.value == Projector.Decide(d.previous, d.screen, d.target, d.beam, now)
  {
    Evaluate(parse, Clean(raw), now)
  }

  /** With four raw entries that read as numbers once cleaned up, the handler
      returns the projector's outcome on those numbers. */
  lemma OnCalculateReadable(parse: NumberParser, raw: Entries, now: real,
                            previous: real, screen: real, target: real, beam: real)
    requires parse(InputText.Normalize(raw.previous)) == Some(previous)
    requires parse(InputText.Normalize(raw.screen)) == Some(screen)
    requires parse(InputText.Normalize(raw.target)) == Some(target)
    requires parse(InputText.Normalize(raw.beam)) == Some(beam)
    ensures OnCalculate(parse, raw, now) == Success(Projector.Decide(previous, screen, target, beam, now))
  {
    EvaluateReadable(parse, Clean(raw), now, previous, screen, target, beam);
  }
}
