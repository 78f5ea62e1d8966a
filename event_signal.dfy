/** The economic-event signal: it never fires on price bars, and on a
    calendar event it compares the actual release with the forecast and maps
    the surprise to a EUR/USD direction (+1 buy, -1 sell, 0 nothing). */
module EventSignals {
  import opened Wrappers
  import opened Text

  /** A calendar event as the signal reads it: its name, the released and
      forecast values when known, and the currency it concerns. */
  datatype CalendarEvent = CalendarEvent(
    name: string,
    actual: Option<real>,
    forecast: Option<real>,
    currency: Option<string>)

  /** The event name the signal listens to ("All" listens to every event)
      and the impact level it was configured with. */
  datatype EventSignal = EventSignal(targetEvent: string, impactFilter: string)

  const AllEvents: string := "All"
  const DefaultEvent: string := "Non-Farm Payrolls"
  const DefaultImpact: string := "High"
  const Usd: string := "USD"
  const Eur: string := "EUR"

  /** A signal built from its parameters, falling back to Non-Farm Payrolls
      and high impact for the ones not given. */
  function FromParameters(eventName: Option<string>, impact: Option<string>): (s: EventSignal)
    ensures eventName.Some? ==> s.targetEvent == eventName.value
    ensures eventName.None? ==> s.targetEvent == DefaultEvent
    ensures impact.Some? ==> s.impactFilter == impact.value
    ensures impact.None? ==> s.impactFilter == DefaultImpact
  {
    EventSignal(eventName.GetOr(DefaultEvent), impact.GetOr(DefaultImpact))
  }

  /** On a price bar the signal is always silent. */
  function Generate(s: EventSignal, close: real): (r: real)
    ensures r == 0.0
  {
    0.0
  }

  /** The event concerns the signal: it listens to all events or its target
      occurs in the event's name. */
  predicate Listens(s: EventSignal, e: CalendarEvent)
  {
    s.targetEvent == AllEvents || Contains(e.name, s.targetEvent)
  }

  /** The signal an event produces: a stronger than forecast dollar sells
      EUR/USD, a stronger than forecast euro buys it; events it does not
      listen to, events without both figures and other currencies give 0. */
  function OnEvent(s: EventSignal, e: CalendarEvent): (r: real)
    ensures r == -1.0 || r == 0.0 || r == 1.0
    ensures !Listens(s, e) ==> r == 0.0
    ensures e.actual.None? || e.forecast.None? ==> r == 0.0
    ensures r != 0.0 <==>
      && Listens(s, e)
      && e.actual.Some? && e.forecast.Some?
      && e.actual.value != e.forecast.value
      && (e.currency == Some(Usd) || e.currency == Some(Eur))
  {
    if s.targetEvent != AllEvents && !Contains(e.name, s.targetEvent) then 0.0
    else if e.actual.None? || e.forecast.None? then 0.0
    else
      var deviation := e.actual.value - e.forecast.value;
      if e.currency == Some(Usd) then
        (if deviation > 0.0 then -1.0 else if deviation < 0.0 then 1.0 else 0.0)
      else if e.currency == Some(Eur) then
        (if deviation > 0.0 then 1.0 else if deviation < 0.0 then -1.0 else 0.0)
      else 0.0
  }

  /** The sign of a real number. */
  function Sign(x: real): (r: real)
    ensures r == -1.0 || r == 0.0 || r == 1.0
    ensures (r > 0.0 <==> x > 0.0) && (r < 0.0 <==> x < 0.0)
  {
    if x > 0.0 then 1.0 else if x < 0.0 then -1.0 else 0.0
  }

  /** For a dollar release the signal is against the surprise, for a euro
      release with it. */
  lemma SurpriseDirection(s: EventSignal, e: CalendarEvent)
    requires Listens(s, e) && e.actual.Some? && e.forecast.Some?
    ensures e.currency == Some(Usd) ==> OnEvent(s, e) == -Sign(e.actual.value - e.forecast.value)
    ensures e.currency == Some(Eur) ==> OnEvent(s, e) == Sign(e.actual.value - e.forecast.value)
  {
    UsdIsNotEur();
  }

  lemma UsdIsNotEur()
    ensures Usd != Eur
  {
    assert Usd[0] != Eur[0];
  }

  /** The same surprise in dollars and in euros gives opposite signals. */
  lemma CurrenciesMirror(s: EventSignal, e: CalendarEvent)
    ensures OnEvent(s, e.(currency := Some(Usd))) == -OnEvent(s, e.(currency := Some(Eur)))
  {
    UsdIsNotEur();
  }

  /** Swapping the actual and forecast figures reverses the signal. */
  lemma SwappedFiguresReverse(s: EventSignal, e: CalendarEvent)
    ensures OnEvent(s, e.(actual := e.forecast, forecast := e.actual)) == -OnEvent(s, e)
  {
    UsdIsNotEur();
  }

  /** A signal listening to all events reacts to any event name. */
  lemma AllListensToEverything(e: CalendarEvent, impact: string)
    ensures Listens(EventSignal(AllEvents, impact), e)
  {
  }

  /** A target event that is the event's own name is always heard. */
  lemma OwnNameIsHeard(s: EventSignal, e: CalendarEvent)
    requires s.targetEvent == e.name
    ensures Listens(s, e)
  {
    assert e.name <= e.name;
  }
}
