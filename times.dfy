/**
 * The publish-date normaliser of scrape.go: a first-match search over a fixed,
 * ordered list of layouts. Go's time.Parse is kept uninterpreted: it is the
 * parameter `parse`, which maps a layout and a value to the instant the value
 * denotes under that layout, or to None when the value does not parse.
 */
module Times {
  import opened Wrappers

  /** An instant; no calendar arithmetic is modelled. */
  type Timestamp = int

  /** time.Parse(layout, value), with its error collapsed to None. */
  type TimeParser = (string, string) -> Option<Timestamp>

  // The layouts of scrape.go, with Go's values of the named time constants.
  const RFC3339: string := "2006-01-02T15:04:05Z07:00"
  const RFC1123: string := "Mon, 02 Jan 2006 15:04:05 MST"
  const RFC1123Z: string := "Mon, 02 Jan 2006 15:04:05 -0700"
  const DateTime: string := "2006-01-02 15:04:05"
  const DateOnly: string := "2006-01-02"
  const DayMonthYearMinute: string := "02 Jan 2006 15:04"

  /** The order in which parseUnknownTime tries the layouts. */
  const Layouts: seq<string> := [RFC3339, RFC1123, RFC1123Z, DateTime, DateOnly, DayMonthYearMinute]

  /** The error parseUnknownTime returns: no layout matched this value. */
  datatype TimeError = NoMatchingLayout(value: string)

  /** The index of the first layout under which `s` parses, if any. */
  function FirstLayout(parse: TimeParser, layouts: seq<string>, s: string): (r: Option<nat>)
    ensures r.Some? ==> r.value < |layouts| && parse(layouts[r.value], s).Some?
    ensures r.Some? ==> forall j :: 0 <= j < r.value ==> parse(layouts[j], s).None?
    ensures r.None? <==> forall j :: 0 <= j < |layouts| ==> parse(layouts[j], s).None?
    decreases |layouts|
  {
    if layouts == [] then None
    else if parse(layouts[0], s).Some? then Some(0)
    else match FirstLayout(parse, layouts[1..], s)
      case None => None
      case Some(i) => Some(i + 1)
  }

  /**
   * parseUnknownTime: the instant given by the first layout that parses `s`;
   * an error naming `s` exactly when no layout does.
   */
  function ParseUnknownTime(parse: TimeParser, s: string): (r: Result<Timestamp, TimeError>)
    ensures r.Err? <==> forall j :: 0 <= j < |Layouts| ==> parse(Layouts[j], s).None?
    ensures r.Err? ==> r.error == NoMatchingLayout(s)
    ensures r.Ok? ==> exists i :: 0 <= i < |Layouts| && parse(Layouts[i], s) == Some(r.value)
                                  && forall j :: 0 <= j < i ==> parse(Layouts[j], s).None?
  {
    match FirstLayout(parse, Layouts, s)
    case None => Err(NoMatchingLayout(s))
    case Some(i) => Ok(parse(Layouts[i], s).value)
  }

  /** The layouts are tried in exactly the order RFC 3339, RFC 1123, RFC 1123 with numeric zone, date-time, date, day-month-year-minute. */
  lemma {:induction false} LayoutOrder(parse: TimeParser, s: string)
    ensures ParseUnknownTime(parse, s) ==
      if parse(RFC3339, s).Some? then Ok(parse(RFC3339, s).value)
      else if parse(RFC1123, s).Some? then Ok(parse(RFC1123, s).value)
      else if parse(RFC1123Z, s).Some? then Ok(parse(RFC1123Z, s).value)
      else if parse(DateTime, s).Some? then Ok(parse(DateTime, s).value)
      else if parse(DateOnly, s).Some? then Ok(parse(DateOnly, s).value)
      else if parse(DayMonthYearMinute, s).Some? then Ok(parse(DayMonthYearMinute, s).value)
      else Err(NoMatchingLayout(s))
  {
    var r := ParseUnknownTime(parse, s);
    if r.Ok? {
      var i :| 0 <= i < |Layouts| && parse(Layouts[i], s) == Some(r.value)
               && forall j :: 0 <= j < i ==> parse(Layouts[j], s).None?;
      assert Layouts[0] == RFC3339 && Layouts[1] == RFC1123 && Layouts[2] == RFC1123Z;
      assert Layouts[3] == DateTime && Layouts[4] == DateOnly && Layouts[5] == DayMonthYearMinute;
    } else {
      assert parse(Layouts[0], s).None? && parse(Layouts[1], s).None? && parse(Layouts[2], s).None?;
      assert parse(Layouts[3], s).None? && parse(Layouts[4], s).None? && parse(Layouts[5], s).None?;
    }
  }

  /** A value that parses as RFC 3339 gets that reading, whatever the later layouts would say. */
  lemma EarliestLayoutWins(parse: TimeParser, s: string, t: Timestamp)
    requires parse(RFC3339, s) == Some(t)
    ensures ParseUnknownTime(parse, s) == Ok(t)
  {
    LayoutOrder(parse, s);
  }

  /** Two parsers that agree on the six layouts for `s` give the same result: nothing else is consulted. */
  lemma {:induction false} OnlyLayoutsConsulted(p: TimeParser, q: TimeParser, s: string)
    requires forall j :: 0 <= j < |Layouts| ==> p(Layouts[j], s) == q(Layouts[j], s)
    ensures ParseUnknownTime(p, s) == ParseUnknownTime(q, s)
  {
    LayoutOrder(p, s);
    LayoutOrder(q, s);
    assert Layouts[0] == RFC3339 && Layouts[1] == RFC1123 && Layouts[2] == RFC1123Z;
    assert Layouts[3] == DateTime && Layouts[4] == DateOnly && Layouts[5] == DayMonthYearMinute;
    assert p(Layouts[0], s) == q(Layouts[0], s) && p(Layouts[1], s) == q(Layouts[1], s);
    assert p(Layouts[2], s) == q(Layouts[2], s) && p(Layouts[3], s) == q(Layouts[3], s);
    assert p(Layouts[4], s) == q(Layouts[4], s) && p(Layouts[5], s) == q(Layouts[5], s);
  }
}
