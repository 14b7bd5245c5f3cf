/** process_program_info: completing a program stub from its detail page
    with its start and stop times, podcast link, description, director and
    language. */
module ProgramInfo {
  import opened Wrappers
  import opened Text
  import opened Calendar
  import opened Records

  /** The site every link is made absolute against. */
  const Origin := "http://www.rtve.es"

  /** The UTC offset written after every time, whatever the season. */
  const LocalTimeOffset := "+0100"

  const Language := "es"

  /** "Más información:" once its two non-ASCII letters are dropped: the
      opening of the footer block that is not a director credit. */
  const MoreInfoMarker := "Ms informacin:"

  /** One side of the hour text made into an HHMMSS field: stripped, its
      colons removed, and "00" seconds appended. */
  function ClockField(side: string): string {
    RemoveColons(Strip(Unicode, side)) + "00"
  }

  /** A clock field ends in "00" seconds, after exactly the characters of
      the stripped side other than ':'. */
  lemma ClockFieldShape(side: string)
    ensures var hms := ClockField(side);
      && |hms| >= 2 && hms[|hms| - 2..] == "00"
      && forall c :: c in hms[..|hms| - 2] <==> c in Strip(Unicode, side) && c != ':'
  {
    var digits := RemoveColons(Strip(Unicode, side));
    FilterMembers(Strip(Unicode, side), IsNotColon);
    assert (digits + "00")[..|digits|] == digits;
  }

  /** Two decimal digits, as in the hours and minutes of "08:55". */
  predicate TwoDigits(s: string) {
    |s| == 2 && AllDigits(s)
  }

  /** A clock reading "HH:MM" gives the field "HHMM00". */
  lemma ClockFieldOfReading(hh: string, mm: string)
    requires TwoDigits(hh) && TwoDigits(mm)
    ensures ClockField(hh + ":" + mm) == hh + mm + "00"
  {
    var reading := hh + ":" + mm;
    assert reading[0] == hh[0] && reading[|reading| - 1] == mm[1];
    StripUnpadded(Unicode, reading);
    assert reading == hh + [':'] + mm;
    FilterSkip(hh, ':', mm, IsNotColon);
    FilterKeepsAll(mm, IsNotColon);
  }

  /** The start and stop HHMMSS fields of an hour text such as "08:00-08:55",
      cut at its first '-' as `text.find('-')` gives it. */
  function HourFields(hour: string): (string, string) {
    var dash := Find(hour, '-');
    (ClockField(SliceTo(hour, dash)), ClockField(hour[dash + 1..]))
  }

  /** The first '-' of `hour` is at `i`. */
  lemma FirstDash(hour: string, i: int)
    requires 0 <= i < |hour| && hour[i] == '-' && '-' !in hour[..i]
    ensures Find(hour, '-') == i
  {
    assert hour[i] == '-';
  }

  /** The start field comes from the text before the first '-' and the stop
      field from the text after it. */
  lemma HourFieldsAtDash(hour: string, i: int)
    requires 0 <= i < |hour| && hour[i] == '-' && '-' !in hour[..i]
    ensures HourFields(hour) == (ClockField(hour[..i]), ClockField(hour[i + 1..]))
  {
    FirstDash(hour, i);
    assert SliceTo(hour, i) == hour[..i];
  }

  /** With no '-' at all, find gives -1, so the start field comes from the
      text without its last character and the stop field from the whole
      text. */
  lemma HourFieldsWithoutDash(hour: string)
    requires '-' !in hour
    ensures HourFields(hour) == (ClockField(if hour == [] then [] else hour[..|hour| - 1]), ClockField(hour))
  {
    assert Find(hour, '-') == -1;
    assert hour[-1 + 1..] == hour;
  }

  /** The date and time strings `YYYYMMDD` + HHMMSS + " +0100" for the
      HHMMSS fields `start` and `stop` of a program shown on `date`. The stop
      is dated the next day exactly when its field sorts before the start's;
      from the last day Python can represent there is no next day, and the
      run aborts. */
  function Times(start: string, stop: string, date: Date): Result<(string, string), ScrapeError>
    requires Valid(date) && Printable(date)
  {
    var startDate := FormatYmd(date);
    if LexLess(stop, start) then
      var next := NextDay(date);
      if next.year > MaxYear then Err(DateOverflow)
      else Ok((startDate + start + " " + LocalTimeOffset, FormatYmd(next) + stop + " " + LocalTimeOffset))
    else
      Ok((startDate + start + " " + LocalTimeOffset, startDate + stop + " " + LocalTimeOffset))
  }

  /** The outcome of Times: it fails only from the last representable day,
      when the stop needs the next one; otherwise the start is dated `date`
      and the stop `date` or the day after, by comparing the fields. */
  lemma TimesSpec(start: string, stop: string, date: Date)
    requires Valid(date) && Printable(date)
    ensures var r := Times(start, stop, date);
      && (r.Err? <==> LexLess(stop, start) && date == Date(MaxYear, 12, 31))
      && (r.Err? ==> r.error == DateOverflow)
      && (r.Ok? ==>
            && r.value.0 == FormatYmd(date) + start + " " + LocalTimeOffset
            && (!LexLess(stop, start) ==> r.value.1 == FormatYmd(date) + stop + " " + LocalTimeOffset)
            && (LexLess(stop, start) ==>
                  Printable(NextDay(date)) && r.value.1 == FormatYmd(NextDay(date)) + stop + " " + LocalTimeOffset))
  {
    NextDayYear(date);
  }

  /** The stop time carries the start's date unless its field sorts before
      the start's, and then the date one calendar day later. */
  lemma StopDateRule(start: string, stop: string, date: Date)
    requires Valid(date) && Printable(date) && Times(start, stop, date).Ok?
    ensures var (startTime, stopTime) := Times(start, stop, date).value;
      && startTime[..8] == FormatYmd(date)
      && (!LexLess(stop, start) ==> stopTime[..8] == startTime[..8])
      && (LexLess(stop, start) ==>
            var next := NextDay(date);
            Valid(next) && Printable(next) && stopTime[..8] == FormatYmd(next) && Ordinal(next) == Ordinal(date) + 1)
  {
    NextDayIsSuccessor(date);
  }

  /** When both fields are six digits, as for hour texts like "23:30-00:15",
      the stop instant never precedes the start instant, and equals it only
      when the two fields are equal. An instant is written here as the day's
      ordinal followed by the six HHMMSS digits. */
  lemma StopNotBeforeStart(start: string, stop: string, date: Date)
    requires Valid(date)
    requires |start| == 6 && |stop| == 6 && AllDigits(start) && AllDigits(stop)
    ensures var stopDay := if LexLess(stop, start) then NextDay(date) else date;
      && Ordinal(date) * 1000000 + DigitsValue(start) <= Ordinal(stopDay) * 1000000 + DigitsValue(stop)
      && (Ordinal(date) * 1000000 + DigitsValue(start) == Ordinal(stopDay) * 1000000 + DigitsValue(stop) <==> start == stop)
  {
    LexLessDigits(stop, start);
    LexLessDigits(start, stop);
    LexLessTrichotomy(start, stop);
    DigitsValueBound(start);
    DigitsValueBound(stop);
    assert Pow10(6) == 1000000;
    NextDayIsSuccessor(date);
  }

  /** An hour text "HH:MM-HH:MM" gives the fields "HHMM00" of its two
      readings. */
  lemma HourFieldsOfRange(h1: string, m1: string, h2: string, m2: string)
    requires TwoDigits(h1) && TwoDigits(m1) && TwoDigits(h2) && TwoDigits(m2)
    ensures HourFields(h1 + ":" + m1 + "-" + h2 + ":" + m2) == (h1 + m1 + "00", h2 + m2 + "00")
  {
    var left, right := h1 + ":" + m1, h2 + ":" + m2;
    var hour := left + "-" + right;
    assert hour == h1 + ":" + m1 + "-" + h2 + ":" + m2;
    assert hour[..5] == left && hour[5] == '-' && hour[6..] == right;
    assert forall k :: 0 <= k < 5 ==> left[k] != '-';
    HourFieldsAtDash(hour, 5);
    ClockFieldOfReading(h1, m1);
    ClockFieldOfReading(h2, m2);
  }

  /** For an hour text "HH:MM-HH:MM" the fields are "HHMM00" of its two
      readings, and the stop instant, on the day the stop is dated, is
      never before the start instant. */
  lemma RangeStopNotBeforeStart(h1: string, m1: string, h2: string, m2: string, date: Date)
    requires TwoDigits(h1) && TwoDigits(m1) && TwoDigits(h2) && TwoDigits(m2)
    requires Valid(date)
    ensures HourFields(h1 + ":" + m1 + "-" + h2 + ":" + m2) == (h1 + m1 + "00", h2 + m2 + "00")
    ensures var start, stop := h1 + m1 + "00", h2 + m2 + "00";
      var stopDay := if LexLess(stop, start) then NextDay(date) else date;
      && AllDigits(start) && AllDigits(stop)
      && Ordinal(date) * 1000000 + DigitsValue(start) <= Ordinal(stopDay) * 1000000 + DigitsValue(stop)
  {
    HourFieldsOfRange(h1, m1, h2, m2);
    SixDigits(h1, m1);
    SixDigits(h2, m2);
    StopNotBeforeStart(h1 + m1 + "00", h2 + m2 + "00", date);
  }

  /** "HH" + "MM" + "00" is a six-digit field. */
  lemma SixDigits(hh: string, mm: string)
    requires TwoDigits(hh) && TwoDigits(mm)
    ensures |hh + mm + "00"| == 6 && AllDigits(hh + mm + "00")
  {
    var f := hh + mm + "00";
    assert forall k :: 0 <= k < 6 ==> f[k] == (if k < 2 then hh[k] else if k < 4 then mm[k - 2] else '0');
  }

  /** The start and stop times of a program whose hour text is `hour`. */
  function TimesOf(hour: string, date: Date): Result<(string, string), ScrapeError>
    requires Valid(date) && Printable(date)
  {
    var f := HourFields(hour);
    Times(f.0, f.1, date)
  }

  /** A podcast href made absolute: kept when it already starts with the
      site origin, prefixed with it otherwise. */
  function AbsoluteUrl(href: string): (url: string)
    ensures StartsWith(url, Origin)
    ensures StartsWith(href, Origin) ==> url == href
    ensures !StartsWith(href, Origin) ==> url == Origin + href
  {
    if StartsWith(href, Origin) then href else Origin + href
  }

  /** Making a link absolute twice changes nothing more. */
  lemma AbsoluteUrlIdempotent(href: string)
    ensures AbsoluteUrl(AbsoluteUrl(href)) == AbsoluteUrl(href)
  {
  }

  /** The podcast key: set when the page has a link with an href, to that
      href made absolute. */
  function PodcastOf(page: DetailPage): (r: Option<string>)
    ensures r.Some? <==> page.firstLink.Some? && page.firstLink.value.href.Some?
    ensures r.Some? ==> StartsWith(r.value, Origin) && r.value == AbsoluteUrl(page.firstLink.value.href.value)
  {
    match page.firstLink
    case None => None
    case Some(link) => if link.href.Some? then Some(AbsoluteUrl(link.href.value)) else None
  }

  /** The desc key: the stripped `chapeaux` text, when there is one. */
  function DescriptionOf(page: DetailPage): (r: Option<string>)
    ensures r.Some? <==> page.chapeaux.Some?
    ensures r.Some? ==> Trimmed(Unicode, r.value, page.chapeaux.value)
  {
    if page.chapeaux.Some? then
      StripShape(Unicode, page.chapeaux.value);
      Some(Strip(Unicode, page.chapeaux.value))
    else None
  }

  /** The "more information" footer that is not a credit. */
  predicate IsMoreInfoBlock(d: Detalle) {
    StartsWith(AsciiOnly(d.text), MoreInfoMarker)
  }

  /** The credits_director key: the stripped `dd` text of the `detalle`
      block, set only when that block is not the "more information" footer
      and holds both a `dt` and a `dd`. */
  function DirectorOf(page: DetailPage): (r: Option<string>)
    ensures r.Some? <==>
      page.detalle.Some? && !IsMoreInfoBlock(page.detalle.value)
      && page.detalle.value.hasDt && page.detalle.value.dd.Some?
    ensures r.Some? ==> Trimmed(Unicode, r.value, page.detalle.value.dd.value)
  {
    match page.detalle
    case None => None
    case Some(d) =>
      if !IsMoreInfoBlock(d) && d.hasDt && d.dd.Some? then
        StripShape(Unicode, d.dd.value);
        Some(Strip(Unicode, d.dd.value))
      else None
  }

  /** A `detalle` block whose text opens with "Más información:" never gives
      a director, whatever follows and whatever `dt`/`dd` it holds. */
  lemma MoreInfoBlockIsNoCredit(page: DetailPage, rest: string)
    requires page.detalle.Some? && page.detalle.value.text == "Más información:" + rest
    ensures DirectorOf(page) == None
  {
    FooterHeadIsMarker();
    FilterAppend("Más información:", rest, IsAscii);
    assert AsciiOnly(page.detalle.value.text)[..|MoreInfoMarker|] == MoreInfoMarker;
  }

  /** Dropping the non-ASCII letters of "Más información:" gives the marker. */
  lemma FooterHeadIsMarker()
    ensures AsciiOnly("Más información:") == MoreInfoMarker
  {
    FooterHeadPieces();
    AsciiOnlySkip("M", 'á', "s informaci" + ['ó'] + "n:");
    AsciiOnlySkip("s informaci", 'ó', "n:");
    AsciiOnlyOfAscii("n:");
    MarkerPieces();
  }

  lemma FooterHeadPieces()
    ensures "Más información:" == "M" + ['á'] + ("s informaci" + ['ó'] + "n:")
  {
  }

  lemma MarkerPieces()
    ensures "M" + ("s informaci" + "n:") == MoreInfoMarker
  {
  }

  /** The keys of `stub` are all still present in `r`, and title, url and
      channel are untouched: process_program_info only adds or sets keys. */
  predicate KeepsStub(stub: ProgramRecord, r: ProgramRecord) {
    && r.title == stub.title && r.url == stub.url && r.channelId == stub.channelId
    && (stub.startTime.Some? ==> r.startTime.Some?)
    && (stub.stopTime.Some? ==> r.stopTime.Some?)
    && (stub.podcast.Some? ==> r.podcast.Some?)
    && (stub.desc.Some? ==> r.desc.Some?)
    && (stub.creditsDirector.Some? ==> r.creditsDirector.Some?)
    && (stub.language.Some? ==> r.language.Some?)
  }

  /** The program dictionary after process_program_info, or the error that
      aborts it: a page without an `hour` element, or no next day. */
  function Enrich(stub: ProgramRecord, page: DetailPage, date: Date): Result<ProgramRecord, ScrapeError>
    requires Valid(date) && Printable(date)
  {
    if page.hour.None? then Err(MissingHour)
    else
      match TimesOf(page.hour.value, date)
      case Err(e) => Err(e)
      case Ok(times) => Ok(Completed(stub, times, page))
  }

  /** Enrichment fails only for a page without an hour or a stop day past
      the last date; otherwise it keeps the stub, sets both times and the
      language, and sets the podcast, the description and the director
      exactly when the page provides them. */
  lemma EnrichSpec(stub: ProgramRecord, page: DetailPage, date: Date)
    requires Valid(date) && Printable(date)
    ensures var r := Enrich(stub, page, date);
      && (r.Err? <==> page.hour.None? || TimesOf(page.hour.value, date).Err?)
      && (r.Err? ==> r.error == if page.hour.None? then MissingHour else DateOverflow)
      && (r.Ok? ==>
            && KeepsStub(stub, r.value) && Timed(r.value)
            && (r.value.startTime.value, r.value.stopTime.value) == TimesOf(page.hour.value, date).value
            && r.value.language == Some(Language)
            && r.value.podcast == Override(PodcastOf(page), stub.podcast)
            && r.value.desc == Override(DescriptionOf(page), stub.desc)
            && r.value.creditsDirector == Override(DirectorOf(page), stub.creditsDirector))
  {
    if page.hour.Some? {
      var hour := page.hour.value;
      var (start, stop) := HourFields(hour);
      TimesSpec(start, stop, date);
    }
  }

  /** A key set from the page wins over the value already present. */
  function Override(found: Option<string>, current: Option<string>): Option<string> {
    if found.Some? then found else current
  }

  /** `stub` with its times set and the keys the detail page provides. */
  function Completed(stub: ProgramRecord, times: (string, string), page: DetailPage): ProgramRecord {
    stub.(startTime := Some(times.0), stopTime := Some(times.1),
          podcast := Override(PodcastOf(page), stub.podcast),
          desc := Override(DescriptionOf(page), stub.desc),
          creditsDirector := Override(DirectorOf(page), stub.creditsDirector),
          language := Some(Language))
  }

  /** The podcast block of process_program_info. */
  method SetPodcast(page: DetailPage, program: Program)
    modifies program
    ensures program.Record() == old(program.Record()).(podcast := Override(PodcastOf(page), old(program.podcast)))
  {
    if page.firstLink.Some? {
      var podcast := page.firstLink.value.href;
      if podcast.Some? {
        program.podcast := Some(AbsoluteUrl(podcast.value));
      }
    }
  }

  /** The desc block of process_program_info. */
  method SetDescription(page: DetailPage, program: Program)
    modifies program
    ensures program.Record() == old(program.Record()).(desc := Override(DescriptionOf(page), old(program.desc)))
  {
    if page.chapeaux.Some? {
      program.desc := Some(Strip(Unicode, page.chapeaux.value));
    }
  }

  /** The credits_director block of process_program_info. */
  method SetDirector(page: DetailPage, program: Program)
    modifies program
    ensures program.Record() == old(program.Record()).(creditsDirector := Override(DirectorOf(page), old(program.creditsDirector)))
  {
    if page.detalle.Some? {
      var detalle := page.detalle.value;
      if !StartsWith(AsciiOnly(detalle.text), MoreInfoMarker) {
        if detalle.hasDt && detalle.dd.Some? {
          program.creditsDirector := Some(Strip(Unicode, detalle.dd.value));
        }
      }
    }
  }

  /** process_program_info: fills `program` in place from its detail page
      and returns it. On an error nothing has been written yet. */
  method ProcessProgramInfo(page: DetailPage, program: Program, date: Date) returns (r: Result<Program, ScrapeError>)
    requires Valid(date) && Printable(date)
    modifies program
    ensures var e := Enrich(old(program.Record()), page, date);
      && (r.Ok? <==> e.Ok?)
      && (r.Ok? ==> r.value == program && program.Record() == e.value)
      && (r.Err? ==> r.error == e.error && unchanged(program))
  {
    if page.hour.None? {
      return Err(MissingHour);
    }
    var (start, stop) := HourFields(page.hour.value);
    var times := Times(start, stop, date);
    if times.Err? {
      return Err(times.error);
    }
    program.startTime := Some(times.value.0);
    program.stopTime := Some(times.value.1);
    SetPodcast(page, program);
    SetDescription(page, program);
    SetDirector(page, program);
    program.language := Some(Language);
    return Ok(program);
  }
}
