/** The records the scraper passes around, and the parts of the fetched HTML
    it reads, given as values (the HTTP fetch and the HTML parser are not
    modelled: their results are inputs). */
module Records {
  import opened Wrappers

  /** Why a run aborts. The script raises and stops on the first of these. */
  datatype ScrapeError =
    | MalformedChannelBlock  // a channel `ul` lacks its second child or its second class token
    | MissingHref            // a schedule anchor without `href` ('...' + None)
    | NoChannelForBlock      // more channel blocks in the page than channels listed
    | MissingHour            // a detail page without an element of class `hour`
    | DateOverflow           // the stop day would fall after 9999-12-31
    | NotXmlCompatible       // lxml refuses a text or attribute value it is given

  /** The first `a` element of a detail page; its `href` attribute may be
      missing. */
  datatype Link = Link(href: Option<string>)

  /** The element of class `detalle` on a detail page: its whole text,
      whether it holds a `dt`, and the text of its first `dd` if any. */
  datatype Detalle = Detalle(text: string, hasDt: bool, dd: Option<string>)

  /** What process_program_info reads from a detail page: the text of the
      element of class `hour`, the first link, the text of the element of
      class `chapeaux`, and the `detalle` block, each when present. */
  datatype DetailPage = DetailPage(
    hour: Option<string>,
    firstLink: Option<Link>,
    chapeaux: Option<string>,
    detalle: Option<Detalle>)

  /** One program link in a channel block of a schedule page: its text, its
      `href`, and the detail page it leads to (what fetching it returns). */
  datatype ScheduleAnchor = ScheduleAnchor(text: string, href: Option<string>, detail: DetailPage)

  /** One `ul rel="tve"` element of a schedule page: the text of its second
      child (none when it has fewer than two), its class tokens (none when
      it has no class attribute), and its program links in document order. */
  datatype ChannelBlock = ChannelBlock(
    secondChildText: Option<string>,
    classes: Option<seq<string>>,
    anchors: seq<ScheduleAnchor>)

  datatype Channel = Channel(displayName: string, channelId: string)

  /** The value of a program dictionary: the three keys every stub has and
      the optional keys process_program_info may add. */
  datatype ProgramRecord = ProgramRecord(
    title: string,
    url: string,
    channelId: string,
    startTime: Option<string>,
    stopTime: Option<string>,
    podcast: Option<string>,
    desc: Option<string>,
    creditsDirector: Option<string>,
    language: Option<string>)

  /** A stub as get_rne_program_list builds it: title, url and channel only. */
  function Stub(title: string, url: string, channelId: string): ProgramRecord {
    ProgramRecord(title, url, channelId, None, None, None, None, None, None)
  }

  /** A program that can be serialized: it has both times. */
  predicate Timed(p: ProgramRecord) {
    p.startTime.Some? && p.stopTime.Some?
  }

  /** A program dictionary, which process_program_info fills in place. */
  class Program {
    var title: string
    var url: string
    var channelId: string
    var startTime: Option<string>
    var stopTime: Option<string>
    var podcast: Option<string>
    var desc: Option<string>
    var creditsDirector: Option<string>
    var language: Option<string>

    /** The dictionary's current keys and values. */
    function Record(): ProgramRecord
      reads this
    {
      ProgramRecord(title, url, channelId, startTime, stopTime, podcast, desc, creditsDirector, language)
    }

    constructor (title: string, url: string, channelId: string)
      ensures Record() == Stub(title, url, channelId)
    {
      this.title, this.url, this.channelId := title, url, channelId;
      startTime, stopTime, podcast, desc, creditsDirector, language := None, None, None, None, None, None;
    }
  }

  /** The values of a list of program dictionaries. */
  function RecordsOf(ps: seq<Program>): (rs: seq<ProgramRecord>)
    reads ps
    ensures |rs| == |ps| && forall i :: 0 <= i < |ps| ==> rs[i] == ps[i].Record()
  {
    if ps == [] then [] else RecordsOf(ps[..|ps| - 1]) + [ps[|ps| - 1].Record()]
  }
}
