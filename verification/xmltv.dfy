/** generate_xmltv: the XMLTV document of a schedule, as the element tree
    lxml builds before it is serialized. */
module Xmltv {
  import opened Wrappers
  import opened Text
  import opened Records

  /** An attribute of an element, in the order it was set. */
  datatype Attr = Attr(name: string, value: string)

  /** The element names an XMLTV document of this generator uses. */
  datatype Tag =
    | Tv | ChannelTag | DisplayName | Programme | Title | SubTitle | Desc
    | Credits | Director | Lang | Video | Audio | Present | Stereo

  /** The name each tag is written with. */
  function Name(t: Tag): string {
    match t
    case Tv => "tv"
    case ChannelTag => "channel"
    case DisplayName => "display-name"
    case Programme => "programme"
    case Title => "title"
    case SubTitle => "subtitle"
    case Desc => "desc"
    case Credits => "credits"
    case Director => "director"
    case Lang => "lang"
    case Video => "video"
    case Audio => "audio"
    case Present => "present"
    case Stereo => "stereo"
  }

  /** Different tags are written with different names, so counting
      elements by tag counts them by the name the document shows. */
  lemma NameInjective(a: Tag, b: Tag)
    requires Name(a) == Name(b)
    ensures a == b
  {
  }

  /** An element: its tag, its attributes in order, its text if set, and its
      children in order. */
  datatype Element = Element(tag: Tag, attrs: seq<Attr>, text: Option<string>, children: seq<Element>)

  /** The `add_info` part of a schedule. */
  datatype AddInfo = AddInfo(
    generatorInfoName: string,
    generatorInfoUrl: string,
    sourceInfoUrl: string,
    sourceInfoName: string,
    sourceDataUrl: string)

  /** A schedule as the script assembles it before writing it out. */
  datatype Schedule = Schedule(addInfo: AddInfo, channels: seq<Channel>, programs: seq<ProgramRecord>)

  /** What a title is cut at. */
  const TitleSeparator := ". "

  /** The `lang="es"` attribute of titles, subtitles and descriptions. */
  const SpanishAttr := Attr("lang", "es")

  /** An element holding only text. */
  function TextElement(tag: Tag, attrs: seq<Attr>, text: string): Element {
    Element(tag, attrs, Some(text), [])
  }

  /** The elements of `es` whose tag is `tag`, in order. */
  function Tagged(es: seq<Element>, tag: Tag): seq<Element> {
    if es == [] then []
    else (if es[0].tag == tag then [es[0]] else []) + Tagged(es[1..], tag)
  }

  lemma {:induction false} TaggedAppend(a: seq<Element>, b: seq<Element>, tag: Tag)
    ensures Tagged(a + b, tag) == Tagged(a, tag) + Tagged(b, tag)
    decreases |a|
  {
    if a == [] {
      assert a + b == b;
    } else {
      var head := if a[0].tag == tag then [a[0]] else [];
      assert (a + b)[0] == a[0];
      assert (a + b)[1..] == a[1..] + b;
      assert Tagged(a + b, tag) == head + Tagged(a[1..] + b, tag);
      TaggedAppend(a[1..], b, tag);
      assert head + (Tagged(a[1..], tag) + Tagged(b, tag)) == (head + Tagged(a[1..], tag)) + Tagged(b, tag);
    }
  }

  /** The attributes of the `tv` root, in the order they are set. */
  function RootAttrs(info: AddInfo): seq<Attr> {
    [ Attr("generator-info-name", info.generatorInfoName),
      Attr("generator-info-url", info.generatorInfoUrl),
      Attr("source-info-url", info.sourceInfoUrl),
      Attr("source-info-name", info.sourceInfoName),
      Attr("source-data-url", info.sourceDataUrl) ]
  }

  /** A `channel` element: its id and its display name. */
  function ChannelElement(c: Channel): Element {
    Element(ChannelTag, [Attr("id", c.channelId)], None, [TextElement(DisplayName, [], c.displayName)])
  }

  /** The `title` element, and a `subtitle` element when the title has a
      second ". "-separated piece; both are stripped of ASCII whitespace. */
  function TitleElements(title: string): seq<Element> {
    var pieces := Split(title, TitleSeparator);
    [TextElement(Title, [SpanishAttr], Strip(Bytes, pieces[0]))]
    + if |pieces| > 1 then [TextElement(SubTitle, [SpanishAttr], Strip(Bytes, pieces[1]))] else []
  }

  /** The `desc`, `credits` and `lang` elements, each present exactly when
      the program has the value. */
  function DescPart(p: ProgramRecord): seq<Element> {
    if p.desc.Some? then [TextElement(Desc, [SpanishAttr], p.desc.value)] else []
  }

  function CreditsPart(p: ProgramRecord): seq<Element> {
    if p.creditsDirector.Some? then [Element(Credits, [], None, [TextElement(Director, [], p.creditsDirector.value)])] else []
  }

  function LangPart(p: ProgramRecord): seq<Element> {
    if p.language.Some? then [TextElement(Lang, [], p.language.value)] else []
  }

  /** The fixed `video` and `audio` elements: no video, stereo audio. */
  function MediaElements(): seq<Element> {
    [ Element(Video, [], None, [TextElement(Present, [], "no")]),
      Element(Audio, [], None, [TextElement(Present, [], "yes"), TextElement(Stereo, [], "stereo")]) ]
  }

  /** The `programme` element of a program. */
  function ProgrammeElement(p: ProgramRecord): Element
    requires Timed(p)
  {
    Element(Programme,
      [Attr("channel", p.channelId), Attr("start", p.startTime.value), Attr("stop", p.stopTime.value)],
      None,
      TitleElements(p.title) + DescPart(p) + CreditsPart(p) + LangPart(p) + MediaElements())
  }

  /** The title element holds the text before the first ". ", stripped;
      a subtitle element exists exactly when the title contains ". ", and
      holds only the piece between the first ". " and the next one (or the
      end), stripped. */
  lemma TitleSegments(title: string)
    ensures var ts := TitleElements(title);
      var head := Split(title, TitleSeparator)[0];
      && |head| <= |title| && head == title[..|head|] && !Contains(head, TitleSeparator)
      && ts[0] == TextElement(Title, [SpanishAttr], Strip(Bytes, head))
      && (|ts| == 2 <==> Contains(title, TitleSeparator))
      && (!Contains(title, TitleSeparator) ==> ts == [TextElement(Title, [SpanishAttr], Strip(Bytes, title))])
      && (Contains(title, TitleSeparator) ==>
            && OccursAt(title, TitleSeparator, |head|)
            && var rest := title[|head| + |TitleSeparator|..];
               var second := Split(rest, TitleSeparator)[0];
               && second == rest[..|second|] && !Contains(second, TitleSeparator)
               && (Contains(rest, TitleSeparator) ==> OccursAt(rest, TitleSeparator, |second|))
               && ts[1] == TextElement(SubTitle, [SpanishAttr], Strip(Bytes, second)))
  {
    SplitPieces(title, TitleSeparator);
    if !Contains(title, TitleSeparator) {
      SplitWithout(title, TitleSeparator);
    } else {
      var pieces := Split(title, TitleSeparator);
      SplitRest(title, TitleSeparator);
      var rest := title[|pieces[0]| + |TitleSeparator|..];
      SplitPieces(rest, TitleSeparator);
      assert pieces[1] == pieces[1..][0];
    }
  }

  /** There is a subtitle exactly when the title contains ". ". */
  lemma TitleCount(title: string)
    ensures |TitleElements(title)| == if Contains(title, TitleSeparator) then 2 else 1
  {
    SplitPieces(title, TitleSeparator);
  }

  /** A programme element copies the channel and both times as its
      attributes, has its title first and the video and audio elements
      last. */
  lemma ProgrammeShape(p: ProgramRecord)
    requires Timed(p)
    ensures var e := ProgrammeElement(p);
      && e.tag == Programme && e.text == None
      && e.attrs == [Attr("channel", p.channelId), Attr("start", p.startTime.value), Attr("stop", p.stopTime.value)]
      && e.children[0] == TitleElements(p.title)[0] && e.children[0].tag == Title
      && e.children[|e.children| - 2..] == MediaElements()
  {
    var e := ProgrammeElement(p);
    assert e.children[|e.children| - 2..] == MediaElements();
  }

  /** A programme element has one title, and a subtitle exactly when the
      title contains ". ". */
  lemma ProgrammeTitles(p: ProgramRecord)
    requires Timed(p)
    ensures var cs := ProgrammeElement(p).children;
      && |Tagged(cs, Title)| == 1
      && |Tagged(cs, SubTitle)| == (if Contains(p.title, TitleSeparator) then 1 else 0)
  {
    TitleCount(p.title);
    ChildrenTagged(p, Title);
    ChildrenTagged(p, SubTitle);
  }

  /** A programme element has a desc, a credits element with the director,
      and a lang element exactly when the program has them, holding their
      values. */
  lemma ProgrammeOptionals(p: ProgramRecord)
    requires Timed(p)
    ensures var cs := ProgrammeElement(p).children;
      && Tagged(cs, Desc) == (if p.desc.Some? then [TextElement(Desc, [SpanishAttr], p.desc.value)] else [])
      && Tagged(cs, Credits)
           == (if p.creditsDirector.Some? then [Element(Credits, [], None, [TextElement(Director, [], p.creditsDirector.value)])] else [])
      && Tagged(cs, Lang) == (if p.language.Some? then [TextElement(Lang, [], p.language.value)] else [])
  {
    ChildrenTagged(p, Desc);
    ChildrenTagged(p, Credits);
    ChildrenTagged(p, Lang);
  }

  /** The children with a given tag, piece by piece. */
  lemma ChildrenTagged(p: ProgramRecord, tag: Tag)
    requires Timed(p) && tag != Video && tag != Audio
    ensures var ts := TitleElements(p.title);
      Tagged(ProgrammeElement(p).children, tag)
        == (if tag == Title then [ts[0]] else if tag == SubTitle then ts[1..] else [])
           + (if tag == Desc then DescPart(p) else [])
           + (if tag == Credits then CreditsPart(p) else [])
           + (if tag == Lang then LangPart(p) else [])
  {
    var ts, ms := TitleElements(p.title), MediaElements();
    TaggedConcat(ts, DescPart(p), CreditsPart(p), LangPart(p), ms, tag);
    TitleTagged(p.title, tag);
    MediaTagged(tag);
    PartsTagged(p, tag);
  }

  /** The fixed media elements hold no other tag. */
  lemma MediaTagged(tag: Tag)
    requires tag != Video && tag != Audio
    ensures Tagged(MediaElements(), tag) == []
  {
    NoneTagged(MediaElements(), tag);
  }

  /** Filtering five pieces one after the other. */
  lemma TaggedConcat(a: seq<Element>, b: seq<Element>, c: seq<Element>, d: seq<Element>, e: seq<Element>, tag: Tag)
    ensures Tagged(a + b + c + d + e, tag) == Tagged(a, tag) + Tagged(b, tag) + Tagged(c, tag) + Tagged(d, tag) + Tagged(e, tag)
  {
    TaggedAppend(a + b + c + d, e, tag);
    TaggedAppend(a + b + c, d, tag);
    TaggedAppend(a + b, c, tag);
    TaggedAppend(a, b, tag);
  }

  /** The title pieces by tag. */
  lemma TitleTagged(title: string, tag: Tag)
    ensures var ts := TitleElements(title);
      && 1 <= |ts| <= 2 && ts[0].tag == Title && (|ts| == 2 ==> ts[1].tag == SubTitle)
      && Tagged(ts, tag) == (if tag == Title then [ts[0]] else if tag == SubTitle then ts[1..] else [])
  {
    var ts := TitleElements(title);
    TaggedSingle(ts[0], tag);
    if |ts| == 2 {
      assert ts == [ts[0]] + [ts[1]];
      TaggedAppend([ts[0]], [ts[1]], tag);
      TaggedSingle(ts[1], tag);
    } else {
      assert ts == [ts[0]];
    }
  }

  /** Each optional piece holds only its own tag. */
  lemma PartsTagged(p: ProgramRecord, tag: Tag)
    ensures Tagged(DescPart(p), tag) == if tag == Desc then DescPart(p) else []
    ensures Tagged(CreditsPart(p), tag) == if tag == Credits then CreditsPart(p) else []
    ensures Tagged(LangPart(p), tag) == if tag == Lang then LangPart(p) else []
  {
    if p.desc.Some? { TaggedSingle(DescPart(p)[0], tag); }
    if p.creditsDirector.Some? { TaggedSingle(CreditsPart(p)[0], tag); }
    if p.language.Some? { TaggedSingle(LangPart(p)[0], tag); }
  }

  lemma TaggedSingle(e: Element, tag: Tag)
    ensures Tagged([e], tag) == if e.tag == tag then [e] else []
  {
    assert [e][1..] == [];
  }

  /** A character lxml accepts in a text or an attribute value: no ASCII
      control character other than tab, newline and carriage return, neither
      of the noncharacters U+FFFE and U+FFFF, and, in a Python 2 byte
      string, nothing outside ASCII. */
  predicate XmlChar(kind: StringKind, c: char) {
    && (c == '\t' || c == '\n' || c == '\r' || ' ' <= c)
    && c != '\U{FFFE}' && c != '\U{FFFF}'
    && (kind == Unicode || c < '\U{80}')
  }

  /** A string lxml accepts; setting any other raises ValueError. */
  predicate XmlCompatible(kind: StringKind, s: string) {
    forall i :: 0 <= i < |s| ==> XmlChar(kind, s[i])
  }

  /** The add_info values can be set on the root: four are unicode
      strings, the data url is a byte string. */
  predicate RootWritable(info: AddInfo) {
    && XmlCompatible(Unicode, info.generatorInfoName)
    && XmlCompatible(Unicode, info.generatorInfoUrl)
    && XmlCompatible(Unicode, info.sourceInfoUrl)
    && XmlCompatible(Unicode, info.sourceInfoName)
    && XmlCompatible(Bytes, info.sourceDataUrl)
  }

  /** A channel can be written: its id is a byte string, its display name
      a decoded unicode string. */
  predicate ChannelWritable(c: Channel) {
    XmlCompatible(Bytes, c.channelId) && XmlCompatible(Unicode, c.displayName)
  }

  /** The title pieces that are kept can be set as text. */
  predicate TitleWritable(title: string) {
    var pieces := Split(title, TitleSeparator);
    && XmlCompatible(Unicode, Strip(Bytes, pieces[0]))
    && (|pieces| > 1 ==> XmlCompatible(Unicode, Strip(Bytes, pieces[1])))
  }

  /** The description and director (unicode strings) and the language (a
      byte string) can be set as text, each when present. */
  predicate OptionalsWritable(p: ProgramRecord) {
    && (p.desc.Some? ==> XmlCompatible(Unicode, p.desc.value))
    && (p.creditsDirector.Some? ==> XmlCompatible(Unicode, p.creditsDirector.value))
    && (p.language.Some? ==> XmlCompatible(Bytes, p.language.value))
  }

  /** A program can be written: its channel id is a byte string, its times
      unicode strings, and its title and optional values can be set. */
  predicate ProgrammeWritable(p: ProgramRecord) {
    && XmlCompatible(Bytes, p.channelId)
    && (p.startTime.Some? ==> XmlCompatible(Unicode, p.startTime.value))
    && (p.stopTime.Some? ==> XmlCompatible(Unicode, p.stopTime.value))
    && TitleWritable(p.title)
    && OptionalsWritable(p)
  }

  /** A description holding a control character other than tab, newline
      and carriage return, or either noncharacter U+FFFE and U+FFFF, cannot
      be written: lxml raises at line 144. */
  lemma UnwritableDescription(p: ProgramRecord, before: string, c: char, after: string)
    requires (c < ' ' && c != '\t' && c != '\n' && c != '\r') || c == '\U{FFFE}' || c == '\U{FFFF}'
    requires p.desc == Some(before + [c] + after)
    ensures !ProgrammeWritable(p)
  {
    assert p.desc.value[|before|] == c;
  }

  /** A whole schedule can be written. */
  predicate Writable(schedule: Schedule) {
    && RootWritable(schedule.addInfo)
    && (forall i :: 0 <= i < |schedule.channels| ==> ChannelWritable(schedule.channels[i]))
    && (forall k :: 0 <= k < |schedule.programs| ==> ProgrammeWritable(schedule.programs[k]))
  }

  /** The body of generate_xmltv's programme loop: the element built child
      by child, or the error lxml raises at the first value it refuses. */
  method BuildProgramme(p: ProgramRecord) returns (r: Result<Element, ScrapeError>)
    requires Timed(p)
    ensures r.Ok? <==> ProgrammeWritable(p)
    ensures r.Ok? ==> r.value == ProgrammeElement(p)
    ensures r.Err? ==> r.error == NotXmlCompatible
  {
    if !XmlCompatible(Bytes, p.channelId) || !XmlCompatible(Unicode, p.startTime.value)
      || !XmlCompatible(Unicode, p.stopTime.value) {
      return Err(NotXmlCompatible);
    }
    var attrs := [Attr("channel", p.channelId)];
    attrs := attrs + [Attr("start", p.startTime.value)];
    attrs := attrs + [Attr("stop", p.stopTime.value)];
    var titles := BuildTitles(p.title);
    if titles.Err? {
      return Err(titles.error);
    }
    var optionals := BuildOptionals(p);
    if optionals.Err? {
      return Err(optionals.error);
    }
    var children := titles.value + optionals.value;
    var video := Element(Video, [], None, [TextElement(Present, [], "no")]);
    var audio := Element(Audio, [], None, [TextElement(Present, [], "yes"), TextElement(Stereo, [], "stereo")]);
    children := children + [video];
    children := children + [audio];
    assert children == TitleElements(p.title) + DescPart(p) + CreditsPart(p) + LangPart(p) + MediaElements();
    return Ok(Element(Programme, attrs, None, children));
  }

  /** The title of a programme, and its subtitle when the title has a
      second ". "-separated piece. */
  method BuildTitles(title: string) returns (r: Result<seq<Element>, ScrapeError>)
    ensures r.Ok? <==> TitleWritable(title)
    ensures r.Ok? ==> r.value == TitleElements(title)
    ensures r.Err? ==> r.error == NotXmlCompatible
  {
    var titleText := Split(title, TitleSeparator);
    var head := Strip(Bytes, titleText[0]);
    if !XmlCompatible(Unicode, head) {
      return Err(NotXmlCompatible);
    }
    var children := [TextElement(Title, [SpanishAttr], head)];
    if |titleText| > 1 {
      var subtitle := Strip(Bytes, titleText[1]);
      if !XmlCompatible(Unicode, subtitle) {
        return Err(NotXmlCompatible);
      }
      children := children + [TextElement(SubTitle, [SpanishAttr], subtitle)];
    }
    return Ok(children);
  }

  /** The desc, credits and lang children of a programme, each when the
      program has the value. */
  method BuildOptionals(p: ProgramRecord) returns (r: Result<seq<Element>, ScrapeError>)
    ensures r.Ok? <==> OptionalsWritable(p)
    ensures r.Ok? ==> r.value == DescPart(p) + CreditsPart(p) + LangPart(p)
    ensures r.Err? ==> r.error == NotXmlCompatible
  {
    var children := [];
    if p.desc.Some? {
      if !XmlCompatible(Unicode, p.desc.value) {
        return Err(NotXmlCompatible);
      }
      children := children + [TextElement(Desc, [SpanishAttr], p.desc.value)];
    }
    assert children == DescPart(p);
    if p.creditsDirector.Some? {
      if !XmlCompatible(Unicode, p.creditsDirector.value) {
        return Err(NotXmlCompatible);
      }
      var director := TextElement(Director, [], p.creditsDirector.value);
      children := children + [Element(Credits, [], None, [director])];
    }
    assert children == DescPart(p) + CreditsPart(p);
    if p.language.Some? {
      if !XmlCompatible(Bytes, p.language.value) {
        return Err(NotXmlCompatible);
      }
      children := children + [TextElement(Lang, [], p.language.value)];
    }
    return Ok(children);
  }

  /** generate_xmltv's channel loop: one `channel` element per channel, or
      the error lxml raises at the first value it refuses. */
  method ChannelLoop(channels: seq<Channel>) returns (r: Result<seq<Element>, ScrapeError>)
    ensures r.Ok? <==> forall i :: 0 <= i < |channels| ==> ChannelWritable(channels[i])
    ensures r.Ok? ==> |r.value| == |channels|
    ensures r.Ok? ==> forall i :: 0 <= i < |channels| ==> r.value[i] == ChannelElement(channels[i])
    ensures r.Err? ==> r.error == NotXmlCompatible
  {
    var children := [];
    var i := 0;
    while i < |channels|
      invariant 0 <= i <= |channels|
      invariant |children| == i
      invariant forall j :: 0 <= j < i ==> ChannelWritable(channels[j])
      invariant forall j :: 0 <= j < i ==> children[j] == ChannelElement(channels[j])
    {
      var chan := channels[i];
      if !XmlCompatible(Bytes, chan.channelId) || !XmlCompatible(Unicode, chan.displayName) {
        return Err(NotXmlCompatible);
      }
      var displayName := TextElement(DisplayName, [], chan.displayName);
      children := children + [Element(ChannelTag, [Attr("id", chan.channelId)], None, [displayName])];
      i := i + 1;
    }
    return Ok(children);
  }

  /** generate_xmltv's programme loop: one `programme` element per program,
      appended after `children`, or the first error. */
  method ProgrammeLoop(children: seq<Element>, programs: seq<ProgramRecord>) returns (r: Result<seq<Element>, ScrapeError>)
    requires forall k :: 0 <= k < |programs| ==> Timed(programs[k])
    ensures r.Ok? <==> forall k :: 0 <= k < |programs| ==> ProgrammeWritable(programs[k])
    ensures r.Ok? ==> |r.value| == |children| + |programs| && r.value[..|children|] == children
    ensures r.Ok? ==> forall k :: 0 <= k < |programs| ==> r.value[|children| + k] == ProgrammeElement(programs[k])
    ensures r.Err? ==> r.error == NotXmlCompatible
  {
    var all := children;
    var k := 0;
    while k < |programs|
      invariant 0 <= k <= |programs|
      invariant |all| == |children| + k
      invariant all[..|children|] == children
      invariant forall j :: 0 <= j < k ==> ProgrammeWritable(programs[j])
      invariant forall j :: 0 <= j < k ==> all[|children| + j] == ProgrammeElement(programs[j])
    {
      var programme := BuildProgramme(programs[k]);
      if programme.Err? {
        return Err(programme.error);
      }
      all := all + [programme.value];
      k := k + 1;
    }
    return Ok(all);
  }

  /** generate_xmltv: a `tv` root carrying the five add_info values, then
      one `channel` child per channel and one `programme` child per program,
      each in schedule order; lxml raises, and nothing is written, when any
      value it is given is not XML compatible. */
  method GenerateXmltv(schedule: Schedule) returns (r: Result<Element, ScrapeError>)
    requires forall k :: 0 <= k < |schedule.programs| ==> Timed(schedule.programs[k])
    ensures r.Ok? <==> Writable(schedule)
    ensures r.Err? ==> r.error == NotXmlCompatible
    ensures r.Ok? ==> var root := r.value;
      && root.tag == Tv && Name(root.tag) == "tv" && root.text == None
      && root.attrs == RootAttrs(schedule.addInfo)
      && |root.children| == |schedule.channels| + |schedule.programs|
      && (forall i :: 0 <= i < |schedule.channels| ==> root.children[i] == ChannelElement(schedule.channels[i]))
      && (forall k :: 0 <= k < |schedule.programs| ==>
            root.children[|schedule.channels| + k] == ProgrammeElement(schedule.programs[k]))
      && (forall i :: 0 <= i < |schedule.channels| ==> Name(root.children[i].tag) == "channel")
      && (forall i :: |schedule.channels| <= i < |root.children| ==> Name(root.children[i].tag) == "programme")
      && |Tagged(root.children, ChannelTag)| == |schedule.channels|
      && |Tagged(root.children, Programme)| == |schedule.programs|
  {
    var info := schedule.addInfo;
    if !RootWritable(info) {
      return Err(NotXmlCompatible);
    }
    var attrs := [Attr("generator-info-name", info.generatorInfoName)];
    attrs := attrs + [Attr("generator-info-url", info.generatorInfoUrl)];
    attrs := attrs + [Attr("source-info-url", info.sourceInfoUrl)];
    attrs := attrs + [Attr("source-info-name", info.sourceInfoName)];
    attrs := attrs + [Attr("source-data-url", info.sourceDataUrl)];
    var channels := ChannelLoop(schedule.channels);
    if channels.Err? {
      return Err(channels.error);
    }
    var children := ProgrammeLoop(channels.value, schedule.programs);
    if children.Err? {
      return Err(children.error);
    }
    var root := Element(Tv, attrs, None, children.value);
    assert forall i :: 0 <= i < |schedule.channels| ==> root.children[i] == channels.value[i];
    forall i | |schedule.channels| <= i < |root.children|
      ensures root.children[i].tag == Programme
    {
      var k := i - |schedule.channels|;
      assert root.children[|schedule.channels| + k] == ProgrammeElement(schedule.programs[k]);
    }
    TreeChildren(schedule, root);
    return Ok(root);
  }

  /** The children of the root: channels first, then programmes; the
      channel elements are exactly the channels and the programme elements
      exactly the programs. */
  lemma TreeChildren(schedule: Schedule, root: Element)
    requires forall k :: 0 <= k < |schedule.programs| ==> Timed(schedule.programs[k])
    requires |root.children| == |schedule.channels| + |schedule.programs|
    requires forall i :: 0 <= i < |schedule.channels| ==> root.children[i] == ChannelElement(schedule.channels[i])
    requires forall k :: 0 <= k < |schedule.programs| ==>
               root.children[|schedule.channels| + k] == ProgrammeElement(schedule.programs[k])
    ensures |Tagged(root.children, ChannelTag)| == |schedule.channels|
    ensures |Tagged(root.children, Programme)| == |schedule.programs|
  {
    var n := |schedule.channels|;
    var cs, ps := root.children[..n], root.children[n..];
    assert root.children == cs + ps;
    TaggedAppend(cs, ps, ChannelTag);
    TaggedAppend(cs, ps, Programme);
    forall i | 0 <= i < |ps|
      ensures ps[i].tag == Programme
    {
      assert ps[i] == root.children[n + i] == ProgrammeElement(schedule.programs[i]);
    }
    AllTagged(cs, ChannelTag);
    NoneTagged(ps, ChannelTag);
    AllTagged(ps, Programme);
    NoneTagged(cs, Programme);
  }

  lemma {:induction false} AllTagged(es: seq<Element>, tag: Tag)
    requires forall i :: 0 <= i < |es| ==> es[i].tag == tag
    ensures Tagged(es, tag) == es
    decreases |es|
  {
    if es != [] {
      AllTagged(es[1..], tag);
    }
  }

  lemma {:induction false} NoneTagged(es: seq<Element>, tag: Tag)
    requires forall i :: 0 <= i < |es| ==> es[i].tag != tag
    ensures Tagged(es, tag) == []
    decreases |es|
  {
    if es != [] {
      NoneTagged(es[1..], tag);
    }
  }
}
