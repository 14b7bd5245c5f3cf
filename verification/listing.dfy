/** get_rne_channel_list and get_rne_program_list: the channel list of a
    schedule page, and the program list built from its channel blocks,
    one program per schedule link, each completed by process_program_info. */
module Listing {
  import opened Wrappers
  import opened Text
  import opened Calendar
  import opened Records
  import opened ProgramInfo

  /** The channel a block describes: the text of its second child and its
      second class token. A block without either makes the script raise. */
  function ChannelOf(block: ChannelBlock): Result<Channel, ScrapeError> {
    if block.secondChildText.None? || block.classes.None? || |block.classes.value| < 2 then
      Err(MalformedChannelBlock)
    else
      Ok(Channel(block.secondChildText.value, block.classes.value[1]))
  }

  /** get_rne_channel_list: one channel per block, in page order. */
  method GetRneChannelList(blocks: seq<ChannelBlock>) returns (r: Result<seq<Channel>, ScrapeError>)
    ensures r.Ok? <==> forall i :: 0 <= i < |blocks| ==> ChannelOf(blocks[i]).Ok?
    ensures r.Ok? ==>
      && |r.value| == |blocks|
      && forall i :: 0 <= i < |blocks| ==>
           && r.value[i] == ChannelOf(blocks[i]).value
           && r.value[i].displayName == blocks[i].secondChildText.value
           && r.value[i].channelId == blocks[i].classes.value[1]
    ensures r.Err? ==> r.error == MalformedChannelBlock
  {
    var channels: seq<Channel> := [];
    var i := 0;
    while i < |blocks|
      invariant 0 <= i <= |blocks|
      invariant |channels| == i
      invariant forall k :: 0 <= k < i ==> ChannelOf(blocks[k]).Ok? && channels[k] == ChannelOf(blocks[k]).value
    {
      var block := blocks[i];
      if block.secondChildText.None? || block.classes.None? || |block.classes.value| < 2 {
        return Err(MalformedChannelBlock);
      }
      var chan := Channel(block.secondChildText.value, block.classes.value[1]);
      channels := channels + [chan];
      i := i + 1;
    }
    return Ok(channels);
  }

  /** The channel of the block at `index`, if the channel list has one. */
  function ChannelAt(channels: seq<Channel>, index: nat): Option<Channel> {
    if index < |channels| then Some(channels[index]) else None
  }

  /** The program a schedule link gives: its stripped text as title, the
      site origin joined to its href as url (whatever the href is), the
      block's channel, completed from its detail page. A link without an
      href fails first, then a block without a channel. */
  function AnchorProgram(anchor: ScheduleAnchor, channel: Option<Channel>, date: Date): Result<ProgramRecord, ScrapeError>
    requires Valid(date) && Printable(date)
  {
    if anchor.href.None? then Err(MissingHref)
    else if channel.None? then Err(NoChannelForBlock)
    else Enrich(Stub(Strip(Unicode, anchor.text), Origin + anchor.href.value, channel.value.channelId), anchor.detail, date)
  }

  /** A program built from a link keeps the stub's title, url and channel,
      has both times, and is in Spanish. */
  lemma AnchorProgramShape(anchor: ScheduleAnchor, channel: Option<Channel>, date: Date)
    requires Valid(date) && Printable(date)
    ensures var r := AnchorProgram(anchor, channel, date);
      && (r.Ok? <==> anchor.href.Some? && channel.Some?
                     && anchor.detail.hour.Some? && TimesOf(anchor.detail.hour.value, date).Ok?)
      && (r.Ok? ==>
            && r.value.title == Strip(Unicode, anchor.text)
            && r.value.url == Origin + anchor.href.value
            && r.value.channelId == channel.value.channelId
            && Timed(r.value) && r.value.language == Some(Language))
  {
    if anchor.href.Some? && channel.Some? {
      EnrichSpec(Stub(Strip(Unicode, anchor.text), Origin + anchor.href.value, channel.value.channelId), anchor.detail, date);
    }
  }

  /** The results in order when all are values, else the first error: a
      loop that appends each value and stops at the first raise. */
  function Collect<T>(rs: seq<Result<T, ScrapeError>>): Result<seq<T>, ScrapeError> {
    if rs == [] then Ok([])
    else
      match Collect(rs[..|rs| - 1])
      case Err(e) => Err(e)
      case Ok(vs) =>
        match rs[|rs| - 1]
        case Err(e) => Err(e)
        case Ok(v) => Ok(vs + [v])
  }

  /** `rs[j]` is the first error in `rs`. */
  predicate FirstError<T>(rs: seq<Result<T, ScrapeError>>, j: int) {
    0 <= j < |rs| && rs[j].Err? && forall i :: 0 <= i < j ==> rs[i].Ok?
  }

  /** Collect succeeds exactly when every result is a value, and then keeps
      them all in order; otherwise it reports the first error. */
  lemma {:induction false} CollectSpec<T>(rs: seq<Result<T, ScrapeError>>)
    ensures var r := Collect(rs);
      && (r.Ok? <==> forall j :: 0 <= j < |rs| ==> rs[j].Ok?)
      && (r.Ok? ==> |r.value| == |rs| && forall j :: 0 <= j < |rs| ==> r.value[j] == rs[j].value)
      && (r.Err? ==> exists j :: FirstError(rs, j) && r.error == rs[j].error)
    decreases |rs|
  {
    if rs != [] {
      var init := rs[..|rs| - 1];
      CollectSpec(init);
      assert forall j :: 0 <= j < |init| ==> init[j] == rs[j];
      var r := Collect(init);
      if r.Err? {
        var j :| FirstError(init, j) && r.error == init[j].error;
        assert FirstError(rs, j);
      } else if rs[|rs| - 1].Err? {
        assert FirstError(rs, |rs| - 1);
      }
    }
  }

  /** The step applied to each schedule link: build its program or raise. */
  type LinkStep = (ScheduleAnchor, Option<Channel>) -> Result<ProgramRecord, ScrapeError>

  /** The step get_rne_program_list takes for each link on `date`. */
  function LinkProgram(date: Date): LinkStep
    requires Valid(date) && Printable(date)
  {
    (anchor, channel) => AnchorProgram(anchor, channel, date)
  }

  /** Once a prefix of the results has raised, the rest is never looked at. */
  lemma {:induction false} CollectErrPrefix<T>(rs: seq<Result<T, ScrapeError>>, k: nat)
    requires k <= |rs| && Collect(rs[..k]).Err?
    ensures Collect(rs) == Collect(rs[..k])
    decreases |rs| - k
  {
    if k < |rs| {
      var init := rs[..|rs| - 1];
      assert init[..k] == rs[..k];
      CollectErrPrefix(init, k);
    } else {
      assert rs[..k] == rs;
    }
  }

  /** One more value extends the collected prefix. */
  lemma CollectStep<T>(rs: seq<Result<T, ScrapeError>>, k: nat)
    requires k < |rs| && Collect(rs[..k]).Ok? && rs[k].Ok?
    ensures Collect(rs[..k + 1]) == Ok(Collect(rs[..k]).value + [rs[k].value])
  {
    assert rs[..k + 1][..k] == rs[..k];
  }

  /** An error after a collected prefix is the prefix's outcome. */
  lemma CollectStepErr<T>(rs: seq<Result<T, ScrapeError>>, k: nat)
    requires k < |rs| && Collect(rs[..k]).Ok? && rs[k].Err?
    ensures Collect(rs[..k + 1]) == Err(rs[k].error)
  {
    assert rs[..k + 1][..k] == rs[..k];
  }

  /** What each link of a block gives, in order. */
  function AnchorResults(anchors: seq<ScheduleAnchor>, channel: Option<Channel>, step: LinkStep): (rs: seq<Result<ProgramRecord, ScrapeError>>)
    ensures |rs| == |anchors| && forall j :: 0 <= j < |anchors| ==> rs[j] == step(anchors[j], channel)
  {
    seq(|anchors|, j requires 0 <= j < |anchors| => step(anchors[j], channel))
  }

  /** The programs of one block: those of its links, or the first error;
      the block's channel is looked up once more after them, so even a block
      without links fails when there is no channel for it. */
  function BlockPrograms(block: ChannelBlock, channel: Option<Channel>, step: LinkStep): Result<seq<ProgramRecord>, ScrapeError> {
    match Collect(AnchorResults(block.anchors, channel, step))
    case Err(e) => Err(e)
    case Ok(ps) => if channel.None? then Err(NoChannelForBlock) else Ok(ps)
  }

  /** The program list of a schedule page: block by block, the i-th block
      taking the i-th channel; the first error aborts. */
  function ProgramList(blocks: seq<ChannelBlock>, channels: seq<Channel>, step: LinkStep): Result<seq<ProgramRecord>, ScrapeError> {
    if blocks == [] then Ok([])
    else
      match ProgramList(blocks[..|blocks| - 1], channels, step)
      case Err(e) => Err(e)
      case Ok(ps) =>
        match BlockPrograms(blocks[|blocks| - 1], ChannelAt(channels, |blocks| - 1), step)
        case Err(e) => Err(e)
        case Ok(qs) => Ok(ps + qs)
  }

  /** A block with a channel gives one program per link, in order, exactly
      when every link succeeds; a block without a channel always fails. */
  lemma BlockProgramsSpec(block: ChannelBlock, channel: Option<Channel>, step: LinkStep)
    ensures var r := BlockPrograms(block, channel, step);
      && (r.Ok? <==> channel.Some? && forall j :: 0 <= j < |block.anchors| ==> step(block.anchors[j], channel).Ok?)
      && (r.Ok? ==> |r.value| == |block.anchors|
                    && forall j :: 0 <= j < |block.anchors| ==> r.value[j] == step(block.anchors[j], channel).value)
  {
    CollectSpec(AnchorResults(block.anchors, channel, step));
  }

  /** The number of links over all blocks. */
  function TotalAnchors(blocks: seq<ChannelBlock>): nat {
    if blocks == [] then 0 else TotalAnchors(blocks[..|blocks| - 1]) + |blocks[|blocks| - 1].anchors|
  }

  /** Every link of every block gives its program, with the channel of its
      block, and the block has a channel. */
  ghost predicate AllSucceed(blocks: seq<ChannelBlock>, channels: seq<Channel>, step: LinkStep) {
    && |blocks| <= |channels|
    && forall i, j :: 0 <= i < |blocks| && 0 <= j < |blocks[i].anchors| ==>
         step(blocks[i].anchors[j], Some(channels[i])).Ok?
  }

  /** The program list comes out exactly when every link succeeds and every
      block has a channel. */
  lemma {:induction false} ProgramListOk(blocks: seq<ChannelBlock>, channels: seq<Channel>, step: LinkStep)
    ensures ProgramList(blocks, channels, step).Ok? <==> AllSucceed(blocks, channels, step)
    decreases |blocks|
  {
    if blocks != [] {
      var n := |blocks| - 1;
      var init := blocks[..n];
      ProgramListOk(init, channels, step);
      BlockProgramsSpec(blocks[n], ChannelAt(channels, n), step);
      assert forall i :: 0 <= i < n ==> init[i] == blocks[i];
    }
  }

  /** A program list holds one program per link, block after block and link
      after link: the program of the j-th link of the i-th block comes after
      all the links of the blocks before it, and carries the i-th channel. */
  lemma ProgramListEntries(blocks: seq<ChannelBlock>, channels: seq<Channel>, step: LinkStep)
    requires ProgramList(blocks, channels, step).Ok?
    ensures AllSucceed(blocks, channels, step)
    ensures var ps := ProgramList(blocks, channels, step).value;
      && |ps| == TotalAnchors(blocks)
      && forall i, j :: 0 <= i < |blocks| && 0 <= j < |blocks[i].anchors| ==>
           ps[Offset(blocks, i) + j] == step(blocks[i].anchors[j], Some(channels[i])).value
  {
    ProgramListOk(blocks, channels, step);
    ProgramListLength(blocks, channels, step);
    forall i, j | 0 <= i < |blocks| && 0 <= j < |blocks[i].anchors|
      ensures ProgramList(blocks, channels, step).value[Offset(blocks, i) + j]
                == step(blocks[i].anchors[j], Some(channels[i])).value
    {
      ProgramListEntry(blocks, channels, step, i, j);
    }
  }

  /** A program list holds one program per link. */
  lemma {:induction false} ProgramListLength(blocks: seq<ChannelBlock>, channels: seq<Channel>, step: LinkStep)
    requires ProgramList(blocks, channels, step).Ok?
    ensures |ProgramList(blocks, channels, step).value| == TotalAnchors(blocks)
    decreases |blocks|
  {
    if blocks != [] {
      var n := |blocks| - 1;
      ProgramListLength(blocks[..n], channels, step);
      BlockProgramsSpec(blocks[n], ChannelAt(channels, n), step);
    }
  }

  /** The program of the j-th link of the i-th block. */
  lemma {:induction false} ProgramListEntry(blocks: seq<ChannelBlock>, channels: seq<Channel>, step: LinkStep, i: nat, j: nat)
    requires ProgramList(blocks, channels, step).Ok?
    requires i < |blocks| && j < |blocks[i].anchors|
    ensures i < |channels|
    ensures Offset(blocks, i) + j < |ProgramList(blocks, channels, step).value|
    ensures step(blocks[i].anchors[j], Some(channels[i])).Ok?
    ensures ProgramList(blocks, channels, step).value[Offset(blocks, i) + j]
              == step(blocks[i].anchors[j], Some(channels[i])).value
    decreases |blocks|
  {
    var n := |blocks| - 1;
    var init := blocks[..n];
    var ri := ProgramList(init, channels, step);
    var rb := BlockPrograms(blocks[n], ChannelAt(channels, n), step);
    assert ri.Ok? && rb.Ok?;
    ProgramListLength(init, channels, step);
    BlockProgramsSpec(blocks[n], ChannelAt(channels, n), step);
    assert ProgramList(blocks, channels, step).value == ri.value + rb.value;
    if i < n {
      ProgramListEntry(init, channels, step, i, j);
      OffsetOfPrefix(blocks, i);
    } else {
      assert blocks[..i] == init;
    }
  }

  /** What get_rne_program_list puts in the program of a link: the link
      had an href, the title is the link's stripped text, the url is the
      origin joined to the href (not made absolute), the channel is the
      block's, both times are set and the language is Spanish. */
  predicate FromLink(anchor: ScheduleAnchor, channel: Option<Channel>, p: ProgramRecord) {
    && anchor.href.Some? && channel.Some?
    && p.title == Strip(Unicode, anchor.text)
    && p.url == Origin + anchor.href.value
    && p.channelId == channel.value.channelId
    && Timed(p)
    && p.language == Some(Language)
  }

  /** A step whose every program is built from its link that way. */
  ghost predicate FaithfulStep(step: LinkStep) {
    forall anchor, channel :: step(anchor, channel).Ok? ==> FromLink(anchor, channel, step(anchor, channel).value)
  }

  /** The step of get_rne_program_list is such a step. */
  lemma LinkProgramFaithful(date: Date)
    requires Valid(date) && Printable(date)
    ensures FaithfulStep(LinkProgram(date))
  {
    forall anchor, channel | LinkProgram(date)(anchor, channel).Ok?
      ensures FromLink(anchor, channel, LinkProgram(date)(anchor, channel).value)
    {
      AnchorProgramShape(anchor, channel, date);
    }
  }

  /** Each program of the list comes from its link and its block's channel. */
  lemma ProgramListFields(blocks: seq<ChannelBlock>, channels: seq<Channel>, step: LinkStep)
    requires FaithfulStep(step) && ProgramList(blocks, channels, step).Ok?
    ensures |blocks| <= |channels|
    ensures var ps := ProgramList(blocks, channels, step).value;
      && |ps| == TotalAnchors(blocks)
      && forall i, j :: 0 <= i < |blocks| && 0 <= j < |blocks[i].anchors| ==>
           FromLink(blocks[i].anchors[j], Some(channels[i]), ps[Offset(blocks, i) + j])
  {
    ProgramListOk(blocks, channels, step);
    ProgramListEntries(blocks, channels, step);
  }

  /** Every program of a list built with such a step has both times, so the
      whole list can be written out. */
  lemma {:induction false} ProgramListTimed(blocks: seq<ChannelBlock>, channels: seq<Channel>, step: LinkStep)
    requires FaithfulStep(step) && ProgramList(blocks, channels, step).Ok?
    ensures forall k :: 0 <= k < |ProgramList(blocks, channels, step).value| ==> Timed(ProgramList(blocks, channels, step).value[k])
    decreases |blocks|
  {
    if blocks != [] {
      var n := |blocks| - 1;
      ProgramListTimed(blocks[..n], channels, step);
      BlockProgramsSpec(blocks[n], ChannelAt(channels, n), step);
    }
  }

  /** Where the programs of block `i` begin: after the links of the blocks
      before it. */
  function Offset(blocks: seq<ChannelBlock>, i: nat): (n: nat)
    requires i < |blocks|
    ensures n + |blocks[i].anchors| <= TotalAnchors(blocks)
  {
    TotalAnchorsPrefix(blocks, i);
    TotalAnchors(blocks[..i])
  }

  /** Dropping the last block moves no earlier block. */
  lemma OffsetOfPrefix(blocks: seq<ChannelBlock>, i: nat)
    requires i < |blocks| - 1
    ensures blocks[..|blocks| - 1][i] == blocks[i]
    ensures Offset(blocks, i) == Offset(blocks[..|blocks| - 1], i)
  {
    assert blocks[..|blocks| - 1][..i] == blocks[..i];
  }

  /** The links of the earlier blocks fill the front of the list. */
  lemma {:induction false} TotalAnchorsPrefix(blocks: seq<ChannelBlock>, i: nat)
    requires i < |blocks|
    ensures TotalAnchors(blocks[..i]) + |blocks[i].anchors| <= TotalAnchors(blocks)
    decreases |blocks|
  {
    var n := |blocks| - 1;
    assert blocks[..n][..i] == blocks[..i] || i == n;
    if i < n {
      TotalAnchorsPrefix(blocks[..n], i);
      assert blocks[..n][i] == blocks[i];
    }
  }

  /** Once the blocks before `i` have succeeded and block `i` raises, the
      whole list raises that error. */
  lemma {:induction false} ProgramListFailsAt(blocks: seq<ChannelBlock>, channels: seq<Channel>, step: LinkStep, i: nat)
    requires i < |blocks| && ProgramList(blocks[..i], channels, step).Ok?
    requires BlockPrograms(blocks[i], ChannelAt(channels, i), step).Err?
    ensures ProgramList(blocks, channels, step) == BlockPrograms(blocks[i], ChannelAt(channels, i), step)
    decreases |blocks|
  {
    var n := |blocks| - 1;
    if i < n {
      var init := blocks[..n];
      assert init[..i] == blocks[..i] && init[i] == blocks[i];
      ProgramListFailsAt(init, channels, step, i);
    } else {
      assert blocks[..n] == blocks[..i];
    }
  }

  /** The body of get_rne_program_list's inner loop: a fresh program for one
      link, completed by process_program_info. */
  method ProcessAnchor(item: ScheduleAnchor, channel: Option<Channel>, date: Date) returns (r: Result<Program, ScrapeError>)
    requires Valid(date) && Printable(date)
    ensures r.Ok? <==> AnchorProgram(item, channel, date).Ok?
    ensures r.Ok? ==> fresh(r.value) && r.value.Record() == AnchorProgram(item, channel, date).value
    ensures r.Err? ==> r.error == AnchorProgram(item, channel, date).error
  {
    if item.href.None? {
      return Err(MissingHref);
    }
    if channel.None? {
      return Err(NoChannelForBlock);
    }
    var program := new Program(Strip(Unicode, item.text), Origin + item.href.value, channel.value.channelId);
    r := ProcessProgramInfo(item.detail, program, date);
  }

  /** The inner loop of get_rne_program_list: the programs of one block's
      links, appended in order. */
  method BlockLoop(anchors: seq<ScheduleAnchor>, channel: Option<Channel>, date: Date)
    returns (r: Result<seq<Program>, ScrapeError>)
    requires Valid(date) && Printable(date)
    ensures var c := Collect(AnchorResults(anchors, channel, LinkProgram(date)));
      && (r.Ok? <==> c.Ok?)
      && (r.Ok? ==> RecordsOf(r.value) == c.value)
      && (r.Err? ==> r.error == c.error)
  {
    var programs: seq<Program> := [];
    ghost var results := AnchorResults(anchors, channel, LinkProgram(date));
    var count := 0;
    while count < |anchors|
      invariant 0 <= count <= |anchors|
      invariant Collect(results[..count]).Ok?
      invariant RecordsOf(programs) == Collect(results[..count]).value
    {
      assert results[count] == AnchorProgram(anchors[count], channel, date);
      var processed := ProcessAnchor(anchors[count], channel, date);
      if processed.Err? {
        CollectStepErr(results, count);
        CollectErrPrefix(results, count + 1);
        return Err(processed.error);
      }
      CollectStep(results, count);
      RecordsOfAppend(programs, [processed.value]);
      programs := programs + [processed.value];
      count := count + 1;
    }
    assert results[..count] == results;
    return Ok(programs);
  }

  /** The records of two lists one after the other. */
  lemma {:induction false} RecordsOfAppend(ps: seq<Program>, qs: seq<Program>)
    ensures RecordsOf(ps + qs) == RecordsOf(ps) + RecordsOf(qs)
  {
  }

  /** get_rne_program_list: for every block and every link in it, a fresh
      program with the link's title, url and the block's channel, completed
      by process_program_info and appended; the list is the pure
      ProgramList. */
  method GetRneProgramList(blocks: seq<ChannelBlock>, channels: seq<Channel>, date: Date)
    returns (r: Result<seq<Program>, ScrapeError>)
    requires Valid(date) && Printable(date)
    ensures r.Ok? <==> ProgramList(blocks, channels, LinkProgram(date)).Ok?
    ensures r.Ok? ==> RecordsOf(r.value) == ProgramList(blocks, channels, LinkProgram(date)).value
    ensures r.Err? ==> r.error == ProgramList(blocks, channels, LinkProgram(date)).error
  {
    var programs: seq<Program> := [];
    var chanIndex := 0;
    while chanIndex < |blocks|
      invariant 0 <= chanIndex <= |blocks|
      invariant ProgramList(blocks[..chanIndex], channels, LinkProgram(date)).Ok?
      invariant RecordsOf(programs) == ProgramList(blocks[..chanIndex], channels, LinkProgram(date)).value
    {
      assert blocks[..chanIndex + 1][..chanIndex] == blocks[..chanIndex];
      assert blocks[..chanIndex + 1][chanIndex] == blocks[chanIndex];
      var channel := ChannelAt(channels, chanIndex);
      var block := BlockLoop(blocks[chanIndex].anchors, channel, date);
      if block.Err? {
        ProgramListFailsAt(blocks, channels, LinkProgram(date), chanIndex);
        return Err(block.error);
      }
      if chanIndex >= |channels| {
        ProgramListFailsAt(blocks, channels, LinkProgram(date), chanIndex);
        return Err(NoChannelForBlock);
      }
      RecordsOfAppend(programs, block.value);
      programs := programs + block.value;
      chanIndex := chanIndex + 1;
    }
    assert blocks[..chanIndex] == blocks;
    return Ok(programs);
  }
}
