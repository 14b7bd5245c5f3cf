# rne2xmltv in Dafny

`rne2xmltv.py` scrapes the daily schedule pages of the Spanish public radio
RNE (rtve.es) and writes an XMLTV listing. This project models the script's
core, that is, what happens between the HTML parser and the XML serializer:

- **Channel list** (`get_rne_channel_list`). Every `ul rel="tve"` block of a
  schedule page becomes one channel. The channel's display name is the text
  of the block's second child and its id is the block's second class token.
- **Program list** (`get_rne_program_list`). Every link of the i-th block
  becomes a program dictionary:
  - its title is the link text, stripped;
  - its url is `http://www.rtve.es` + href;
  - its channel id is the one of the i-th channel.
  The dictionary is then completed from the link's detail page. Programs come
  block after block, and link after link within a block.
- **Completing a program** (`process_program_info`). The detail page gives:
  - start and stop times `YYYYMMDD` + `HHMMSS` + ` +0100`, taken from an hour
    text such as `08:00-08:55`; the stop is dated the next calendar day
    exactly when its HHMMSS sorts before the start's;
  - a podcast link made absolute against the site origin;
  - the description;
  - a director credit, unless the `detalle` block is the "Más información:"
    footer;
  - the language `es`.
  The dictionary is changed in place and only gains keys.
- **The XMLTV document** (`generate_xmltv`) is modelled as the element tree
  lxml builds:
  - a `tv` root carrying the five `add_info` values;
  - one `channel` element per channel, then one `programme` element per
    program;
  - each programme holds a title and, when the title contains `". "`, a
    subtitle;
  - `desc`, `credits`/`director` and `lang` appear when the program has those
    keys;
  - fixed `video` (present `no`) and `audio` (present `yes`, `stereo`)
    elements close each programme.

Modules, one file each:

| module | file | holds |
|---|---|---|
| `Wrappers` | `wrappers.dfy` | `Option` and `Result` |
| `Text` | `text.dfy` | The Python 2 string operations the script uses. There are two strips: `unicode.strip` for parsed text and byte `str.strip` for the UTF-8 title in `generate_xmltv`. Also `find`, `split`, `encode('ascii', 'ignore')`, `startswith` and string `<`. |
| `Calendar` | `calendar.dfy` | `datetime.date`, the one-day step, `toordinal` and `strftime('%Y%m%d')` |
| `Records` | `records.dfy` | The inputs the HTML gives (as values), the errors, and the program dictionary. The dictionary is the class `Program`, mutated in place, with its value view `ProgramRecord`. |
| `ProgramInfo` | `program_info.dfy` | `process_program_info`, specified by the pure `Enrich` |
| `Listing` | `listing.dfy` | The two list builders. Their loops are methods specified by the pure `ProgramList`, a fold over a per-link step function. |
| `Xmltv` | `xmltv.dfy` | `generate_xmltv`, whose loops build the tree specified by `ProgrammeElement` and `ChannelElement`. lxml's check of every value it is given is modelled too. |

Where the script raises, the model returns an error value and aborts the
whole run, as the script does:

| error | when the script raises it | source line |
|---|---|---|
| `MalformedChannelBlock` | a channel block lacks its second child or its second class token | 27-28 |
| `MissingHref` | a schedule link has no `href`, so `'...' + None` fails | 90 |
| `NoChannelForBlock` | `channels[chan_index]` is out of range | 91, 98 |
| `MissingHour` | a detail page has no `hour` element | 42 |
| `DateOverflow` | the stop day would come after 9999-12-31 | 49 |
| `NotXmlCompatible` | lxml refuses a value given to `set` or `.text`. Such a value holds an ASCII control character other than tab, newline and carriage return, or one of the noncharacters U+FFFE and U+FFFF, or is a byte string (channel id, data url, language) with a non-ASCII character | 111-153 |

## Model

| member | source | states |
|---|---|---|
| `ProgramInfo.ClockFieldShape` | rne2xmltv.py:44-45 | A field ends in "00". The characters before that are exactly the characters of the stripped side other than ':' (which characters occur, not their order). |
| `ProgramInfo.ClockFieldOfReading` | rne2xmltv.py:44-45 | For a reading `HH:MM` of two-digit hours and minutes, the field is exactly `HHMM00`. |
| `ProgramInfo.HourFieldsOfRange` | rne2xmltv.py:44-45 | For an hour text `HH:MM-HH:MM`, the start field is the first `HHMM00` and the stop field the second. |
| `ProgramInfo.HourFieldsAtDash` | rne2xmltv.py:44-45 | When the first '-' is at i, the start field comes from `hour[..i]` and the stop field from `hour[i+1..]`. |
| `ProgramInfo.HourFieldsWithoutDash` | rne2xmltv.py:44-45 | With no '-', find gives -1. The start field then comes from the text minus its last character, and the stop field from the whole text. |
| `ProgramInfo.TimesSpec` | rne2xmltv.py:46-52 | The start is `YYYYMMDD(date)` + start field + " +0100". The stop carries the same date unless its field sorts before the start's, and then the next day's date. The only failure is DateOverflow, and it happens exactly when the stop needs the day after 9999-12-31. |
| `ProgramInfo.StopDateRule` | rne2xmltv.py:46-49 | The stop's date prefix equals the start's unless stop < start. In that case it is the formatted next day, whose ordinal is one more. |
| `ProgramInfo.StopNotBeforeStart` | rne2xmltv.py:44-49 | For six-digit fields, the stop instant (day ordinal, then HHMMSS) is never before the start instant. The two are equal only when the fields are equal. |
| `ProgramInfo.RangeStopNotBeforeStart` | rne2xmltv.py:44-49 | For an hour text `HH:MM-HH:MM`, the fields are the two `HHMM00`, and the stop instant is never before the start instant. |
| `Calendar.NextDayIsSuccessor` | rne2xmltv.py:49 | `NextDay` is `date + timedelta(days=1)`: its ordinal is one more, with month and year rollover. |
| `Calendar.OrdinalInjective` | rne2xmltv.py:49 | Distinct valid dates have distinct ordinals, so the next day is unique. |
| `Calendar.FormatYmd` | rne2xmltv.py:46 | `strftime('%Y%m%d')` gives eight digits. The year, month and day read back from them. |
| `Calendar.FormatYmdInjective` | rne2xmltv.py:46-49 | Different dates format differently, so a next-day stop is always distinguishable from a same-day one. |
| `Text.LexLessDigits` | rne2xmltv.py:48 | For equal-length digit strings, Python's string `<` agrees with numeric `<`. |
| `Text.StripShape` | rne2xmltv.py:44-45 | `strip()` returns a factor of the input. Everything cut off before and after it is whitespace, and the factor, when not empty, neither starts nor ends with whitespace. |
| `Text.TrimmedUnique` | rne2xmltv.py:44-45 | Only one factor has that shape, so it characterizes `strip()`. |
| `Text.StripUnpadded` | rne2xmltv.py:44-45 | A string that neither starts nor ends with whitespace is its own strip. |
| `Text.Find` | rne2xmltv.py:44-45 | `find` gives -1 iff the character is absent. Otherwise it gives the index of its first occurrence. |
| `Text.SliceTo` | rne2xmltv.py:44 | `s[0:stop]` is a prefix of `s`. A non-negative stop is clamped to the length, and a negative stop drops that many characters from the end, or gives the empty string when it is longer than `s`. |
| `ProgramInfo.AbsoluteUrl` | rne2xmltv.py:57-60 | The podcast url starts with `http://www.rtve.es`. An href that already starts with the origin is kept unchanged, and any other href is prefixed with the origin. |
| `ProgramInfo.AbsoluteUrlIdempotent` | rne2xmltv.py:57-60 | Making a link absolute twice equals doing it once. |
| `ProgramInfo.PodcastOf` | rne2xmltv.py:54-60 | A podcast exists iff the page has a first link with an href. It is then that href made absolute. |
| `ProgramInfo.DescriptionOf` | rne2xmltv.py:62-63 | A description exists iff the page has a `chapeaux` element. It is then a factor of that element's text with only whitespace cut off at both ends and none left at its ends. |
| `ProgramInfo.DirectorOf` | rne2xmltv.py:65-68 | A director exists iff all three hold: a `detalle` block exists, its ASCII-only text does not start with "Ms informacin:", and it has both `dt` and `dd`. The director is then a factor of the `dd` text with only whitespace cut off at both ends and none left at its ends. |
| `ProgramInfo.MoreInfoBlockIsNoCredit` | rne2xmltv.py:65-68 | A `detalle` whose text opens with "Más información:" never yields a director, whatever follows. |
| `ProgramInfo.FooterHeadIsMarker` | rne2xmltv.py:66 | Dropping the non-ASCII letters of "Más información:" gives "Ms informacin:". |
| `ProgramInfo.EnrichSpec` | rne2xmltv.py:39-72 | Enrichment fails iff the page has no hour (MissingHour) or the stop needs a day past 9999-12-31 (DateOverflow). Otherwise it keeps title, url, channel and every existing key, and sets both times to `TimesOf` and language to "es". Podcast, desc and director are overridden exactly when the page provides them. |
| `ProgramInfo.SetPodcast` | rne2xmltv.py:54-60 | Only the podcast key changes, and only when the page provides one. |
| `ProgramInfo.SetDescription` | rne2xmltv.py:62-63 | Only the desc key changes, and only when the page provides one. |
| `ProgramInfo.SetDirector` | rne2xmltv.py:65-68 | Only the credits_director key changes, and only when the page provides one. |
| `ProgramInfo.ProcessProgramInfo` | rne2xmltv.py:39-72 | The dictionary is mutated in place into `Enrich` of its old value, and the same object is returned. On error it is left untouched. |
| `Records.Program.constructor` | rne2xmltv.py:88-91 | A new dictionary holds only title, url and channel_id. |
| `Listing.GetRneChannelList` | rne2xmltv.py:21-32 | It succeeds iff every block has a second child and a second class. The result then has one channel per block, in order, with display name = second child's text and id = second class. Otherwise the error is MalformedChannelBlock. |
| `Listing.AnchorProgramShape` | rne2xmltv.py:88-95 | A link gives a program iff it has an href, its block has a channel and the page's hour yields times. The program's title is the stripped link text and its url is origin + href with no check for an existing origin. Its channel is the block's, it has both times, and its language is "es". |
| `Listing.LinkProgramFaithful` | rne2xmltv.py:88-95 | Every program the per-link step gives is built from its link and channel as stated above. |
| `Listing.CollectSpec` | rne2xmltv.py:87-96 | The inner loop's outcome: it succeeds iff every link succeeds, keeping every program in order. Otherwise it returns the first error. |
| `Listing.BlockProgramsSpec` | rne2xmltv.py:84-98 | A block succeeds iff it has a channel and all its links succeed. It then has one program per link, in link order. |
| `Listing.ProgramListOk` | rne2xmltv.py:79-102 | The list is built iff there are at least as many channels as blocks and every link of block i succeeds with channel i. |
| `Listing.ProgramListLength` | rne2xmltv.py:83-99 | A built list holds one program per link over all blocks. |
| `Listing.ProgramListEntry` | rne2xmltv.py:83-99 | The program of link j of block i sits at (links of blocks before i) + j. Block i has a channel, the link's step succeeds, and the entry is its result with channel i. |
| `Listing.ProgramListEntries` | rne2xmltv.py:83-99 | The list length is the total number of links. The program of link j of block i sits at (links of blocks before i) + j and is the step's result for that link with channel i. |
| `Listing.ProgramListFields` | rne2xmltv.py:88-91 | Each entry has the title, url and channel of its link and block. It also has both times and language "es". |
| `Listing.ProgramListTimed` | rne2xmltv.py:93-96 | Every program of a built list has start and stop times, so the list can be written out. |
| `Listing.ProgramListFailsAt` | rne2xmltv.py:83-99 | The first block that raises decides the error of the whole list. |
| `Listing.ProcessAnchor` | rne2xmltv.py:88-95 | The inner loop body: the href is checked before the channel, then a fresh dictionary completed by `ProcessProgramInfo`. Its value is `AnchorProgram`'s, or the same error. |
| `Listing.BlockLoop` | rne2xmltv.py:84-97 | The inner loop's dictionaries have exactly the values `Collect` gives for the block's links. On error, the loop returns the same first error. |
| `Listing.GetRneProgramList` | rne2xmltv.py:79-102 | The dictionaries' values are exactly `ProgramList` for the per-link step of `date`, and the error is the same one. The channel check of the status line after each block is included. |
| `Text.SplitPieces` | rne2xmltv.py:134 | `split` gives two or more pieces iff the separator occurs. No piece contains it, and the first piece is what precedes the first occurrence. |
| `Text.SplitJoin` | rne2xmltv.py:134 | Joining the pieces of `split` with the separator gives the string back. |
| `Text.FindSubLeftmost` | rne2xmltv.py:134 | `find` returns -1 iff the separator does not occur, and otherwise its leftmost occurrence. |
| `Xmltv.TitleSegments` | rne2xmltv.py:134-140 | The title element holds the text before the first ". ", byte-stripped. A subtitle exists iff ". " occurs, and it holds only the text between the first and second ". " (or the end), stripped; later pieces are dropped. |
| `Xmltv.TitleCount` | rne2xmltv.py:134-140 | There are two title elements if the title contains ". ", else one. |
| `Xmltv.ProgrammeShape` | rne2xmltv.py:128-163 | A programme carries channel, start and stop verbatim, in that order. Its first child is the title, and its last two are the fixed video (present "no") and audio (present "yes", stereo "stereo") elements. |
| `Xmltv.ProgrammeTitles` | rne2xmltv.py:134-140 | A programme has exactly one title, and one subtitle iff its title contains ". ". |
| `Xmltv.ProgrammeOptionals` | rne2xmltv.py:142-153 | The desc, credits/director and lang children are present exactly when the program has those keys, and they hold the values. |
| `Xmltv.BuildProgramme` | rne2xmltv.py:129-163 | It succeeds iff lxml accepts every value the programme sets. Attaching the children one by one then gives exactly `ProgrammeElement`. Otherwise the error is NotXmlCompatible. |
| `Xmltv.BuildTitles` | rne2xmltv.py:134-140 | It succeeds iff lxml accepts the stripped title and subtitle texts, and gives exactly the title elements. |
| `Xmltv.BuildOptionals` | rne2xmltv.py:142-153 | It succeeds iff lxml accepts the desc, director and language values present, and gives exactly the desc, credits and lang children. |
| `Xmltv.UnwritableDescription` | rne2xmltv.py:142-144 | A description holding any control character other than tab, newline and carriage return, or U+FFFE or U+FFFF, cannot be written. |
| `Xmltv.ChannelLoop` | rne2xmltv.py:121-126 | It succeeds iff lxml accepts every channel id (a byte string) and display name. It then gives one channel element per channel, in order, with id = channel_id and a display-name child. |
| `Xmltv.ProgrammeLoop` | rne2xmltv.py:128-163 | It succeeds iff every program can be written. It then keeps the earlier children and appends one programme element per program, in order. |
| `Xmltv.TreeChildren` | rne2xmltv.py:121-163 | The root has exactly as many channel children as channels and as many programme children as programs. |
| `Xmltv.NameInjective` | rne2xmltv.py:109-163 | Different tags have different element names. |
| `Xmltv.GenerateXmltv` | rne2xmltv.py:107-163 | It succeeds iff lxml accepts every value set (otherwise the error is NotXmlCompatible). The root is `tv` (element name "tv") with the five add_info attributes in source order. Its channel elements (named "channel") come first, then its programme elements (named "programme"), each in schedule order, and the channel and programme tag counts match. |

## Left out

- The HTTP fetches (`get_soup_from`, `requests.get`) and the BeautifulSoup parsing and queries are not modelled. What the script reads from a page is an input value instead: `ChannelBlock`, `ScheduleAnchor`, `DetailPage`. Each link carries the detail page fetching it would return, so the fetch order and the number of fetches are not captured.
- `etree.tostring` is not modelled: pretty-printing, UTF-8 encoding and the XML declaration. The model stops at the element tree. lxml's in-place `SubElement` attachment is modelled as building values, with children appended in order.
- `encode('utf8')`/`decode('utf8')` round-trips are identities on character strings. Only `encode('ascii', 'ignore')` is modelled, because it changes the footer test.
- The title is split and byte-stripped character by character. This matches the byte-level operations because UTF-8 multibyte sequences never contain ASCII bytes.
- The main branch (lines 170-217) is not modelled: today's date, the fixed URLs, the concatenation of the three days' lists, and the file output. All `print` diagnostics are left out too, but the `channels[chan_index]` lookup in the status print at line 98 is kept, because it can raise.
- Only years 1900 to 9999 are modelled: every date is a valid Gregorian date in that range. Python 2's `time.strftime` refuses years 100 to 1899. With `time.accept2dyear` set, it remaps years 0 to 99 (0-68 to 2000-2068, 69-99 to 1969-1999) instead of refusing them, and that remapping is not modelled.
- Python exceptions are error values, and a run that raises produces nothing. Partial effects before the raise are not modelled, such as dictionaries already built.
- `Xmltv.GenerateXmltv` requires every program to have both times. lxml would raise on `set(..., None)`, and `Listing.ProgramListTimed` shows that every list the script builds satisfies this.
- `Listing.GetRneProgramList` and `Listing.BlockLoop` state the values of the dictionaries they return, not that they are fresh or pairwise distinct objects. `Listing.ProcessAnchor` does state that each dictionary is fresh. Aliasing between the returned dictionaries is therefore not captured.
- The prints at line 98 and line 125 can themselves raise when the terminal encoding cannot show a decoded display name (such as "Radio Clásica"). They are left out with the other prints.
- The refused characters follow lxml 4.x, which checks every value as UTF-8. That check refuses ASCII control characters other than tab, newline and carriage return, and the noncharacters U+FFFE and U+FFFF. Older lxml releases that accept those noncharacters are not modelled.
- Python dictionary key order and keys other than the nine a program can carry are not modelled.
