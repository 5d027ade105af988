# tcia-website page logic in Dafny

The tcia-website repository holds the scripts behind a group of static sites:
- the D4PG conference pages: schedule, mobile schedule, home and speaker directory;
- the TCIA about pages, the internship home and search, the STEAM, FEE hub and book club pages, and the resource library;
- the NOTICE coalition pages: home, resources, fellowship, glitch lab and event page.

Every page fetches its content as JSON and renders it. The logic underneath is small and sequential, and that logic is what this project models:
- how schedule entries are grouped into time blocks and how times are read and printed;
- which event is current or upcoming, and how a countdown is split;
- the carousels and pagers, with clamped or wrapping indices, pause flags and swipe rules;
- the filter and search predicates;
- the cache lifetimes, the cookie store and the daily popup counter;
- the video-id extraction;
- the one-at-a-time selections of tabs, FAQ items, cards and modals.

Scripts that keep state in closure variables or object fields are modelled as classes whose methods update that state. Pure helpers are modelled as functions, with lemmas relating them to independent definitions.

There is one module per script:
- `ScheduleDesktop`, `ScheduleMobile`, `D4pgHome`, `Speakers`;
- `About`, `TciaAboutNew`, `InternHome`, `InternSearch`, `Steam`, `FeeHub`, `BookClub`, `ResLib`;
- `UiHandler`, `DataFetcher`, `NoticeUtils`, `NoticeResources`, `Fellowship`, `GlitchLab`, `Eys`.

Shared modules hold what several scripts repeat:
- `ScheduleCore`: the schedule entries and their grouping;
- `Carousel`: the clamped slide carousel and the wrapping wheel;
- `GalleryCache`: the cached photo gallery;
- `TeamBio`: the drop-cap biographies;
- `Selection`: picking by position;
- `Strings`: the JavaScript string operations the scripts use;
- `Wrappers`: `Option`.

Outside inputs become parameters:
- clocks are integer minutes or milliseconds;
- `localStorage` entries and `document.cookie` are values threaded in and out;
- fetched JSON is a parameter, with `None` for a failed request.

## Model

| member | source | states |
|---|---|---|
| About.CollidingIsCloseness | main/js/about.js:422-427 | the collision test is symmetric, and cards that only touch along an edge (corners exactly a card width or a card height apart) do not collide |
| About.IsColliding | main/js/about.js:422-427 | two 250×350 cards collide iff their corners are less than a card width apart horizontally and less than a card height apart vertically |
| About.IsOverlapping | main/js/about.js:372-379 | a candidate position overlaps the placed cards iff it collides with at least one of them |
| About.CollisionResponse | main/js/about.js:399-411 | a distinct colliding card exchanges both velocity components with the other card; a card compared with itself, or a non-colliding pair, keeps its velocities; positions are not touched |
| About.CreatePillars | main/js/about.js:670-708 | about.js draws all four pillars unconditionally, pillar i in colour `tciaColors[i]` |
| TeamBio.BioHtml | main/js/about.js:446-458 | the bio container is hidden iff the bio is missing or whitespace-only |
| TeamBio.JoinEmptyIsConcat | main/js/about.js:448-453 | `join('')` of the rendered lines is their plain concatenation |
| TeamBio.ConcatAppend | main/js/about.js:448-453 | concatenation distributes over appending lists of rendered lines |
| TeamBio.MapLineMarkup | main/js/about.js:448-453 | the `map` over the bio's lines yields one rendered string per line |
| TeamBio.LinesRenderAsParagraphs | main/js/about.js:449 | blank lines render as nothing, so the rendered bio is the markup of the non-blank lines only |
| TeamBio.ParagraphsAreNonBlankLines | main/js/about.js:449-452 | each paragraph is a non-blank line split into its first character and the unchanged rest; there are at most as many paragraphs as lines, and at least one when some line is non-blank |
| TeamBio.Paragraphs | main/js/about.js:449-452 | no more paragraphs than lines, and none iff every line is blank |
| TeamBio.BioIsParagraphs | main/js/tcia-about-new.js:282-291 | a shown biography is the concatenation of one drop-cap paragraph per non-blank line, and there is at least one such paragraph |
| TeamBio.Pillars | main/js/tcia-about-new.js:450-469 | one pillar per entry, in order, each carrying its entry's text |
| TeamBio.PillarColorCycle | main/js/tcia-about-new.js:431-433 | pillar colours repeat with period seven and neighbouring pillars never share a colour |
| TeamBio.PillarColor | main/js/tcia-about-new.js:431-433 | a pillar colour is one of the seven `tciaColors`, a seven-character "#RRGGBB" text, and pillar i < 7 takes `tciaColors[i]` |
| TciaAboutNew.PageWindow.LoadScript | main/js/tcia-about-new.js:2-5 | loading the script sets `tciaInitialized`, and runs the body only when the flag was not already set |
| TciaAboutNew.LoadRepeatedly | main/js/tcia-about-new.js:2-5 | however many times the script is loaded into one page, its body runs at most once (once if loaded at all) |
| TciaAboutNew.BoardMemberWidened | main/js/tcia-about-new.js:220-222 | the substring test accepts every role about.js's equality test accepts (main/js/about.js:285, where exactly the role "TCIA Board Member" counts), and also "Former Board Member", which about.js does not |
| TciaAboutNew.IsBoardMember | main/js/tcia-about-new.js:220 | a role counts iff "Board Member" occurs in it at some position |
| TciaAboutNew.PopulateTeamMembers | main/js/tcia-about-new.js:216-262 | one card per member, in order; card i's back carries index i, and it is marked as a board member iff the role contains "Board Member" |
| TciaAboutNew.CardBackClick | main/js/tcia-about-new.js:245-256 | a click on card k's back opens the popup of member k |
| TciaAboutNew.CreatePillars | main/js/tcia-about-new.js:385-387 | no pillars on mobile or without an `#org-pillars` element; otherwise all four, pillar i in colour `tciaColors[i]` |
| About.DriftCard.constructor | main/js/about.js:320-328 | a card starts at its placed position with the given velocity |
| TciaAboutNew.PageWindow.constructor | main/js/tcia-about-new.js:2 | a fresh page has no `tciaInitialized` flag and has run the body no times |
| Carousel.Clamp | d4pg/d4pg-schedule/js/main.js:428-431 | the clamped index is in [0, n-1] for n ≥ 1, is the index itself when in range, the last slide above the range and 0 below it |
| Carousel.JsRem | notice-coalition/notice-glitch-lab/js/main.js:671-673 | JavaScript's `%`: the remainder takes the dividend's sign, lies strictly within ±n, and leaves a value already strictly within ±n unchanged |
| Carousel.WrapNext | notice-coalition/notice-glitch-lab/js/main.js:666 | `(i + 1) % n` stays within [0, n) and is i + 1 below the last item |
| Carousel.WrapPrev | notice-coalition/notice-glitch-lab/js/main.js:672 | `(i - 1 + n) % n` stays within [0, n) and is i - 1 + n from 0 down |
| Carousel.WrapInRange | notice-coalition/notice-glitch-lab/js/main.js:665-675 | from an index in range, `next()` moves one forward and wraps from the last item to 0, `prev()` one back and wraps from 0 to the last item; both stay in range |
| Carousel.WrapInverse | notice-coalition/notice-glitch-lab/js/main.js:665-675 | `prev()` undoes `next()` and `next()` undoes `prev()` |
| Carousel.NextTimesSteps | notice-coalition/notice-glitch-lab/js/main.js:665-669 | up to a full turn, k presses of next land on i+k, or i+k-n once past the last item |
| Carousel.FullTurn | notice-coalition/notice-glitch-lab/js/main.js:665-669 | n presses of next return to the start, and no fewer positive number of presses does |
| Carousel.Indicators | d4pg/d4pg-schedule/js/main.js:416-418 | one indicator per slide |
| Carousel.ExactlyOneIndicator | d4pg/d4pg-schedule/js/main.js:416-418 | with the index in range, the current indicator is active and no two indicators are |
| Carousel.CounterTextReads | d4pg/d4pg-schedule/js/main.js:421 | the counter text reads back, as a number, as the 1-based slide position, and ends with the slide count |
| Carousel.SideOf | notice-coalition/notice-glitch-lab/js/main.js:632-643 | an item is 'active' iff it is the current one, 'left' iff before it, 'right' iff after it |
| Carousel.Layout | notice-coalition/notice-glitch-lab/js/main.js:602-653 | one style per item |
| Carousel.OpacityTiers | main/fee-hub/main.js:616-625 | opacity never grows with the distance from the centre, is full only at the centre, the four-tier scheme never exceeds the three-tier one and the two agree within distance 2 |
| Carousel.LayoutShape | notice-coalition/notice-glitch-lab/js/main.js:602-653 | around an index in range exactly the current item is 'active' and on top; items before it are 'left', after it 'right', and the z-index is 10 minus the distance from the centre |
| Carousel.SlideCarousel.UpdateCarousel | d4pg/d4pg-schedule/js/main.js:410-426 | the indicators, counter and both buttons' disabled flags agree with the current slide |
| Carousel.SlideCarousel.GoToSlide | d4pg/d4pg-schedule/js/main.js:428-431 | the new slide is the clamped target, and the rendering agrees with it |
| Carousel.SlideCarousel.PrevClick | d4pg/d4pg-schedule/js/main.js:434-516 | at slide 0 the disabled button changes nothing; otherwise the slide moves back one and auto-advance pauses |
| Carousel.SlideCarousel.NextClick | d4pg/d4pg-schedule/js/main.js:441-522 | at the last slide the disabled button changes nothing; otherwise the slide moves forward one and auto-advance pauses |
| Carousel.SlideCarousel.IndicatorClick | d4pg/d4pg-schedule/js/main.js:448-530 | an indicator click shows that slide and pauses auto-advance |
| Carousel.SlideCarousel.StartAutoAdvance | d4pg/d4pg-schedule/js/main.js:470-481 | an interval runs afterwards iff the carousel is not paused |
| Carousel.SlideCarousel.Pause | d4pg/d4pg-schedule/js/main.js:483-493 | pausing sets the flag and clears the interval |
| Carousel.SlideCarousel.Resume | d4pg/d4pg-schedule/js/main.js:495-498 | resuming clears the flag and starts the interval |
| Carousel.SlideCarousel.ResumeDeferred | d4pg/d4pg-schedule-mobile/js/main.js:757-760 | the mobile resume clears the flag now and leaves the interval to the delayed restart |
| Carousel.SlideCarousel.AutoAdvanceTick | d4pg/d4pg-schedule/js/main.js:473-480 | a tick does nothing while paused, otherwise moves one slide forward, wrapping from the last to 0 |
| Carousel.AutoAdvanceIsWrapNext | d4pg/d4pg-schedule/js/main.js:473-480 | an unpaused tick is the wrap-around successor; a paused one keeps the slide |
| Carousel.Wheel.UpdatePositions | notice-coalition/notice-glitch-lab/js/main.js:598-662 | every item's style and every indicator agree with the current index |
| Carousel.Wheel.StartAutoRotate | notice-coalition/notice-glitch-lab/js/main.js:683-687 | starting registers one more interval and overwrites the handle |
| Carousel.Wheel.StopAutoRotate | notice-coalition/notice-glitch-lab/js/main.js:689-694 | stopping clears the interval the handle holds, if any, and forgets the handle |
| Carousel.Wheel.ResetAutoRotate | notice-coalition/notice-glitch-lab/js/main.js:696-699 | a reset keeps the number of live intervals (or adds the first one) and keeps a tidy wheel tidy |
| Carousel.Wheel.Next | notice-coalition/notice-glitch-lab/js/main.js:665-669 | wraps forward, redraws, restarts the timer |
| Carousel.Wheel.Prev | notice-coalition/notice-glitch-lab/js/main.js:671-675 | wraps backward, redraws, restarts the timer |
| Carousel.Wheel.GoTo | notice-coalition/notice-glitch-lab/js/main.js:677-681 | shows the chosen item, redraws, restarts the timer |
| Carousel.Wheel.AutoRotateTick | notice-coalition/notice-glitch-lab/js/main.js:684-686 | an interval firing is one `next()` |
| Carousel.Wheel.ArrowKey | notice-coalition/notice-glitch-lab/js/main.js:578-581 | ArrowRight is `next()`, ArrowLeft `prev()` |
| Carousel.Wheel.MouseEnter | notice-coalition/notice-glitch-lab/js/main.js:574 | hovering stops the tracked interval; on a tidy wheel none is left running |
| Carousel.Wheel.MouseLeave | notice-coalition/notice-glitch-lab/js/main.js:575 | leaving as written starts one more interval without clearing the tracked one |
| Carousel.Wheel.MouseLeaveReset | notice-coalition/notice-glitch-lab/js/main.js:575 | leaving with a reset keeps exactly one interval on a tidy wheel |
| Carousel.HoverArrowLeave | notice-coalition/notice-glitch-lab/js/main.js:574-581 | hover, an arrow key and leaving leave two intervals running |
| Carousel.HoverArrowLeaveReset | main/fee-hub/main.js:542-549 | with leaving as a reset, the same sequence leaves exactly one interval |
| Carousel.SlideCarousel.constructor | d4pg/d4pg-schedule/js/main.js:402-403 | a carousel starts on slide 0, unpaused, with auto-advance running |
| Carousel.Wheel.constructor | notice-coalition/notice-glitch-lab/js/main.js:548-596 | a wheel starts on item 0, drawn, with exactly one tracked interval |
| GalleryCache.SetCachedImages | d4pg/d4pg-home/js/main.js:988-995 | after caching, both entries are present and the stored list is the given one |
| GalleryCache.GetCachedImages | d4pg/d4pg-home/js/main.js:961-986 | a list is returned iff both entries exist and `now - timestamp < CACHE_DURATION`, unchanged and without touching storage; an expired pair is removed; with an entry missing storage is untouched |
| GalleryCache.CachedWithinHour | d4pg/d4pg-home/js/main.js:961-995 | a list cached at t is read back unchanged exactly while `now - t` is under one hour |
| GalleryCache.MissIsStable | d4pg/d4pg-home/js/main.js:978-982 | once a lookup misses, later lookups miss too and change nothing |
| GalleryCache.CleanUrl | d4pg/d4pg-home/js/main.js:951 | the cleaned URL is a prefix of the source without any '?', and a source without '?' is kept whole |
| GalleryCache.CleanUrlKeepsScheme | d4pg/d4pg-home/js/main.js:949-951 | cutting the query off an 'http…' URL keeps the 'http' prefix |
| GalleryCache.ParseImagesFromHtml | d4pg/d4pg-home/js/main.js:941-958 | the loop over the `.gallery img` elements collects exactly the scraped URL list |
| GalleryCache.ImageUrlsExactly | d4pg/d4pg-home/js/main.js:946-955 | a URL is scraped iff some element whose `data-src` (else `src`) starts with 'http' cleans to it; every scraped URL starts with 'http' and has no query string |
| GalleryCache.ImageUrlsMembers | d4pg/d4pg-home/js/main.js:946-955 | a URL is in the scraped list iff some element has an 'http' `data-src` (else `src`) that cleans to it |
| GalleryCache.ImageUrlsEmpty | d4pg/d4pg-home/js/main.js:946-955 | the scrape is empty iff no element has an 'http' source |
| GalleryCache.FetchGalleryImages | d4pg/d4pg-home/js/main.js:912-938 | a cache hit is shown with storage untouched; otherwise a non-empty scrape is shown and cached at `now`; otherwise (request failure or empty scrape) the fallback list is shown |
| GalleryCache.FetchedThenCached | d4pg/d4pg-home/js/main.js:912-938 | after a successful scrape, lookups during the next hour return the scraped list |
| GalleryCache.GalleryDrawer.OpenGallery | d4pg/d4pg-home/js/main.js:1037-1048 | opening shows the drawer; the first time (not yet loaded) the fetched list is appended and the spinner shows; later openings load nothing |
| GalleryCache.GalleryDrawer.LoadingDone | d4pg/d4pg-home/js/main.js:1106-1109 | the spinner hides and the gallery counts as loaded |
| GalleryCache.GalleryDrawer.CloseGallery | d4pg/d4pg-home/js/main.js:1050-1058 | the drawer closes |
| GalleryCache.GalleryDrawer.OpenImageModal | d4pg/d4pg-home/js/main.js:1126-1129 | the image modal opens |
| GalleryCache.GalleryDrawer.CloseImageModal | d4pg/d4pg-home/js/main.js:1131-1136 | the image modal closes |
| GalleryCache.GalleryDrawer.EscapePressed | d4pg/d4pg-home/js/main.js:1149-1157 | Escape closes the image modal if open, leaving the drawer; otherwise it closes the drawer |
| GalleryCache.GalleryDrawer.constructor | d4pg/d4pg-home/js/main.js:997 | the drawer and the image modal start closed, nothing loaded |
| ScheduleCore.FindBlock | d4pg/d4pg-schedule/js/main.js:176-179 | `timeBlocks.find(...)` returns the first block with the event's start and end time, or nothing when no block has them |
| ScheduleCore.GroupEventsByTime | d4pg/d4pg-schedule/js/main.js:169-196 | the loop builds exactly the grouping the specification function describes |
| ScheduleCore.GroupedPartitions | d4pg/d4pg-schedule/js/main.js:169-196 | the blocks partition the events: no two blocks share (start, end), each block holds exactly the events with its times in input order and is never empty, and every event has a block |
| ScheduleCore.GroupedKeepsCount | d4pg/d4pg-schedule/js/main.js:169-196 | the blocks together hold as many events as the input |
| ScheduleCore.Grouped | d4pg/d4pg-schedule/js/main.js:169-196 | never more blocks than events, and at least one block when there is an event |
| ScheduleCore.GroupedFirstOccurrenceOrder | d4pg/d4pg-schedule/js/main.js:186-190 | blocks appear in the order in which their times first occur in the input |
| ScheduleCore.NoneAt | d4pg/d4pg-schedule-mobile/js/main.js:162-180 | no events are collected for times no event has |
| ScheduleCore.FirstAt | d4pg/d4pg-schedule-mobile/js/main.js:164-167 | the first event with the given times, or none when no event has them |
| ScheduleCore.FirstAtSnoc | d4pg/d4pg-schedule-mobile/js/main.js:169-179 | appending an event keeps existing first occurrences and creates one for new times |
| ScheduleCore.TotalEventsAppend | d4pg/d4pg-schedule-mobile/js/main.js:174-178 | pushing a new block adds its events to the total |
| ScheduleCore.TotalEventsUpdate | d4pg/d4pg-schedule-mobile/js/main.js:169-171 | replacing a block changes the total by the difference of the two blocks' sizes |
| ScheduleDesktop.MatchClock | d4pg/d4pg-schedule/js/main.js:569-572 | a match splits the text at its colon into a one- or two-digit hour and exactly two minute digits |
| ScheduleDesktop.MatchClockComplete | d4pg/d4pg-schedule/js/main.js:569-570 | every "H:MM" and "HH:MM" text is matched, with exactly its hour and minute digits |
| ScheduleDesktop.FormatTimeTo12Hour | d4pg/d4pg-schedule/js/main.js:565-572 | an empty text, or one that is not "H:MM"/"HH:MM", comes back unchanged |
| ScheduleDesktop.FormatTimeTo12HourClock | d4pg/d4pg-schedule/js/main.js:574-585 | a matched time reads "h:MM AM/PM" with the 12-hour hour, the minute digits copied verbatim and the meridiem of the 24-hour hour; the label reads back as that hour |
| ScheduleDesktop.Hour12RoundTrip | d4pg/d4pg-schedule/js/main.js:576-583 | for hours 0..23 the 12-hour hour is in 1..12 and, with its meridiem, gives back the hour: 0 is 12 AM, 1-11 AM, 12 is 12 PM, 13-23 are 1-11 PM |
| ScheduleDesktop.Hour12 | d4pg/d4pg-schedule/js/main.js:579-583 | the 12-hour hour is positive, agrees with the hour modulo 12, and is at most 12 for hours up to 24 |
| ScheduleDesktop.SignificantWords | d4pg/d4pg-schedule/js/main.js:633-636 | a word is kept iff it is longer than two characters and not one of the listed honorifics |
| ScheduleDesktop.FirstMatch | d4pg/d4pg-schedule/js/main.js:624-640 | `find` returns the first bio the cleaned name matches, or nothing when none does |
| ScheduleDesktop.FindSpeakerInfo | d4pg/d4pg-schedule/js/main.js:616-650 | no bios data gives null; otherwise null iff no bio matches the trimmed lower-cased name, else the photo, title and name of the first matching bio |
| ScheduleDesktop.ExactNameFound | d4pg/d4pg-schedule/js/main.js:626-627 | a bio whose lower-cased name equals the cleaned name is always found (or an earlier match is) |
| ScheduleDesktop.NoSignificantWordMatchesFirst | d4pg/d4pg-schedule/js/main.js:633-639 | a name with no significant word matches every bio, so the first bio of a non-empty list is returned |
| ScheduleDesktop.HonorificOnlyExample | d4pg/d4pg-schedule/js/main.js:633-639 | "Dr. Li" is matched to the first bio, whoever it is |
| ScheduleDesktop.CleanDrLi | d4pg/d4pg-schedule/js/main.js:621 | "Dr. Li" cleans to "dr. li" |
| ScheduleDesktop.SplitDrLi | d4pg/d4pg-schedule/js/main.js:630 | "dr. li" splits on whitespace into "dr." and "li" |
| ScheduleDesktop.EmptyBioWordMatchesAll | d4pg/d4pg-schedule/js/main.js:638-639 | a bio name whose split holds an empty word matches every speaker name, since every word includes '' |
| ScheduleDesktop.RoleOr | d4pg/d4pg-schedule/js/main.js:709 | `title || role || fallback` is never empty when the fallback is not |
| ScheduleDesktop.Entries | d4pg/d4pg-schedule/js/main.js:707-710 | one entry per person, in order, with the person's name and defaulted role |
| ScheduleDesktop.PushAll | d4pg/d4pg-schedule/js/main.js:720-726 | the push loop appends exactly the entries of the listed people |
| ScheduleDesktop.RenderPeople | d4pg/d4pg-schedule/js/main.js:757-828 | no people render nothing; a panel with more than one person shows the first as moderator and the rest under "Panelists (n)"; otherwise one row per person, with a role line iff the role is non-empty |
| ScheduleDesktop.PeopleFieldEntries | d4pg/d4pg-schedule/js/main.js:701-727 | the entries taken from `event.people` are those the specification function lists |
| ScheduleDesktop.AddEventPeople | d4pg/d4pg-schedule/js/main.js:697-830 | the flattened list is the people, speakers, moderator and panelists in that order, and the section is its rendering |
| ScheduleDesktop.RolesFilledIn | d4pg/d4pg-schedule/js/main.js:707-754 | unless `event.people` is an array, every flattened person has a non-empty role |
| ScheduleDesktop.PeopleCount | d4pg/d4pg-schedule/js/main.js:701-754 | the list holds one entry per person of every source; a `people` object with speakers ignores its moderator; a `people` array is kept as given at the front |
| ScheduleDesktop.PeopleOf | d4pg/d4pg-schedule/js/main.js:701-754 | every speaker, the moderator and every panelist the event names is in the flattened list with its defaulted role |
| ScheduleDesktop.Without | d4pg/d4pg-schedule/js/main.js:1065-1074 | `filter(f => f !== x)` keeps exactly the other values, never grows, and keeps a duplicate-free list duplicate-free |
| ScheduleDesktop.NextActiveWellFormed | d4pg/d4pg-schedule/js/main.js:1014-1059 | every checkbox change keeps the active list either `['all']` or a non-empty duplicate-free list without 'all' (the one exception, when no "All" box exists, is excluded by the requires) |
| ScheduleDesktop.NextActiveCases | d4pg/d4pg-schedule/js/main.js:1014-1059 | unchecking the last specific filter reverts to `['all']`; unchecking "All" while other boxes are checked keeps the list; checking "All" gives `['all']` |
| ScheduleDesktop.NextActive | d4pg/d4pg-schedule/js/main.js:1014-1059 | checking a specific filter puts it in the list and removes 'all'; unchecking it removes it; no other specific filter changes |
| ScheduleDesktop.SidebarFilter.Change | d4pg/d4pg-schedule/js/main.js:1012-1065 | a change updates the active list as the rule function says and keeps the list well formed |
| ScheduleDesktop.ShowCards | d4pg/d4pg-schedule/js/main.js:972-985 | each workshop card is shown iff it meets both filters, and the flag says whether any is |
| ScheduleDesktop.ShowBlock | d4pg/d4pg-schedule/js/main.js:951-1003 | a block is shown exactly as the block rule says, and its cards are displayed as the card rule says for a concurrent block and left alone otherwise |
| ScheduleDesktop.UpdateEventVisibility | d4pg/d4pg-schedule/js/main.js:937-1008 | each block is shown as the block rule says; the cards of concurrent blocks as the card rule says; the "No events" message appears iff a timeline exists and no block is shown |
| ScheduleDesktop.AllShowsEverything | d4pg/d4pg-schedule/js/main.js:959-991 | with both filters at `['all']` every block is shown; a concurrent block with one passing card is shown whatever its combined attributes say |
| ScheduleDesktop.ListedValueActive | d4pg/d4pg-schedule/js/main.js:955-964 | a block whose comma-separated attribute lists an active value meets that filter |
| ScheduleDesktop.ClockPartsOfDigits | d4pg/d4pg-schedule/js/main.js:1434-1438 | "H:MM"/"HH:MM" texts split and parse to their hour and minute values |
| ScheduleDesktop.Windows | d4pg/d4pg-schedule/js/main.js:1431-1444 | one time window per event block, in order |
| ScheduleDesktop.LastCurrent | d4pg/d4pg-schedule/js/main.js:1426-1452 | the last block whose window holds `now`, or none iff no window does |
| ScheduleDesktop.FirstUpcoming | d4pg/d4pg-schedule/js/main.js:1455-1474 | the block with the earliest start after `now`, the first among equal starts, or none iff no block starts later |
| ScheduleDesktop.MarkCurrent | d4pg/d4pg-schedule/js/main.js:1426-1452 | exactly the blocks whose window holds `now` are marked, and the "happening now" title is the last such block's, or the default |
| ScheduleDesktop.PickUpcoming | d4pg/d4pg-schedule/js/main.js:1455-1474 | the "up next" title is the first-upcoming block's, or "No upcoming events" |
| ScheduleDesktop.UpdateCurrentEvents | d4pg/d4pg-schedule/js/main.js:1410-1483 | the two passes together: current marks, the happening-now title and the up-next title |
| ScheduleDesktop.DaytimeWindow | d4pg/d4pg-schedule/js/main.js:1440-1447 | for hours from 6 on with the end not before the start, a block is current iff start ≤ now < end in minutes past midnight |
| ScheduleDesktop.EarlyHoursAreAfternoon | d4pg/d4pg-schedule/js/main.js:1443-1444 | hours before 6 are read as afternoon: both ends move forward 12 hours |
| ScheduleDesktop.UnreadableNeverCurrent | d4pg/d4pg-schedule/js/main.js:1434-1447 | a block whose start hour or end minutes are NaN is never current |
| ScheduleDesktop.SidebarFilter.constructor | d4pg/d4pg-schedule/js/main.js:933-934 | the sidebar starts with the list `['all']` |
| ScheduleMobile.NumberOf | d4pg/d4pg-schedule-mobile/js/main.js:70-73 | `Number` of a blank piece is 0 |
| ScheduleMobile.NumberOfDigits | d4pg/d4pg-schedule-mobile/js/main.js:70-73 | `Number` of a run of digits is its decimal value |
| ScheduleMobile.TimeToMinutesOfDigits | d4pg/d4pg-schedule-mobile/js/main.js:70-73 | "H:M" of digit runs is H·60 + M minutes |
| ScheduleMobile.TimeToMinutes | d4pg/d4pg-schedule-mobile/js/main.js:70-73 | a number of minutes is never negative, and a time without a colon is NaN (its minutes are `undefined`) |
| ScheduleMobile.MinutesOfDigits | d4pg/d4pg-schedule-mobile/js/main.js:71-72 | the two numeric pieces combine into hours·60 + minutes |
| ScheduleMobile.FormatTimeOfClock | d4pg/d4pg-schedule-mobile/js/main.js:135-142 | an hour of digits, a colon and minute digits read as "h:MM AM/PM": the 12-hour hour, the minutes verbatim and the meridiem of the hour |
| ScheduleMobile.FormatTimeAgrees | d4pg/d4pg-schedule-mobile/js/main.js:135-142 | on "H:MM"/"HH:MM" the mobile label equals the desktop page's 12-hour label |
| ScheduleMobile.FormatTimeWithoutColon | d4pg/d4pg-schedule-mobile/js/main.js:135-142 | on a text without a colon the mobile label is "NaN:undefined AM" while the desktop page returns the text unchanged |
| ScheduleMobile.FormatTime | d4pg/d4pg-schedule-mobile/js/main.js:135-142 | every label ends in " AM" or " PM" |
| ScheduleMobile.GetLocationDisplayName | d4pg/d4pg-schedule-mobile/js/main.js:144-156 | a known location key maps to its display name, any other key to itself |
| ScheduleMobile.LocationNamesDistinct | d4pg/d4pg-schedule-mobile/js/main.js:145-154 | distinct known keys have distinct display names |
| ScheduleMobile.Workshops | d4pg/d4pg-schedule-mobile/js/main.js:237-358 | keeps exactly the block's events of type 'workshop' |
| ScheduleMobile.NonWorkshops | d4pg/d4pg-schedule-mobile/js/main.js:369 | keeps exactly the block's events of another type |
| ScheduleMobile.WorkshopSplit | d4pg/d4pg-schedule-mobile/js/main.js:358-369 | the workshop and non-workshop selections together count every event once |
| ScheduleMobile.Locations | d4pg/d4pg-schedule-mobile/js/main.js:246 | the carousel's location list is the workshops' locations in order |
| ScheduleMobile.Cards | d4pg/d4pg-schedule-mobile/js/main.js:370-382 | one card per event, in order |
| ScheduleMobile.CreateConcurrentWorkshopsCarousel | d4pg/d4pg-schedule-mobile/js/main.js:236-238 | a carousel exists exactly when the block has more than one workshop, and holds exactly those workshops |
| ScheduleMobile.RenderDayEvents | d4pg/d4pg-schedule-mobile/js/main.js:344-394 | a missing or empty day shows only the no-events message; otherwise the items are those of the grouped blocks |
| ScheduleMobile.ShownAppend | d4pg/d4pg-schedule-mobile/js/main.js:355-394 | the count of shown events adds over concatenated items |
| ScheduleMobile.ShownCards | d4pg/d4pg-schedule-mobile/js/main.js:379-382 | cards of n events show n events |
| ScheduleMobile.BlockShowsAll | d4pg/d4pg-schedule-mobile/js/main.js:361-383 | a rendered block shows each of its events exactly once, whether as a carousel slide or a card |
| ScheduleMobile.ItemsShowAll | d4pg/d4pg-schedule-mobile/js/main.js:355-384 | the items of all blocks show as many events as the blocks hold |
| ScheduleMobile.RenderShowsEveryEvent | d4pg/d4pg-schedule-mobile/js/main.js:344-394 | rendering a day shows every event of the day exactly once |
| ScheduleMobile.FilterSlides | d4pg/d4pg-schedule-mobile/js/main.js:563-593 | each slide is shown exactly when its location passes the filter, and the count is zero exactly when none passes |
| ScheduleMobile.FilterEvents | d4pg/d4pg-schedule-mobile/js/main.js:516-598 | each card is shown exactly when it passes the type and location filters; each workshop container's visibility and whether its slides are filtered follow the container rules |
| ScheduleMobile.FilterCards | d4pg/d4pg-schedule-mobile/js/main.js:520-541 | one flag per event card, each shown exactly when the card passes the type and location filters |
| ScheduleMobile.NoFilterShowsAll | d4pg/d4pg-schedule-mobile/js/main.js:525-555 | with no active pill, or 'all'/'All', every card and container is shown |
| ScheduleMobile.OtherTypeHidesWorkshops | d4pg/d4pg-schedule-mobile/js/main.js:550-552 | a type filter other than 'all' and 'workshop' hides every workshop container |
| ScheduleMobile.SpansAt | d4pg/d4pg-schedule-mobile/js/main.js:116-118 | the span of event i is its start and end minutes |
| ScheduleMobile.FirstHappening | d4pg/d4pg-schedule-mobile/js/main.js:115-123 | finds the first event, from a position on, whose span contains the minute, and none before it |
| ScheduleMobile.FirstHappeningSkips | d4pg/d4pg-schedule-mobile/js/main.js:115-123 | an event not happening is skipped |
| ScheduleMobile.UpdateCurrentEvent | d4pg/d4pg-schedule-mobile/js/main.js:92-132 | outside the conference or without the day's events nothing is marked; otherwise the mark is the first event happening now |
| ScheduleMobile.CurrentId | d4pg/d4pg-schedule-mobile/js/main.js:111-123 | a marked id is that of an event happening now; none is marked iff no event is happening |
| ScheduleMobile.FirstStartingAfter | d4pg/d4pg-schedule-mobile/js/main.js:1133-1138 | finds the first event, from a position on, starting after the minute, and none before it |
| ScheduleMobile.GetUpcomingEvent | d4pg/d4pg-schedule-mobile/js/main.js:1118-1147 | outside the conference or without the day's events the result is null; otherwise the upcoming event of the loaded days |
| ScheduleMobile.UpcomingStartsLater | d4pg/d4pg-schedule-mobile/js/main.js:1133-1146 | the upcoming event is the first of today's events starting after now, every earlier event starting no later; on day 3 with none left there is none |
| ScheduleMobile.Upcoming | d4pg/d4pg-schedule-mobile/js/main.js:1130-1144 | the upcoming event is one of today's, or else the first event of the next loaded, non-empty day |
| ScheduleMobile.Countdown | d4pg/d4pg-schedule-mobile/js/main.js:1085-1093 | the countdown is shown exactly while the difference is positive |
| ScheduleMobile.CountdownDecomposes | d4pg/d4pg-schedule-mobile/js/main.js:1096-1099 | days, hours < 24, minutes < 60 and seconds < 60 add up to the difference rounded down to the second |
| ScheduleMobile.Pad2 | d4pg/d4pg-schedule-mobile/js/main.js:1102-1105 | `padStart(2, '0')` is at least two characters and leaves numbers from 10 up unchanged |
| ScheduleMobile.Pad2ReadsBack | d4pg/d4pg-schedule-mobile/js/main.js:1102-1105 | below 100 the padded text has two characters and reads back as the number |
| ScheduleMobile.SwipeTarget | d4pg/d4pg-schedule-mobile/js/main.js:703-722 | a swipe moves at most one slide: back exactly for a mostly horizontal rightward drag over 30% of the width off the first slide, forward for a leftward one off the last, and the slide stays in range |
| ScheduleMobile.SwipeTracker.TouchStart | d4pg/d4pg-schedule-mobile/js/main.js:661-781 | records the start point, starts swiping and pauses auto-advance; the end point is kept as it was |
| ScheduleMobile.SwipeTracker.TouchMove | d4pg/d4pg-schedule-mobile/js/main.js:670-694 | while swiping, records the end point; otherwise nothing |
| ScheduleMobile.SwipeTracker.TouchEnd | d4pg/d4pg-schedule-mobile/js/main.js:696-729 | when swiping, the carousel goes to the swipe target of the recorded points; otherwise it stays |
| ScheduleMobile.TapTurnsSlide | d4pg/d4pg-schedule-mobile/js/main.js:661-722 | as written, a tap on a fresh three-slide carousel turns it to the second slide |
| ScheduleMobile.SwipeTracker.TouchStartReset | d4pg/d4pg-schedule-mobile/js/main.js:661-668 | with the end point reset to the start, a touch start records both |
| ScheduleMobile.TapKeepsSlide | d4pg/d4pg-schedule-mobile/js/main.js:661-722 | with the reset, a tap never turns the carousel |
| ScheduleMobile.SwipeTracker.constructor | d4pg/d4pg-schedule-mobile/js/main.js:655-659 | both points start at 0, not swiping |
| D4pgHome.SpeakersPerPage | d4pg/d4pg-home/js/main.js:44-54 | the speakers per page are 1 to 4 by width band |
| D4pgHome.SpeakersPerPageMonotone | d4pg/d4pg-home/js/main.js:44-54 | a wider window never shows fewer speakers per page |
| D4pgHome.TotalPages | d4pg/d4pg-home/js/main.js:56 | `Math.ceil(count / perPage)`: the least page count whose pages cover every speaker |
| D4pgHome.PagesPartition | d4pg/d4pg-home/js/main.js:75-103 | every speaker belongs to exactly one page, and that page is in range |
| D4pgHome.PageNeverEmpty | d4pg/d4pg-home/js/main.js:75-92 | every page in range shows at least its first speaker |
| D4pgHome.SpeakerPager.constructor | d4pg/d4pg-home/js/main.js:38-41 | page 0 of 0, four per page, no auto-scroll, the markup's initial display |
| D4pgHome.SpeakerPager.CalculateSpeakersPerPage | d4pg/d4pg-home/js/main.js:44-57 | sets the speakers per page for the width and the page count for it |
| D4pgHome.SpeakerPager.UpdateArrowVisibility | d4pg/d4pg-home/js/main.js:60-69 | without arrows or with at most one page both arrows hide; otherwise the left hides on the first page and the right on the last |
| D4pgHome.SpeakerPager.ShowCurrentPage | d4pg/d4pg-home/js/main.js:72-111 | with speakers, exactly the current page's speakers are displayed and the arrows updated; with none nothing changes |
| D4pgHome.SpeakerPager.GoToPage | d4pg/d4pg-home/js/main.js:114-119 | a page in range becomes current and is rendered; any other page number changes nothing |
| D4pgHome.SpeakerPager.ScrollSpeakers | d4pg/d4pg-home/js/main.js:122-137 | stops auto-scroll; 'left' goes back a page unless on the first, 'right' forward unless on the last, anything else stays; a page turn shows exactly that page's speakers and hides the arrows at the ends, and no turn leaves the display as it was |
| D4pgHome.SpeakerPager.StartAutoScroll | d4pg/d4pg-home/js/main.js:139-151 | auto-scroll runs exactly when there is more than one page |
| D4pgHome.SpeakerPager.AutoScrollTick | d4pg/d4pg-home/js/main.js:143-149 | one tick moves to the next page, wrapping from the last to the first, and shows exactly that page's speakers with the arrows hidden at the ends |
| D4pgHome.SpeakerPager.InitializeCarousel | d4pg/d4pg-home/js/main.js:153-160 | with speakers: computes the paging, renders page 0 and auto-scrolls when there are several pages; with none nothing changes |
| D4pgHome.SpeakerPager.Resize | d4pg/d4pg-home/js/main.js:163-170 | recomputes the paging, clamps the page to the last one and re-renders |
| D4pgHome.SpeakerPager.MouseEnter | d4pg/d4pg-home/js/main.js:174 | hovering stops auto-scroll |
| D4pgHome.WorkshopCarousel.constructor | d4pg/d4pg-home/js/main.js:640-668 | the workshop index starts at 0 |
| D4pgHome.WorkshopCarousel.NavigateCarousel | d4pg/d4pg-home/js/main.js:687-689 | the index moves by the direction modulo the day's workshop count, NaN for an empty day |
| D4pgHome.NavigateWraps | d4pg/d4pg-home/js/main.js:687-689 | one step forward or back wraps around and stays in range |
| D4pgHome.FormatTime | d4pg/d4pg-home/js/main.js:855-858 | only an empty time gives an empty label |
| D4pgHome.Label | d4pg/d4pg-home/js/main.js:860-870 | a label is never empty |
| D4pgHome.LabelIsTwelveHour | d4pg/d4pg-home/js/main.js:860-870 | the label is the 12-hour hour, the minutes and the meridiem |
| D4pgHome.FormatTimeOfClock | d4pg/d4pg-home/js/main.js:855-871 | an hour of digits, a colon and minute digits give the label of that hour with the minutes verbatim, "00" standing in for missing minutes |
| D4pgHome.FormatTimeAgrees | d4pg/d4pg-home/js/main.js:855-871 | on "H:MM"/"HH:MM" the home page's label equals the schedule page's |
| D4pgHome.FormatTimeHourOnly | d4pg/d4pg-home/js/main.js:857-860 | a time with no minutes reads ":00" |
| D4pgHome.WorkshopMeansNoKeyword | d4pg/d4pg-home/js/main.js:824-846 | the generic "Workshop" tag is given exactly when the title holds none of the keywords |
| D4pgHome.TrainingTaggedAiEthics | d4pg/d4pg-home/js/main.js:830 | as written, a workshop titled "Training" is tagged "AI Ethics", because "training" contains "ai" |
| D4pgHome.GenerateWorkshopTag | d4pg/d4pg-home/js/main.js:824-846 | the tag is one of the nine names; a title containing "data" or "sovereignty" is always "Data Justice"; "Workshop" only when neither "community" nor "ai" occurs |
| D4pgHome.FindWord | d4pg/d4pg-home/js/main.js:830 | finds the first whole-word occurrence from a position on, and none before it |
| D4pgHome.GenerateWorkshopTagWords | d4pg/d4pg-home/js/main.js:824-846 | the corrected tag: "AI Ethics" only for "ai" as a word of its own or "algorithm" |
| D4pgHome.WordTagRefinesTag | d4pg/d4pg-home/js/main.js:824-846 | where whole-word and substring "ai" agree, the corrected tag equals the written one |
| D4pgHome.TrainingTaggedWorkshop | d4pg/d4pg-home/js/main.js:824-846 | the corrected tag of "Training" is "Workshop" |
| D4pgHome.FormatPresenters | d4pg/d4pg-home/js/main.js:848-853 | no people, no speaker list or an empty one reads "Presenters TBD" |
| D4pgHome.PresentersNamesEveryone | d4pg/d4pg-home/js/main.js:852 | the presenters line names every speaker, and a single speaker alone |
| D4pgHome.PresentersJoinNames | d4pg/d4pg-home/js/main.js:848-853 | with speakers listed and no name holding '&', the line is exactly the names in order separated by " & ": splitting it on " & " gives the names back |
| InternSearch.FilterPositions | main/intern-search/js/main.js:210-226 | keeps exactly the positions whose title or department contains the term (ignoring case), whose lower-cased department is ticked or no department is, and whose type is ticked or no type is |
| InternSearch.FilterAppend | main/intern-search/js/main.js:210-211 | the filter distributes over concatenation, so the list keeps its order |
| InternSearch.NoFilterListsAll | main/intern-search/js/main.js:210-226 | with nothing searched or ticked every position is listed |
| InternSearch.DepartmentWidening | main/intern-search/js/main.js:217-218 | ticking one more department never hides a listed position |
| InternSearch.RegularListsNothing | main/intern-search/js/main.js:7-200 | ticking only the "regular" type lists no shipped position, whatever is searched |
| InternSearch.Toggle | main/intern-search/js/main.js:283-287 | ticking adds the value and unticking removes it, leaving the other values |
| InternSearch.ToggleIdempotent | main/intern-search/js/main.js:283-287 | repeating the same change changes nothing more |
| InternSearch.ToggleUndo | main/intern-search/js/main.js:283-287 | unticking a newly ticked value restores the set |
| InternSearch.SearchPage.constructor | main/intern-search/js/main.js:228-250 | the page starts with no filters and lists every position |
| InternSearch.SearchPage.CheckboxChange | main/intern-search/js/main.js:278-296 | a checkbox change toggles its value in its own group only and re-lists by every filter |
| InternSearch.SearchPage.SearchInput | main/intern-search/js/main.js:301-305 | typing changes the search term only and re-lists by every filter |
| InternSearch.FindByTitle | main/intern-search/js/main.js:374 | finds the first position with the title, and is none exactly when no position has it |
| InternSearch.Submit | main/intern-search/js/main.js:367-409 | no matching position, or no form, changes nothing; the first position with the title is refused exactly when its id is already applied; it is applied exactly when it exists, its id is not yet applied and the button sits in a form, and then exactly its id is appended |
| InternSearch.SubmitKeepsNoDuplicates | main/intern-search/js/main.js:380-395 | the applied list never holds an id twice |
| InternSearch.SecondSubmitRefused | main/intern-search/js/main.js:380-386 | a second submission for the same position is refused |
| InternSearch.ApplyButtonFor | main/intern-search/js/main.js:488-520 | the apply button is disabled and reads "Application Submitted" exactly for an applied id, and "Apply Now" otherwise |
| InternSearch.AppliedDisablesButton | main/intern-search/js/main.js:392-494 | after applying, the position's button is disabled |
| InternSearch.Dropdowns.constructor | main/intern-search/js/main.js:252-276 | every dropdown starts closed and inactive |
| InternSearch.Dropdowns.CloseAll | main/intern-search/js/main.js:450-457 | every dropdown and button is closed and inactive |
| InternSearch.Dropdowns.ButtonClick | main/intern-search/js/main.js:317-330 | the clicked dropdown toggles, its button active exactly when open, and every other dropdown closes |
| InternSearch.Dropdowns.OutsideClick | main/intern-search/js/main.js:309-313 | a click outside the dropdowns closes every dropdown and makes every filter button inactive |
| Fellowship.FellowNameOfAlt | notice-coalition/notice-fellowship/js/main.js:110 | removing the "NDAUWU Fellow " prefix from a card's alt text gives back the fellow's name |
| Fellowship.FellowName | notice-coalition/notice-fellowship/js/main.js:110 | an alt text without the "NDAUWU Fellow " prefix text is kept; with it, the name is that much shorter |
| Fellowship.FellowModal.constructor | notice-coalition/notice-fellowship/js/main.js:1-105 | the biography modal starts closed with the page scrollable |
| Fellowship.FellowModal.CardClick | notice-coalition/notice-fellowship/js/main.js:107-131 | a card of a known fellow opens the modal with the name, location and biography paragraphs and locks scrolling; an unknown name changes nothing |
| Fellowship.FellowModal.Close | notice-coalition/notice-fellowship/js/main.js:134-144 | the close button or a click on the backdrop closes the modal and releases scrolling |
| Fellowship.CardsPerView | notice-coalition/notice-fellowship/js/main.js:289-296 | one card per view up to 768 pixels, two up to 1024, three beyond |
| Fellowship.CardsPerViewMonotone | notice-coalition/notice-fellowship/js/main.js:289-296 | a wider window never shows fewer cards |
| Fellowship.IndicatorCount | notice-coalition/notice-fellowship/js/main.js:211 | there is at least one indicator, one per reachable index |
| Fellowship.EssayCarousel.constructor | notice-coalition/notice-fellowship/js/main.js:152-154 | no essays, index 0, three cards per view |
| Fellowship.EssayCarousel.UpdateIndicators | notice-coalition/notice-fellowship/js/main.js:209-222 | the indicators are one per reachable index, exactly the current one active |
| Fellowship.EssayCarousel.UpdateCarousel | notice-coalition/notice-fellowship/js/main.js:188-207 | a single essay hides the navigation and centres it; otherwise the strip is offset by the index, prev is dimmed on the first index and next once the last cards are in view |
| Fellowship.EssayCarousel.UpdateCardsPerView | notice-coalition/notice-fellowship/js/main.js:289-303 | the cards per view follow the width, and an index past the last reachable one is clamped to it |
| Fellowship.EssayCarousel.InitCarousel | notice-coalition/notice-fellowship/js/main.js:224-287 | loads the essays and sets up the view for the width |
| Fellowship.EssayCarousel.PrevClick | notice-coalition/notice-fellowship/js/main.js:305-310 | goes back one index unless on the first |
| Fellowship.EssayCarousel.NextClick | notice-coalition/notice-fellowship/js/main.js:312-317 | goes forward one index while cards remain beyond the view |
| Fellowship.EssayCarousel.IndicatorClick | notice-coalition/notice-fellowship/js/main.js:216-219 | an indicator makes its index the current one |
| Fellowship.DimmedAtEnds | notice-coalition/notice-fellowship/js/main.js:200-201 | with several essays, next is dimmed exactly at the last reachable index |
| Fellowship.OneIndicatorLit | notice-coalition/notice-fellowship/js/main.js:209-222 | a rendered carousel lights exactly the current index's indicator |
| Fellowship.CreateEssayCard | notice-coalition/notice-fellowship/js/main.js:172-186 | only the first card is marked latest; a missing id, image, source, excerpt or date falls back to 'default', the default image, 'NOTICE Coalition', the default excerpt or 'Coming Soon' |
| Fellowship.EssayCards | notice-coalition/notice-fellowship/js/main.js:275 | one card per essay, in order |
| Fellowship.OnlyFirstIsLatest | notice-coalition/notice-fellowship/js/main.js:173 | exactly the first card is marked latest |
| Fellowship.FindEssay | notice-coalition/notice-fellowship/js/main.js:281 | finds the first essay with the id, and is none exactly when no essay has it |
| Fellowship.CardWithIdOpens | notice-coalition/notice-fellowship/js/main.js:278-285 | a card of an essay with an id opens an essay with that id |
| Fellowship.CardWithoutIdOpensNothing | notice-coalition/notice-fellowship/js/main.js:175-285 | a card of an essay without an id carries 'default' and opens nothing when no essay has that id |
| Fellowship.AuthorImage | notice-coalition/notice-fellowship/js/main.js:348 | a known author's image, or the default image for an unknown one |
| Fellowship.Authors | notice-coalition/notice-fellowship/js/main.js:339 | the byline split at " & ", each name trimmed |
| Fellowship.AuthorsCoverByline | notice-coalition/notice-fellowship/js/main.js:339 | the split pieces joined with " & " give back the byline |
| Fellowship.SingleAuthor | notice-coalition/notice-fellowship/js/main.js:339 | a byline without " & " names one author |
| Fellowship.Portraits | notice-coalition/notice-fellowship/js/main.js:340-352 | one portrait per author with its image, on the left for even positions and the right for odd |
| Fellowship.PortraitsAlternate | notice-coalition/notice-fellowship/js/main.js:342 | consecutive portraits sit on opposite sides |
| Fellowship.ExternalLinks | notice-coalition/notice-fellowship/js/main.js:439-463 | a Substack link exactly for a non-blank Substack URL and a Medium link exactly for a non-blank Medium URL, Substack first |
| Steam.SwipeOf | main/steam/js/main.js:352-362 | a drag of more than 50 pixels leftward is a swipe to the next video, rightward to the previous, and anything shorter is none |
| Steam.SwipeReverses | main/steam/js/main.js:352-362 | reversing a drag reverses its direction and keeps a non-swipe a non-swipe |
| Steam.VideoCarousel.constructor | main/steam/js/main.js:210-336 | starts on slide 0, drawn, with the modal closed and no touch |
| Steam.VideoCarousel.UpdateCarousel | main/steam/js/main.js:239-253 | the track is offset by the slide, exactly the current indicator is active, prev is disabled on the first slide and next on the last |
| Steam.VideoCarousel.GoToSlide | main/steam/js/main.js:255-258 | the slide is clamped into range and drawn |
| Steam.VideoCarousel.NextSlide | main/steam/js/main.js:260-265 | forward one slide unless on the last; never wraps |
| Steam.VideoCarousel.PrevSlide | main/steam/js/main.js:267-272 | back one slide unless on the first; never wraps |
| Steam.VideoCarousel.OpenVideoModal | main/steam/js/main.js:274-288 | the modal opens on the clicked video |
| Steam.VideoCarousel.CloseVideoModal | main/steam/js/main.js:290-309 | the modal closes |
| Steam.VideoCarousel.KeyDown | main/steam/js/main.js:312-322 | keys do nothing while the modal is closed; with it open, Escape closes it and the arrows move one slide without closing it |
| Steam.VideoCarousel.TouchStart | main/steam/js/main.js:338-341 | records the start and starts dragging; the last move point is kept |
| Steam.VideoCarousel.TouchMove | main/steam/js/main.js:343-347 | while dragging, records the point |
| Steam.VideoCarousel.TouchEnd | main/steam/js/main.js:349-364 | a drag ends with the swipe's slide change, or none |
| Steam.TapTurnsVideo | main/steam/js/main.js:338-364 | as written, a first tap with no movement is read as a swipe from the initial move point 0 and turns a three-video carousel to its second video |
| Steam.VideoCarousel.TouchStartReset | main/steam/js/main.js:338-341 | with the move point reset to the start, a touch start records both |
| Steam.TapKeepsVideo | main/steam/js/main.js:338-364 | with the reset, a tap never turns the carousel |
| GlitchLab.HeroImage.constructor | notice-coalition/notice-glitch-lab/js/main.js:16-89 | the still image is up and no switch has happened; a timer is pending exactly when the image element exists, and then the first switch is 20 s away; without the element no timer is set |
| GlitchLab.HeroImage.AlternateHeroImage | notice-coalition/notice-glitch-lab/js/main.js:20-65 | every call counts a switch; with the image present it flips between still and GIF and schedules the next switch 2 s after the GIF goes up and 20 s after the still returns; without it nothing else changes and no timer is pending |
| GlitchLab.Timeline | notice-coalition/notice-glitch-lab/js/main.js:69-75 | the GIF goes up at 20 s, 42 s, 64 s, … and the still returns 2 s after each |
| GlitchLab.LoadGalleryPreview | notice-coalition/notice-glitch-lab/js/main.js:711-740 | slot i shows image i when there is one and "Coming Soon" otherwise |
| FeeHub.CardExpansion.constructor | main/fee-hub/main.js:50-53 | every card sits in its grid and none is expanded |
| FeeHub.CardExpansion.CollapseCard | main/fee-hub/main.js:75-118 | the card goes back before its saved next sibling, or to the end of its saved parent; the overlay and scroll lock go off and nothing is expanded |
| FeeHub.CardExpansion.ExpandCard | main/fee-hub/main.js:56-72 | an expanded card is collapsed first; the card's place is saved, it moves to the body, and the overlay and scroll lock go on |
| FeeHub.CardExpansion.CardClick | main/fee-hub/main.js:99-112 | a click on the expanded card or on a card's actions changes nothing; any other click expands the card |
| FeeHub.CardExpansion.Dismiss | main/fee-hub/main.js:122-133 | the overlay click and Escape collapse the expanded card, if any |
| FeeHub.ExpandCollapseRestores | main/fee-hub/main.js:56-93 | expanding a card and collapsing it again puts every card back where it was |
| FeeHub.Nav.constructor | main/fee-hub/main.js:20-29 | the menu starts collapsed |
| FeeHub.Nav.Toggle | main/fee-hub/main.js:25-28 | aria-expanded flips between "true" and "false" and the menu's active class toggles; when they agree they keep agreeing |
| FeeHub.Nav.Scroll | main/fee-hub/main.js:8-18 | the nav is 'scrolled' exactly past 50 pixels |
| FeeHub.ToggleTwice | main/fee-hub/main.js:25-28 | two toggles restore the menu |
| FeeHub.CeilDiv40 | main/fee-hub/main.js:290-291 | `Math.ceil(length / 40)`: the least number of 40-pixel squares covering the length |
| FeeHub.GridRow | main/fee-hub/main.js:296-306 | one row of squares, one per column in order |
| FeeHub.Grid | main/fee-hub/main.js:296-308 | the grid holds rows × columns squares |
| FeeHub.GridAt | main/fee-hub/main.js:295-308 | the square at row-major position row·cols+col is the square of that row and column |
| FeeHub.GenerateSquareGrid | main/fee-hub/main.js:289-309 | the squares are the grid of the canvas's ceiling row and column counts, row by row |
| FeeHub.SquareIdRoundTrip | main/fee-hub/main.js:305 | a square's id "row_col" splits back into its row and column |
| FeeHub.SquareIdsDistinct | main/fee-hub/main.js:305 | distinct squares have distinct ids |
| FeeHub.SquareId | main/fee-hub/main.js:305 | the id "row_col" reads back, as a number, as the row, and ends with the column |
| FeeHub.TwinkleLasts | main/fee-hub/main.js:440-457 | a twinkle started at frame 0 keeps twinkling for 179 frames and stops on the 180th, with its counter and glow reset |
| FeeHub.TwinkleStep | main/fee-hub/main.js:440-452 | a square not twinkling is unchanged; a twinkling one advances one frame, and stops (frame 0, glow reset) exactly when that frame reaches the 180-frame duration |
| FeeHub.AnimateTwinkles | main/fee-hub/main.js:439-458 | each square advances by one animation step |
| Speakers.IndexOfId | d4pg/d4pg-speakers/js/main.js:66 | finds the first speaker, from a position on, with the id, and none before it |
| Speakers.FindSpeakerById | d4pg/d4pg-speakers/js/main.js:64-67 | no data gives none; otherwise the first speaker with the id, or none exactly when no speaker has it |
| Speakers.SocialIcon | d4pg/d4pg-speakers/js/main.js:70-87 | the chain-link glyph exactly for a type outside the ten known platforms; an SVG icon exactly for a known type other than bluesky and website |
| Speakers.PlatformName | d4pg/d4pg-speakers/js/main.js:89-103 | "Link" exactly for a type outside the ten known platforms; a known type is named by its platform name, which lower-cases to the type |
| Speakers.StripScheme | d4pg/d4pg-speakers/js/main.js:118 | removing the scheme never lengthens the URL |
| Speakers.StripSchemeOf | d4pg/d4pg-speakers/js/main.js:118 | "http://", "https://" and a following "www." are removed; a bare "www." stays |
| Speakers.WebsiteText | d4pg/d4pg-speakers/js/main.js:118 | a website link shows its display text, or its URL without the scheme |
| Speakers.CreateSocialLinks | d4pg/d4pg-speakers/js/main.js:106-140 | no links give no card; otherwise a card under the heading with one anchor per link to its URL, titled by its platform, with icon and text exactly for websites |
| Speakers.SocialCards | d4pg/d4pg-speakers/js/main.js:242-259 | at most the personal card, the organisation's card and one per organisation, the personal links first under "Personal Links" |
| Speakers.SocialCardsOrder | d4pg/d4pg-speakers/js/main.js:242-259 | the block is the personal card if there are personal links, then the organisation's card if it has links, then one card per organisation with links in order; so there are exactly as many cards as groups with links |
| Speakers.SocialCardsAppend | d4pg/d4pg-speakers/js/main.js:256-259 | the cards for organisations `a + b` are those for `a` followed by one card per entry of `b` that has links |
| Speakers.SocialCardsSnoc | d4pg/d4pg-speakers/js/main.js:257-259 | one more organisation adds its card at the end, and only if it has links |
| Speakers.OrgCardsLinked | d4pg/d4pg-speakers/js/main.js:256-259 | the k-th organisation card is headed by the k-th organisation with links and has one anchor per link of it |
| Speakers.OrgCardsAppend | d4pg/d4pg-speakers/js/main.js:257-259 | the `forEach` over organisations adds their cards in the list's order |
| Speakers.CreatePromotionalContent | d4pg/d4pg-speakers/js/main.js:143-179 | no promotional data or no books give nothing; otherwise one panel per book with its title, its "… book cover" alt text and a description exactly when the book has one |
| Speakers.Run | d4pg/d4pg-speakers/js/main.js:406-417 | the greedy run of characters other than the stop character, ending at the stop or the end |
| Speakers.PairAt | d4pg/d4pg-speakers/js/main.js:411-417 | a bold or underline match ends after its start and within the text |
| Speakers.MatchAt | d4pg/d4pg-speakers/js/main.js:406-417 | a match of any of the four rules ends after its start and within the text |
| Speakers.ItalicAt | d4pg/d4pg-speakers/js/main.js:414 | an italic match ends after its start and within the text (its result is stated by ItalicMatch and FormatItalic) |
| Speakers.LinkAt | d4pg/d4pg-speakers/js/main.js:406-408 | a link match ends after its start and within the text (its result is stated by LinkMatch and FormatLink) |
| Speakers.RewritePlain | d4pg/d4pg-speakers/js/main.js:406-417 | text without a rule's opening character comes out of that rule unchanged |
| Speakers.FormatParagraph | d4pg/d4pg-speakers/js/main.js:404-419 | a paragraph without '[', '*' or '_' is not changed (each of the four conversions is stated by FormatLink, FormatBold, FormatItalic and FormatUnderline) |
| Speakers.BoldMatch | d4pg/d4pg-speakers/js/main.js:411 | "**b**" matches bold as a whole and becomes a strong element |
| Speakers.StrongPlain | d4pg/d4pg-speakers/js/main.js:411-417 | the strong element of plain text holds no markup character for the later rules |
| Speakers.FormatBold | d4pg/d4pg-speakers/js/main.js:404-419 | a paragraph "**b**" of plain text formats to exactly the strong element |
| Speakers.FormatItalic | d4pg/d4pg-speakers/js/main.js:413-414 | a paragraph "*i*" of plain text formats to exactly `<em class="bio-italic">i</em>`, untouched by the bold rule before it and the underline rule after it |
| Speakers.FormatUnderline | d4pg/d4pg-speakers/js/main.js:416-417 | a paragraph "__u__" of plain text formats to exactly `<u class="bio-underline">u</u>` |
| Speakers.FormatLink | d4pg/d4pg-speakers/js/main.js:405-408 | a paragraph "[t](u)" of plain text t without ']' and plain URL u without ')' formats to exactly the bio-link anchor with href u and text t, whose `_blank` the underline rule leaves alone |
| Speakers.ItalicMatch | d4pg/d4pg-speakers/js/main.js:414 | "*i*" matches the italic rule as a whole and becomes the em element |
| Speakers.LinkMatch | d4pg/d4pg-speakers/js/main.js:406-408 | "[t](u)" matches the link rule as a whole and becomes the anchor |
| Speakers.RewriteNoPair | d4pg/d4pg-speakers/js/main.js:411-417 | the bold and underline rules leave text with no doubled '*' (or '_') unchanged |
| Speakers.ProcessBioText | d4pg/d4pg-speakers/js/main.js:396-421 | an empty bio gives the "coming soon" paragraph; otherwise one formatted paragraph per bio paragraph |
| Speakers.LinkFields | d4pg/d4pg-speakers/js/main.js:437-457 | each link contributes its display text and then its URL |
| Speakers.OrgsFieldsCover | d4pg/d4pg-speakers/js/main.js:449-457 | every organisation's name and its links' texts and URLs are searched |
| Speakers.LinkFieldsCover | d4pg/d4pg-speakers/js/main.js:437-441 | every link's display text and URL are searched |
| Speakers.FieldsCover | d4pg/d4pg-speakers/js/main.js:433-457 | the name, title, bio paragraphs and every social text and URL are searched |
| Speakers.SpeakerMatches | d4pg/d4pg-speakers/js/main.js:428-459 | an empty term matches; a card without an id or with an unknown speaker does not; otherwise it matches exactly when some field contains the term ignoring case |
| Speakers.SearchNarrows | d4pg/d4pg-speakers/js/main.js:428-459 | a card matching a longer term also matches any term contained in it |
| Speakers.NameFindsSpeaker | d4pg/d4pg-speakers/js/main.js:428-459 | searching for part of a speaker's name finds the speaker |
| Speakers.ShowMatching | d4pg/d4pg-speakers/js/main.js:474-489 | each card is shown exactly when it matches, and something is visible exactly when a card is shown |
| Speakers.FilterSpeakers | d4pg/d4pg-speakers/js/main.js:468-493 | desktop and mobile cards are shown exactly when they match; "no results" shows exactly when no card is shown, which for an empty term means there are no cards |
| NoticeUtils.TodayStringParts | notice-coalition/notice-home/js/utils.js:24-27 | today's text splits at '-' into the year, the month counted from 1 and the day |
| NoticeUtils.TodayStringInjective | notice-coalition/notice-home/js/utils.js:24-27 | different days give different texts |
| NoticeUtils.TodayString | notice-coalition/notice-home/js/utils.js:24-27 | today's text holds no ';' and no '=', so it can be stored as a cookie value |
| NoticeUtils.RecentCutoff | notice-coalition/notice-home/js/utils.js:34-40 | recency has one cut-off 30 days back: a later date is recent whenever an earlier one is, the cut-off itself is recent, a millisecond before it is not |
| NoticeUtils.IsRecent | notice-coalition/notice-home/js/utils.js:34-40 | a date is recent iff it parses and lies at most 30 days before now (a future date included) |
| NoticeUtils.Entries | notice-coalition/notice-home/js/utils.js:52 | one "name=value" entry per cookie |
| NoticeUtils.SetCookieIn | notice-coalition/notice-home/js/utils.js:48-53 | setting a cookie replaces it or adds one |
| NoticeUtils.SetCookieLookup | notice-coalition/notice-home/js/utils.js:48-53 | after setting, the cookie holds the new value and every other cookie is unchanged |
| NoticeUtils.SetCookieNames | notice-coalition/notice-home/js/utils.js:48-53 | setting adds the name to the jar's names and no other |
| NoticeUtils.SetCookieWellFormed | notice-coalition/notice-home/js/utils.js:48-53 | setting a well-formed cookie keeps the jar well formed |
| NoticeUtils.StripSpaces | notice-coalition/notice-home/js/utils.js:66-68 | stripping leaves no leading space |
| NoticeUtils.NameFromPrefix | notice-coalition/notice-home/js/utils.js:69 | an entry starting with "name=" belongs to that name |
| NoticeUtils.EntryPrefix | notice-coalition/notice-home/js/utils.js:69-70 | an entry starts with "name=" exactly when it is that name's, and the rest is its value |
| NoticeUtils.StripLeadingSpaces | notice-coalition/notice-home/js/utils.js:66-68 | the spaces after a ';' are removed and the entry kept |
| NoticeUtils.EntryPlain | notice-coalition/notice-home/js/utils.js:52 | a well-formed entry holds no ';' and starts with no space |
| NoticeUtils.ScanCookies | notice-coalition/notice-home/js/utils.js:63-73 | scanning the split cookie string finds the first entry of the name, as a lookup in the jar |
| NoticeUtils.CookieLookup | notice-coalition/notice-home/js/utils.js:60-74 | `getCookie(name)` returns the cookie's value, or "" when it is not set |
| NoticeUtils.NoPrefixNoValue | notice-coalition/notice-home/js/utils.js:63-73 | when no piece of the cookie string starts with "name=" once its spaces are stripped, `getCookie` returns "" |
| NoticeUtils.FirstPrefixRead | notice-coalition/notice-home/js/utils.js:63-73 | the first piece starting with "name=" is the one read, from after the "name=" |
| NoticeUtils.SetThenGet | notice-coalition/notice-home/js/utils.js:48-74 | reading a cookie just set gives its value |
| NoticeUtils.PopupNamesGood | notice-coalition/notice-home/js/utils.js:82-83 | the two popup cookie names are distinct and well formed |
| NoticeUtils.PopupCountSettles | notice-coalition/notice-home/js/utils.js:80-93 | after reading the count the stored date is today, and reading again the same day gives the same count and jar |
| NoticeUtils.PopupCount | notice-coalition/notice-home/js/utils.js:80-93 | the jar is kept unless the count read is 0, and a jar that changes stores today's date and the count "0" (the new-day reset) |
| NoticeUtils.IncrementAddsOne | notice-coalition/notice-home/js/utils.js:98-101 | incrementing leaves the count one higher than the count it read |
| NoticeUtils.CookieJar.constructor | notice-coalition/notice-home/js/utils.js:60-62 | a jar of well-formed cookies |
| NoticeUtils.CookieJar.SetCookie | notice-coalition/notice-home/js/utils.js:48-53 | the jar is the jar with the cookie set |
| NoticeUtils.CookieJar.GetCookie | notice-coalition/notice-home/js/utils.js:60-74 | the loop returns `CookieValue(name, cookie text)`, its specification function: split on ';', strip leading spaces, and read after "name=" in the first piece that starts with it, else ""; CookieLookup and SetThenGet prove that this is the jar's value for the name |
| NoticeUtils.CookieJar.GetPopupCount | notice-coalition/notice-home/js/utils.js:80-93 | returns the count and leaves the jar as the popup-count rule says |
| NoticeUtils.CookieJar.IncrementPopupCount | notice-coalition/notice-home/js/utils.js:98-101 | leaves the jar with the incremented count |
| NoticeUtils.YouTubeAt | notice-coalition/notice-home/js/utils.js:110-111 | a YouTube match is eleven id characters |
| NoticeUtils.YouTubeFrom | notice-coalition/notice-home/js/utils.js:110-111 | the first YouTube id from a position on is eleven id characters |
| NoticeUtils.DigitRun | notice-coalition/notice-home/js/utils.js:122 | the greedy run of digits |
| NoticeUtils.VimeoFrom | notice-coalition/notice-home/js/utils.js:122-123 | a Vimeo id is a non-empty run of digits |
| NoticeUtils.GetVideoEmbed | notice-coalition/notice-home/js/utils.js:108-134 | nothing exactly when neither a YouTube nor a Vimeo id is found; YouTube is tried first and embeds its 11-character id, Vimeo embeds its digits |
| NoticeUtils.NoYouTubeWithoutY | notice-coalition/notice-home/js/utils.js:110 | no YouTube match starts at a character other than 'y' |
| NoticeUtils.YouTubeSkip | notice-coalition/notice-home/js/utils.js:110-111 | positions without a match are skipped |
| NoticeUtils.VimeoSkip | notice-coalition/notice-home/js/utils.js:122-123 | positions without "vimeo.com/" are skipped |
| NoticeUtils.NoYouTubeFrom | notice-coalition/notice-home/js/utils.js:110-111 | a URL without 'y' holds no YouTube id |
| NoticeUtils.ShortLink | notice-coalition/notice-home/js/utils.js:108-119 | a youtu.be short link embeds its id |
| NoticeUtils.VimeoAtHost | notice-coalition/notice-home/js/utils.js:122-123 | "https://vimeo.com/" followed by digits gives those digits |
| NoticeUtils.NoYInVimeo | notice-coalition/notice-home/js/utils.js:110 | a Vimeo link of digits holds no 'y', so YouTube does not match it |
| NoticeUtils.VimeoLink | notice-coalition/notice-home/js/utils.js:108-131 | a Vimeo link embeds its digits |
| Selection.PickExisting | notice-coalition/notice-home/js/data-fetcher.js:29-30 | picking keeps at most one item per listed position |
| Selection.MapIndices | notice-coalition/notice-home/js/data-fetcher.js:30 | one entry per listed position |
| Selection.Present | notice-coalition/notice-home/js/data-fetcher.js:30 | dropping missing entries never lengthens the list |
| Selection.FilterByIndex | notice-coalition/notice-home/js/ui-handler.js:216-217 | filtering by position never lengthens the list |
| Selection.MapThenPresent | notice-coalition/notice-home/js/data-fetcher.js:29-30 | mapping the positions and dropping the missing entries is picking the existing items |
| Selection.PickNothing | notice-coalition/notice-home/js/data-fetcher.js:29-30 | nothing is picked from an empty list |
| Selection.FilterNothing | notice-coalition/notice-home/js/ui-handler.js:216-217 | no positions keep nothing |
| Selection.PickPrefix | notice-coalition/notice-home/js/data-fetcher.js:29-30 | positions below k pick the same items from the first k items as from the whole list |
| Selection.FilterSameMembers | notice-coalition/notice-home/js/ui-handler.js:217 | `indices.includes` depends only on which positions are listed |
| Selection.LastIsLargest | notice-coalition/notice-home/js/ui-handler.js:216 | in an increasing list the last position is the largest |
| Selection.FilterByIndexPicks | notice-coalition/notice-home/js/data-fetcher.js:29-30 | for increasing positions, filtering by position keeps the same items as picking them, so the feed and resource selections agree |
| Selection.HomePick | notice-coalition/notice-home/js/data-fetcher.js:29-30 | on a list of nine or more items the home page keeps items 0, 1, 2, 4, 6 and 8 |
| Selection.HomeIndicesIncreasing | notice-coalition/notice-home/js/data-fetcher.js:29 | the home page's positions are increasing |
| DataFetcher.FetchFeedData | notice-coalition/notice-home/js/data-fetcher.js:23-39 | at most six entries, and none when the request fails |
| DataFetcher.FeedSelection | notice-coalition/notice-home/js/data-fetcher.js:23-39 | the feed is exactly the items present at positions 0, 1, 2, 4, 6 and 8, in that order |
| DataFetcher.FeedOfLongList | notice-coalition/notice-home/js/data-fetcher.js:29-30 | a long list of present items gives items 0, 1, 2, 4, 6 and 8 |
| DataFetcher.SubstackFilter | notice-coalition/notice-home/js/data-fetcher.js:50-51 | fails exactly when some item or its feed name is missing; otherwise keeps only items whose feed name contains "Substack" |
| DataFetcher.SubstackFilterKeeps | notice-coalition/notice-home/js/data-fetcher.js:50-51 | every item whose feed name contains "Substack" is kept |
| DataFetcher.FetchNewsletterData | notice-coalition/notice-home/js/data-fetcher.js:45-57 | at most three entries, each an item of the response whose feed name contains "Substack"; when the filter succeeds, its first three (all when fewer); a failed request or a failing filter gives none |
| DataFetcher.FetchFromApi | notice-coalition/notice-home/js/data-fetcher.js:63-80 | whatever JSON an ok response parses to, list or not, is returned and stored with the current time; a rejected fetch, a bad status or an unparsable body returns nothing and keeps the cache |
| DataFetcher.Delivered | notice-coalition/notice-home/js/data-fetcher.js:63-69 | a value is delivered iff the fetch answers with an ok status and a body that parses, and it is that body |
| DataFetcher.NonListBodyCached | notice-coalition/notice-home/js/data-fetcher.js:69-79 | an ok reply whose body is not a list is still returned and cached |
| DataFetcher.GetResourcesCases | notice-coalition/notice-home/js/data-fetcher.js:88-124 | without a refresh a fresh cache is served unchanged; otherwise the API is asked and its answer cached |
| DataFetcher.GetResourcesWith | notice-coalition/notice-home/js/data-fetcher.js:88-124 | a returned list is what the cache then holds; a throw keeps the cache; the cache only changes to the fetched list stamped with `now` |
| DataFetcher.FetchThenServe | notice-coalition/notice-home/js/data-fetcher.js:63-124 | a fetched list is served from the cache until the duration runs out |
| DataFetcher.FailedFetchKeepsCache | notice-coalition/notice-home/js/data-fetcher.js:63-124 | a failed fetch leaves the cache as it was |
| DataFetcher.ClearThenFetch | notice-coalition/notice-home/js/data-fetcher.js:96-131 | with the cache cleared the resources come from the API |
| DataFetcher.CacheExpiresAfter36Seconds | notice-coalition/notice-home/js/data-fetcher.js:13-103 | as written, the cache duration is 36000 ms, so a cache 36 seconds old is already refetched |
| DataFetcher.CacheServesForAnHour | notice-coalition/notice-home/js/data-fetcher.js:13-103 | with the intended hour, a cache younger than 3600000 ms is served without a request |
| DataFetcher.ResourceStore.constructor | notice-coalition/notice-home/js/data-fetcher.js:96 | the store holds the given cache |
| DataFetcher.ResourceStore.FetchResourcesFromApi | notice-coalition/notice-home/js/data-fetcher.js:63-80 | returns and caches as the fetch rule says |
| DataFetcher.ResourceStore.GetResources | notice-coalition/notice-home/js/data-fetcher.js:13-16 | as written: returns and caches as the cache rule says with the 36000 ms duration |
| DataFetcher.ResourceStore.GetResourcesFor | notice-coalition/notice-home/js/data-fetcher.js:88-124 | the returned list and the new cache are those of the cache rule for the given duration |
| DataFetcher.ResourceStore.GetResourcesHourly | notice-coalition/notice-home/js/data-fetcher.js:13-16 | corrected: returns and caches as the cache rule says with the one-hour duration the comment names |
| DataFetcher.ResourceStore.ClearResourcesCache | notice-coalition/notice-home/js/data-fetcher.js:129-131 | the cache is removed |
| UiHandler.PopupDecision | notice-coalition/notice-home/js/ui-handler.js:28-39 | a popup already shown this session decides nothing and leaves the cookies; otherwise it shows iff the day's count reads below three, and a popup not shown leaves the cookies as reading the count left them |
| UiHandler.ShowStep | notice-coalition/notice-home/js/ui-handler.js:28-39 | a new session shows the popup exactly when today's count is below three, and the count then reads one higher |
| UiHandler.ShowingStep | notice-coalition/notice-home/js/ui-handler.js:31-36 | when the popup shows, the jar is the incremented one, still well formed, and the count reads one higher |
| UiHandler.ShowsFromCount | notice-coalition/notice-home/js/ui-handler.js:28-39 | of n sessions, as many show the popup as the day's count leaves room for below three |
| UiHandler.ShowsAsExpected | notice-coalition/notice-home/js/ui-handler.js:28-39 | of n sessions, min(n, 3 - count) show the popup, none when the count is NaN or at least three |
| UiHandler.SessionStep | notice-coalition/notice-home/js/ui-handler.js:28-39 | one session followed by the rest as expected from the count it leaves is as expected from the count before it |
| UiHandler.AtMostThreeADay | notice-coalition/notice-home/js/ui-handler.js:32 | at most three sessions a day show the popup |
| UiHandler.NewDayShowsThree | notice-coalition/notice-home/js/ui-handler.js:28-39 | on a new day the first three sessions show the popup |
| UiHandler.CardFor | notice-coalition/notice-home/js/ui-handler.js:222-261 | a card has the NEW badge exactly for a recent resource, a video thumbnail exactly for a video, links to the download and is described by the title |
| UiHandler.CardLinks | notice-coalition/notice-home/js/ui-handler.js:232-249 | a video's thumbnail plays its video URL or else the download; other resources link the download; the tooltip is the item's, or "Watch Video"/"Download" |
| UiHandler.PickedFromList | notice-coalition/notice-home/js/ui-handler.js:217 | every card's resource is from the list |
| UiHandler.HomePage.constructor | notice-coalition/notice-home/js/ui-handler.js:10-21 | no marker, popup, scroll lock or debug panel yet |
| UiHandler.HomePage.UpdateResourcesNavLink | notice-coalition/notice-home/js/ui-handler.js:10-21 | with the nav link present, the marker follows the flag; otherwise nothing |
| UiHandler.HomePage.ShowPopup | notice-coalition/notice-home/js/ui-handler.js:28-39 | returns and updates the cookies as the popup rule says, showing the popup and locking scrolling when it says yes |
| UiHandler.HomePage.CreateDebugPanel | notice-coalition/notice-home/js/ui-handler.js:46-105 | a panel is created exactly in debug mode when none exists, expanded |
| UiHandler.HomePage.ToggleDebugPanel | notice-coalition/notice-home/js/ui-handler.js:88-94 | the panel's expanded state flips |
| UiHandler.HomePage.DisplayResources | notice-coalition/notice-home/js/ui-handler.js:196-273 | without a grid nothing changes; in debug mode a panel is created, expanded, only when none exists, and an existing panel keeps its expanded state; a failed load shows the error card; otherwise the nav marker says whether any resource is recent and the grid holds the cards of items 0, 1, 2, 4, 6 and 8 |
| UiHandler.BadgeMarksNav | notice-coalition/notice-home/js/ui-handler.js:208-223 | a card with the NEW badge implies the nav marker is set |
| UiHandler.GridOfLongList | notice-coalition/notice-home/js/ui-handler.js:216-217 | on nine or more resources the grid shows items 0, 1, 2, 4, 6 and 8, as the feed selection picks them |
| NoticeResources.AvailableTypes | notice-coalition/notice-resources/js/main.js:52-57 | the dictionary holds exactly the non-empty types some item has, each marked true |
| NoticeResources.TypeFilter | notice-coalition/notice-resources/js/main.js:77-82 | never longer than the list; for a filter other than ALL it keeps exactly the items of that type |
| NoticeResources.TypeFilterAppend | notice-coalition/notice-resources/js/main.js:81 | filtering distributes over concatenation, so the list's order is kept |
| NoticeResources.GreyedIffEmpty | notice-coalition/notice-resources/js/main.js:60-82 | a button other than ALL is greyed out exactly when its filter would show no item; ALL never is |
| NoticeResources.CardFor | notice-coalition/notice-resources/js/main.js:86-121 | a card has a video thumbnail exactly for a video, acts on the download with a non-empty tooltip, and carries the button link, else "Watch Video" for a video, else no link |
| NoticeResources.CardsOf | notice-coalition/notice-resources/js/main.js:126 | one card per item, in order |
| NoticeResources.ResourcesPage.constructor | notice-coalition/notice-resources/js/main.js:37-49 | nothing loaded, no button greyed out, the ALL filter |
| NoticeResources.ResourcesPage.PopulateResourcesGrid | notice-coalition/notice-resources/js/main.js:73-123 | without a grid nothing changes; otherwise the grid holds the cards of the filtered items, in order |
| NoticeResources.ResourcesPage.Load | notice-coalition/notice-resources/js/main.js:37-149 | a failed request shows the error card; a list greys out exactly the buttons other than ALL whose type no item has and shows every item's card |
| NoticeResources.ResourcesPage.ClickFilter | notice-coalition/notice-resources/js/main.js:129-140 | a greyed-out button does nothing; another becomes the only active button and the grid shows its filter |
| ResLib.CapitalizeKeepsLetters | main/res-lib/js/main.js:25 | capitalising the first letter keeps the length and changes nothing once both are lower-cased |
| ResLib.TitleNamesTopic | main/res-lib/js/main.js:25 | a topic's heading is the topic with its first letter capitalised, then " Resources" |
| ResLib.Capitalize | main/res-lib/js/main.js:25 | the same length, the first character upper-cased and every other character kept |
| ResLib.ResourcesTitle | main/res-lib/js/main.js:25 | for a topic other than 'all', the heading is the capitalised topic followed by " Resources" |
| ResLib.ReferencesFor | main/res-lib/js/main.js:128-134 | never longer than the table; holds exactly the reference rows of the topic |
| ResLib.ReferencesAppend | main/res-lib/js/main.js:128-129 | the selection distributes over concatenation, so the table's order is kept |
| ResLib.NoReferencesIffNoRow | main/res-lib/js/main.js:54-129 | the references section is hidden exactly when no reference row has the topic |
| ResLib.EmptySearchShowsAll | main/res-lib/js/main.js:32-41 | an empty search term matches every title |
| ResLib.LibraryPage.constructor | main/res-lib/js/main.js:2-19 | every row shown, nothing selected, the popup closed |
| ResLib.LibraryPage.FilterItems | main/res-lib/js/main.js:21-90 | exactly the rows of the topic show, or all for 'all'; the heading names the topic; only the first menu item of the topic is selected |
| ResLib.LibraryPage.SearchResources | main/res-lib/js/main.js:32-92 | a row shows exactly when its title contains the term, ignoring case |
| ResLib.LibraryPage.ShowAllResources | main/res-lib/js/main.js:44-93 | every row shows, the heading is "All Resources" and no topic box is selected |
| ResLib.LibraryPage.NavClick | main/res-lib/js/main.js:95-111 | the clicked item alone is selected; 'resource-list' shows the list views and hides the materials, 'materials' the reverse, any other id changes no section |
| ResLib.LibraryPage.SelectDefaultView | main/res-lib/js/main.js:142 | when a 'resource-list' item exists it is selected and the list view shows |
| ResLib.LibraryPage.MaterialClick | main/res-lib/js/main.js:50-137 | the popup opens; its references are the topic's and shown when there are any, hidden and left as they were otherwise |
| ResLib.LibraryPage.ClosePopup | main/res-lib/js/main.js:72-139 | the popup is closed |
| Eys.DiffDays | notice-coalition/notice-eys/js/main.js:111-112 | the day count is the ceiling of the time left in days |
| Eys.CountdownFor | notice-coalition/notice-eys/js/main.js:111-121 | a day count exactly for a future event, "Today!" exactly for an event less than a day past, hidden exactly for an older one |
| Eys.UpdatedCard | notice-coalition/notice-eys/js/main.js:99-123 | only the text, accent and hidden fields change, and a card once accented or hidden stays so |
| Eys.UpdatedCardShows | notice-coalition/notice-eys/js/main.js:99-123 | an incomplete card is untouched; a complete one shows its day count as digits, "Today!" with the accent, or a hidden countdown, as the event time says |
| Eys.CountdownBoard.constructor | notice-coalition/notice-eys/js/main.js:96-97 | holds the given cards |
| Eys.CountdownBoard.UpdateCountdowns | notice-coalition/notice-eys/js/main.js:96-124 | every card becomes its updated form, in place |
| Eys.Modals.constructor | notice-coalition/notice-eys/js/main.js:25-42 | both modals closed and the body released; the modal image exists only inside an image modal |
| Eys.Modals.RegisterClick | notice-coalition/notice-eys/js/main.js:30-38 | the registration modal opens and locks the body when it exists |
| Eys.Modals.ImageClick | notice-coalition/notice-eys/js/main.js:43-53 | with the image modal, it opens on the image, with 'Speaker image' for a missing alt text; otherwise nothing changes |
| Eys.Modals.Close | notice-coalition/notice-eys/js/main.js:56-78 | the target modal closes, the body is released and the image modal's source is cleared |
| Eys.Modals.Escape | notice-coalition/notice-eys/js/main.js:81-93 | every modal closes; the body is released if one was open; the image's source is cleared if its modal was open |
| InternHome.LastReached | main/intern-home/js/main.js:31-40 | the last section the scroll position reaches, less 100 pixels, or none when none is reached |
| InternHome.ScrollDownMovesForward | main/intern-home/js/main.js:31-40 | scrolling further down never moves the highlight back to an earlier section |
| InternHome.NothingReachedHighlightsNothing | main/intern-home/js/main.js:36-46 | with no section reached, no link whose href has two or more characters is highlighted |
| InternHome.ContentFor | main/intern-home/js/main.js:57-63 | the first content whose id the "#id" href names (no earlier content has that id), and none exactly when no content has it |
| InternHome.FaqClicked | main/intern-home/js/main.js:70-85 | after a click at most one item is open: the clicked one, exactly when it was closed |
| InternHome.FaqTwiceClosesAll | main/intern-home/js/main.js:70-85 | two clicks on a closed question leave every item closed |
| InternHome.FaqOtherMovesOpen | main/intern-home/js/main.js:70-85 | a click on another question moves the open item there |
| InternHome.InternPage.constructor | main/intern-home/js/main.js:20-31 | nothing active, the back-to-top button hidden |
| InternHome.InternPage.Scroll | main/intern-home/js/main.js:21-47 | the back-to-top button shows exactly past 300 pixels; exactly the links naming the current section are active |
| InternHome.InternPage.ClickTab | main/intern-home/js/main.js:50-67 | the tab alone is active and the content it names alone is active |
| InternHome.InternPage.ClickFaq | main/intern-home/js/main.js:70-85 | the FAQ becomes its clicked state, with at most one item open |
| BookClub.TurnedToSelects | main/book-club/js/main.js:3-22 | after a completed turn the first tab and the first page of the chapter alone are active, shown and current |
| BookClub.TurnedToFails | main/book-club/js/main.js:3-22 | the turn fails exactly when no tab or no page carries the chapter; a missing tab leaves the pages as they were |
| BookClub.TurnedToIdempotent | main/book-club/js/main.js:3-22 | turning to the same chapter twice leaves the state of turning to it once |
| BookClub.BookClubPage.constructor | main/book-club/js/main.js:3-22 | the tabs and pages as the markup marks them |
| BookClub.BookClubPage.TurnToPage | main/book-club/js/main.js:3-22 | the tabs and pages become the turn's result, with its success |
| BookClub.BookClubPage.ClickTab | main/book-club/js/main.js:25-35 | a disabled tab changes nothing; another turns to its chapter |

## Left out

- DOM construction and styling (innerHTML templates, CSS transforms, pixel offsets, scroll-into-view, focus): only the selection state they render is modelled.
- `fetch`, Promises, DOMParser, `localStorage` and `document.cookie` as services: their results are parameters and their contents values passed in and out.
- Timers (`setInterval`, `setTimeout`, `requestAnimationFrame`): each firing is an explicit tick method; the mobile schedule's 10 s and 15 s resume delays, its auto-advance timer and the eys 24-hour interval (notice-coalition/notice-eys/js/main.js:127-128) are such ticks or are not modelled.
- `new Date`, `toLocaleString`, `getHours` and time zones: times are integer minutes or milliseconds given as inputs; a date string that does not parse is `None`.
- Floating point, randomness and graphics: the star fields, Poisson sampling and card-drift physics of the about pages, the glitch-lab matrix rain, the fee-hub glow and ripple effects, the mobile schedule canvas and `updateTimeTracker`, the schedule hero physics, the speaker word cloud, and scroll-progress ratios (including the fellowship essay modal's).
- Hard-coded content (positions, bios, essays, image lists) is data, not logic; the model takes it as parameters.
- Case-insensitive matching uses ASCII case mapping; `toLowerCase`/`toUpperCase` are Unicode in JavaScript.
- `trim` and `\s` remove the ASCII whitespace set only, not the Unicode spaces JavaScript also removes.
- Strings.ParseInt: reads leading decimal digits only; the leading whitespace and sign that `parseInt` also accepts are not modelled.
- NumberOf (ScheduleMobile.NumberOf): reads only a run of decimal digits with optional surrounding whitespace; the signs, decimal points, `0x`/`0o`/`0b` prefixes, exponents and "Infinity" that JavaScript's `Number` also accepts read as NaN here. The schedule's times are written "HH:MM", so these forms do not occur in its data.
- SocialIcon (Speakers.SocialIcon): a link type named like an `Object.prototype` member (`constructor`, `toString`) finds an inherited function in the icon table, which JavaScript then renders as text; the model gives every type outside the ten platforms the chain-link glyph.
- PlatformName (Speakers.PlatformName): likewise, such a type gets the inherited function as its name in JavaScript, where the model gives "Link".
- Submit (InternSearch.Submit): each click on the submit button for a position not yet applied to adds one more `submit` listener to the form, and every listener added so far writes its own copy of the applied list on each later submit; the model records one application per accepted click and does not model the accumulated listeners.
- `decodeURIComponent` in `getCookie` is the identity; cookie expiry dates and paths are not modelled.
- `getVideoEmbed`'s YouTube regex is modelled as a search for five URL markers followed by an 11-character id, not as the full regular expression.
- The speaker modal's photo, name, pronouns and title markup (d4pg/d4pg-speakers/js/main.js:223-231), the sidebar and video player of the D4PG pages, and the `waitForSpeakersData` polling loop (d4pg/d4pg-speakers/js/main.js:504-510) are not modelled; the modal's bio (ProcessBioText), social block (SocialCards) and publications (CreatePromotionalContent) are.
- FormatParagraph (Speakers.FormatParagraph): each conversion is proved for a paragraph that is one run of plain text; paragraphs that mix several runs are computed by the same rewrite functions but no lemma states their result.
- Speakers: a missing `social` or `promotional` field and an empty one are the same value (JavaScript treats both as falsy there).
- Carousel.SlideCarousel.constructor: requires at least one slide; the source builds a carousel only for concurrent workshops, so it never has none.
- Carousel.Wheel.constructor: requires at least one item; with none, the wrap-around `% 0` yields NaN in JavaScript.
- The fee-hub square grid is modelled (layout and twinkle counter) although the source never instantiates it: the call is commented out.
- NoticeResources.ResourcesPage.Load: a filter button named like an `Object.prototype` member (`toString`, `constructor`) finds an inherited truthy entry in `availableTypes` and is never greyed out in JavaScript; the model greys it out when no item has that type.
- The notice-resources page's initial markup is a parameter (`active`) rather than fixed.
- ResLib.LibraryPage.FilterItems: where no menu item has the topic the source throws a TypeError after clearing the menu; the model ends in that same state without signalling the error.
- UiHandler: the debug panel's info DOM (`updateResourceDebugInfo`) and debug messages are not modelled; only its creation and toggle are.
- UiHandler and DataFetcher: the feed and newsletter templates (`displayFeedItems`, `displayNewsletterItems`) and the notice-home main.js wiring are not modelled; the selections they render are.
- InternHome: only "#id" hrefs are modelled as content selectors; a `querySelector` that matches an element outside the program contents is not modelled.
- BookClub: the selectors are searched only among the chapter tabs and pages; a missing target (a TypeError in the source) is `ok == false` with the state reached before the throw.
- Eys: the `Date` parse of `data-event-datetime` is a parameter (`event`).
- Intern-search's `showApplicationMessage`, the form-wrapper padding and the role-description sections are not modelled.
- The notice-substack, notice-algo-harm, notice-header and notice-about scripts are only fetch, scroll or injection wiring and are not part of this model.

## Findings

| source | as written | input that shows it | evidently intended | confidence | as-written member | corrected member |
|---|---|---|---|---|---|---|
| d4pg/d4pg-schedule-mobile/js/main.js:661-722 | `touchstart` records the start point but leaves `touchEndX/Y` from the previous gesture, and `touchend` measures the swipe against them | a first tap at (300, 100) with no `touchmove`, on a three-slide carousel 350 px wide: measured from the stale end (0, 0), it turns to slide 1 | a tap without movement never turns the carousel | not executed | ScheduleMobile.TapTurnsSlide | ScheduleMobile.TapKeepsSlide |
| d4pg/d4pg-home/js/main.js:824-846 | the 'ai' keyword is a substring test, so it matches inside any word containing "ai" | the workshop title "Training" is tagged 'AI Ethics' | "ai" counts only as a whole word, so "Training" is a plain 'Workshop' | not executed | D4pgHome.TrainingTaggedAiEthics | D4pgHome.TrainingTaggedWorkshop |
| main/steam/js/main.js:337-364 | `touchstart` sets `startX` but not `currentX`, which keeps the previous gesture's last position (0 at first) | the first tap at x = 300 with no movement, on three videos: read as a 300 px swipe, it moves to video 1 | a tap without movement never moves the carousel | not executed | Steam.TapTurnsVideo | Steam.TapKeepsVideo |
| notice-coalition/notice-glitch-lab/js/main.js:574-699 | `mouseleave` calls `startAutoRotate`, which overwrites the handle without clearing it, after an arrow key's `resetAutoRotate` already started an interval | hover the wheel, press ArrowRight, leave: two intervals run, one of them untracked (the same code is in main/fee-hub/main.js:542-668) | leaving the wheel restarts the single tracked interval | not executed | Carousel.HoverArrowLeave | Carousel.HoverArrowLeaveReset |
| notice-coalition/notice-home/js/data-fetcher.js:13-103 | `CACHE_DURATION` is `60 * 60 * 10` with the `* 1000` commented out, 36000 ms, compared against `Date.now()` differences in milliseconds | a resource list cached at time t is fetched again at t + 36000, 36 seconds later | the cache serves the list for the hour its comment names (3600000 ms) | not executed | DataFetcher.ResourceStore.GetResources, DataFetcher.CacheExpiresAfter36Seconds | DataFetcher.ResourceStore.GetResourcesHourly, DataFetcher.CacheServesForAnHour |
