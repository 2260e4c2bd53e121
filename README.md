# Land Manager dashboard: listing wizard, portfolio, notifications, navigation

A Dafny model of the behavioural core of the Land Manager front end, a
dashboard where a land seller lists parcels and manages them:

- **Listing wizard** (`ListingForm.dfy`): a seven-step form over a single
  form object. It has the current step, the change, upload and removal
  handlers, and the Next/Previous guards. The step is kept in range, and the
  step-0 and step-1 checks refuse blank required inputs.
  Only the photo upload handler is wired to an input of the page; the video
  upload and photo removal handlers are defined but no element calls them,
  and are modelled as the handlers they are.
- **Publish payload** (`ListingPayload.dfy`): how the form's free text
  becomes the request body.
  - The size is parsed into a number and a unit.
  - Select values are trimmed, lower-cased and mapped through the lookup
    tables to backend codes.
  - Defaults are filled in, and `dispute_details` is included only when
    details were written.
  - The required-field check runs before any request is made.
- **Portfolio page** (`LandCatalogue.dfy`):
  - API records become list entries;
  - the summary figures;
  - the search and filter view;
  - the publish toggle, the verified toggle and removal, keyed by id.
- **Notifications** (`Notify.dfy`):
  - the provider's list of open toasts (show, dismiss, clear);
  - the per-kind presets and the defaults that caller options override;
  - the auto-dismiss and progress-bar conditions;
  - the bar's countdown, tick by tick.
- **Sidebar** (`Sidebar.dfy`):
  - the `cn` class joiner;
  - the active-route rule;
  - the width and content derived from the collapse and hover flags;
  - the events that change those flags and the mobile drawer.
- **Stepper** (`Stepper.dfy`): how each step is drawn from the current
  step. This covers its state, the disabled rule, the connector, the badge
  and the progress bar.

Supporting modules:

- `Wrappers` holds `Option`.
- `Sequences` holds the subsequence relation that order-preserving filters
  are proved against.
- `JsText` and `JsNumber` model the JavaScript string and number operations
  the code relies on. These are `trim` over the ECMAScript white-space set,
  ASCII case mapping, `includes`, `join`, `Number` on decimal literals,
  `parseInt` of digit strings, and the first match of `[0-9]+(\.[0-9]+)?`.

Component state that handlers change becomes a class: `Wizard`,
`Catalogue`, `NotificationProvider`, `ProgressBar` and `SidebarState`.
Their methods state the whole new state in terms of the old one. The
expressions they use become functions, with the promised properties proved
as lemmas.

Numbers are exact rationals (`real`), and `None` plays `NaN`. Outcomes the
code receives from elsewhere are parameters:

- the server's answer;
- the user's answer to a confirmation;
- the random notification id;
- the window width;
- how the runtime writes a number.

## Model

| member | source | states |
|---|---|---|
| `Stepper.StateAgreesWithRules` | components/ui/stepper.tsx:28-44 | each index is exactly one of completed (`<` current), current or upcoming (`>`); the button is disabled iff the step is upcoming; the connector is filled iff completed; a check mark iff completed, else the number index+1 |
| `Stepper.ConnectorRule` | components/ui/stepper.tsx:48 | every step but the last is followed by a connector |
| `Stepper.States` | components/ui/stepper.tsx:24-37 | one state per step, the i-th being the state of index i |
| `Stepper.StateCounts` | components/ui/stepper.tsx:33-37 | exactly `current` steps (clamped to the step count) are completed, exactly one is current when `current` names a step, and the three counts add up to the number of steps |
| `Stepper.ProgressGrows` | components/ui/stepper.tsx:129 | the width `(current+1)/count*100` lies in (0, 100], is 100 exactly at the last step, and grows strictly with the step |
| `ListingForm.InitialValue` | app/land/new/page.tsx:174-204 | every initial value has its field's kind (text for inputs and selects, a boolean for checkboxes) |
| `ListingForm.InitialFormWellFormed` | app/land/new/page.tsx:174-204 | the initial form has every field, each holding a value of its kind |
| `ListingForm.SetField` | app/land/new/page.tsx:206-211 | the field takes the new value, every other field and the media keep theirs, and well-formedness is kept |
| `ListingForm.RemoveAt` | app/land/new/page.tsx:235-240 | exactly the element at the index goes and the rest keep their order; an index outside the list changes nothing |
| `ListingForm.Guard` | app/land/new/page.tsx:244-254 | Next is refused exactly on step 0 when the title, size or price is blank after trimming, and on step 1 when the quarter is; later steps are never refused |
| `ListingForm.GuardAllSpace` | app/land/new/page.tsx:242-254 | Next is refused on step 0 iff title, size or price holds only white space, on step 1 iff the quarter does, and never on later steps |
| `ListingForm.Wizard.constructor` | app/land/new/page.tsx:172-204 | the wizard starts on step 0 with the initial form |
| `ListingForm.Wizard.HandleInputChange` | app/land/new/page.tsx:206-211 | one field changes to the given value, all others and the step are unchanged |
| `ListingForm.Wizard.HandlePhotoUpload` | app/land/new/page.tsx:214-223 | the chosen files are appended after the existing photos, in order |
| `ListingForm.Wizard.HandleVideoUpload` | app/land/new/page.tsx:225-233 | the first chosen file becomes the video; no file, no change (no element of the page calls this handler) |
| `ListingForm.Wizard.RemovePhoto` | app/land/new/page.tsx:235-240 | the photo list loses exactly the element at the index (no element of the page calls this handler) |
| `ListingForm.Wizard.HandleNext` | app/land/new/page.tsx:242-259 | a refused step raises the guard's alert and keeps the step; otherwise the step advances, never past the last one; the form is unchanged |
| `ListingForm.Wizard.HandlePrev` | app/land/new/page.tsx:261-263 | one step back, never below 0 |
| `ListingForm.Wizard.StepClick` | app/land/new/page.tsx:904 | a stepper click reaches only the current or an earlier step, because later buttons are disabled; the step stays in range |
| `JsNumber.FirstNumeral` | app/land/new/page.tsx:274-275 | the leftmost, greedy match of `[0-9]+(\.[0-9]+)?`: nothing before it is a digit, the integer run is maximal, and a fraction is taken exactly when a dot and a digit follow |
| `ListingPayload.ParseSize` | app/land/new/page.tsx:272-281 | the empty text gives 0 sqm, and the value is never negative (the unit rule is `UnitPriority`, the value is pinned by the lemmas below) |
| `ListingPayload.LeadingNumeral` | app/land/new/page.tsx:274 | a text that starts with digits not followed by a digit or by a dot and a digit has exactly those digits, without fraction, as its first match |
| `ListingPayload.NumberThenText` | app/land/new/page.tsx:274-275 | a size whose comma-free text is a whole number followed by other text ("500 m²", "2 ha") has that number as its value |
| `ListingPayload.LeadingDecimal` | app/land/new/page.tsx:274 | a text starting with `digits.digits` and no further digit has that decimal numeral as its first match |
| `ListingPayload.DecimalThenText` | app/land/new/page.tsx:274-275 | a size that starts with a decimal numeral ("2.5 ha") has the numeral's value |
| `ListingPayload.DigitsConcat` | app/land/new/page.tsx:274-275 | two digit groups written together read as the first shifted left by the length of the second |
| `ListingPayload.WithoutSeparator` | app/land/new/page.tsx:274 | removing commas from digits, a comma, digits and comma-free text leaves the digits joined |
| `ListingPayload.GroupedThousands` | app/land/new/page.tsx:274-275 | a thousands separator is read through: `a,bcd` followed by text is a*1000 + bcd |
| `ListingPayload.TwoHectares` | app/land/new/page.tsx:272-281 | "2 ha" is 2 hectares |
| `ListingPayload.FiveHundredSquareMetres` | app/land/new/page.tsx:272-281 | "500 m²" is 500 sqm |
| `ListingPayload.GroupedSquareMetres` | app/land/new/page.tsx:272-281 | "1,500 m²" is 1500 sqm |
| `ListingPayload.SqmText` | app/land/new/page.tsx:276-280 | a text without capitals, 'h' or 'p' names square metres |
| `ListingPayload.CommasIgnored` | app/land/new/page.tsx:274 | the parsed value is the same with commas removed, so "1,500" reads as 1500 |
| `ListingPayload.UnitPriority` | app/land/new/page.tsx:276-280 | "ha" or "hect" means hectares, which wins over "plot"; square metres exactly when none of the three keywords occurs |
| `ListingPayload.PlainNumberIsSqm` | app/land/new/page.tsx:272-281 | a bare digit string is that many square metres |
| `ListingPayload.Lookup` | app/land/new/page.tsx:287 | `mapping[key]`: nothing iff no entry has the key, otherwise the value of the first entry with it, which is `mapping[key]` for a table without duplicate keys (every table here) |
| `ListingPayload.MapOption` | app/land/new/page.tsx:284-288 | nothing iff the input is empty; otherwise the table's entry for the trimmed, lower-cased key, or that key itself |
| `ListingPayload.MapOptionNormalises` | app/land/new/page.tsx:286 | case and surrounding white space never change the result |
| `ListingPayload.FamilyHeldIsFamily` | app/land/new/page.tsx:315-322 | any spelling of "family-held" (any case, any surrounding spaces) is sent as "family" |
| `ListingPayload.UnknownKeyPassesThrough` | app/land/new/page.tsx:287 | a value that is no key of the table is sent as its normalised self |
| `ListingPayload.PriceValue` | app/land/new/page.tsx:338 | a price with no digit reads as 0; a price without dot or minus ("XAF 1,500,000") reads as the number its digits spell |
| `ListingPayload.Coordinate` | app/land/new/page.tsx:345-346 | an empty field is sent as null, a field of digits as their value, and a number only when `Number` reads the text as one |
| `ListingPayload.ValueOf` | app/land/new/page.tsx:335-368 | only the coordinates, the four site codes, the ownership and the road access can be null; exactly the two checkboxes are booleans; numbers go only to price, size and the coordinates |
| `ListingPayload.EntriesFor` | app/land/new/page.tsx:335-368 | the object literal writes each listed key, except `dispute_details` when the details are blank |
| `ListingPayload.BuildPayload` | app/land/new/page.tsx:335-368 | every key but `dispute_details` is in the body; `dispute_details` is in it iff the details are not blank |
| `ListingPayload.EntriesForValue` | app/land/new/page.tsx:335-368 | each entry written holds its key's value |
| `ListingPayload.Entry` | app/land/new/page.tsx:335-368 | membership of each key and, when present, its value |
| `ListingPayload.CodesNeverEmpty` | app/land/new/page.tsx:341-362 | land type, seller type, document type, document status and size unit are non-empty strings whatever the form holds |
| `ListingPayload.NumbersAlwaysSent` | app/land/new/page.tsx:338-340 | price and size are always numbers; the size is never negative |
| `ListingPayload.PayloadConstants` | app/land/new/page.tsx:344-367 | `status` is "published", `road_access` null, `seller_name` empty, and an empty city is sent as "Buea" |
| `ListingPayload.PayloadCodes` | app/land/new/page.tsx:342-362 | the body's enumeration codes are never empty |
| `ListingPayload.PriceWithoutDigitsIsZero` | app/land/new/page.tsx:338 | a price with no digit is sent as 0 and is not reported missing |
| `ListingPayload.ChosenQuarter` | app/land/new/page.tsx:251-254 | a quarter starting with a visible character passes the location step, and with a title the listing is sent |
| `ListingPayload.PlaceholderQuarterPasses` | app/land/new/page.tsx:547 | the select's placeholder "-- Select quarter --" is an ordinary value: it passes the location step and the publish check |
| `ListingPayload.MissingIff` | app/land/new/page.tsx:374 | a key is missing iff it is absent or holds a falsy value other than 0 |
| `ListingPayload.MissingAmong` | app/land/new/page.tsx:373-374 | the missing keys are exactly the listed keys that are missing |
| `ListingPayload.MissingFieldsOf` | app/land/new/page.tsx:373-378 | of the required keys only the title and the quarter can be missing, each exactly when left empty; a 0 price or size passes |
| `ListingPayload.OnlyTitleOrQuarterMissing` | app/land/new/page.tsx:373-374 | when the five always-filled keys are present, the missing list is the title and then the quarter, as each is missing |
| `ListingPayload.AlwaysPresent` | app/land/new/page.tsx:338-342 | price, size value, size unit, land type and seller type are never missing |
| `ListingPayload.TitleAndQuarter` | app/land/new/page.tsx:336-343 | title and quarter are missing exactly when left empty |
| `ListingPayload.Publish` | app/land/new/page.tsx:373-378 | a request is built only when no required key is missing, with the built body; a rejection names exactly the missing required keys, none other, under "Missing required fields: " |
| `ListingPayload.PublishGate` | app/land/new/page.tsx:373-383 | a listing is submitted iff it has a title and a quarter, and then with the built body; a rejection names at least one field |
| `LandCatalogue.ToLand` | app/land/page.tsx:48-62 | id and title are kept; a missing quarter is empty; size is empty iff `size_value` is falsy; the price text starts with "XAF " iff a price is given; a non-numeric price counts as 0; the status is capitalised, "Draft" when absent or empty; an empty document type counts as none; nothing starts verified or with inquiries |
| `LandCatalogue.ToLands` | app/land/page.tsx:48 | one entry per record, in order |
| `LandCatalogue.CountStatus` | app/land/page.tsx:77-79 | a status count never exceeds the list length |
| `LandCatalogue.StatsOf` | app/land/page.tsx:75-82 | the total is the list length, and published + drafts + pending is at most the total |
| `LandCatalogue.StatusCountsBounded` | app/land/page.tsx:77-79 | no entry is counted under two statuses |
| `LandCatalogue.StatsSplit` | app/land/page.tsx:77-81 | status counts and the total value add up over any split of the list |
| `LandCatalogue.Keep` | app/land/page.tsx:85-97 | with every input empty an entry is kept; a document-type filter keeps only entries of that type |
| `LandCatalogue.Filtered` | app/land/page.tsx:84-99 | an entry is shown iff it is in the list and passes every filter; never more entries than the list |
| `LandCatalogue.FilteredIsSubsequence` | app/land/page.tsx:84-99 | the filtered list keeps the list's order |
| `LandCatalogue.NoFiltersShowAll` | app/land/page.tsx:84-99 | with every input empty the whole list is shown |
| `LandCatalogue.QueryIsSubstring` | app/land/page.tsx:86-89 | a query keeps an entry iff the lower-cased query occurs in the lower-cased "title quarter documentType" |
| `JsNumber.StringToNumber` | app/land/new/page.tsx:338 | `Number` reads blank text as 0, digits as their value, and a minus sign before digits as the negated value |
| `JsText.ContainsIff` | app/land/page.tsx:88 | `includes` holds iff the text has a copy of the substring at some position |
| `LandCatalogue.FilteredWithinBounds` | app/land/page.tsx:93-96 | every shown entry respects each bound whose digits are not 0 |
| `LandCatalogue.BoundIgnoresNonDigits` | app/land/page.tsx:93-94 | only the digits of a bound count |
| `LandCatalogue.FindById` | app/land/page.tsx:104 | nothing iff no entry has the id, otherwise the first entry with it |
| `LandCatalogue.ToggledStatus` | app/land/page.tsx:106-109 | "Published" becomes "Draft"; every other status becomes "Published" |
| `LandCatalogue.WithStatus` | app/land/page.tsx:109 | entries with the id take the status, all others are unchanged, the length is kept |
| `LandCatalogue.FlipVerified` | app/land/page.tsx:118 | entries with the id have their mark flipped, all others are unchanged |
| `LandCatalogue.FlipVerifiedTwice` | app/land/page.tsx:116-119 | toggling twice restores the list |
| `LandCatalogue.UpdatesKeepIds` | app/land/page.tsx:109-118 | neither toggle changes any id |
| `LandCatalogue.WithoutId` | app/land/page.tsx:129 | an entry survives iff it was there and has another id |
| `LandCatalogue.WithoutIdFacts` | app/land/page.tsx:129 | removal keeps the others in order, and an unknown id changes nothing |
| `LandCatalogue.Catalogue.Load` | app/land/page.tsx:39-71 | a successful answer to a mounted page replaces the list by the mapped records (`data || []`); otherwise the list stays |
| `LandCatalogue.Catalogue.TogglePublish` | app/land/page.tsx:102-114 | unknown id: no change; failed request: the alert and no change; otherwise the listings with the id take the toggled status |
| `LandCatalogue.Catalogue.ToggleVerify` | app/land/page.tsx:116-119 | the list becomes the flipped list |
| `LandCatalogue.Catalogue.RemoveLand` | app/land/page.tsx:121-134 | no confirmation: no change; a failed or refused request: the alert and no change; otherwise exactly the listings with the id leave |
| `Notify.Preset` | components/ui/notify.tsx:290-326 | kind and message are kept; a position or timeout the caller gives wins over the helper's preset; the other options pass through |
| `Notify.PresetDefaults` | components/ui/notify.tsx:290-326 | success shows at the bottom for 4000 ms, error and warning top right for 5000 ms, info top right for 4000 ms, all with a bar, on one line |
| `Notify.OptionsOverride` | components/ui/notify.tsx:290-326 | a caller's position and timeout are the ones used, whatever the kind |
| `Notify.Effective` | components/ui/notify.tsx:43-53 | a setting left out takes the default: top, 5000 ms, a progress bar, one line |
| `Notify.BarImpliesAutoDismiss` | components/ui/notify.tsx:63 | a shown bar implies auto-dismiss; a timeout of 0 or less gives neither |
| `Notify.TickStep` | components/ui/notify.tsx:65 | each tick takes a positive step off the bar |
| `Notify.WidthAfter` | components/ui/notify.tsx:56-66 | the width after any number of ticks stays within [0, 100] |
| `Notify.DrainStep` | components/ui/notify.tsx:64-66 | one tick of `max(0, w - 100/(timeout/50))` moves the closed form from n ticks to n+1 |
| `Notify.EmptyWhenTimedOut` | components/ui/notify.tsx:64-66 | the bar is empty exactly once n ticks of 50 ms reach the timeout, and it never grows |
| `Notify.ProgressBar.constructor` | components/ui/notify.tsx:56 | the bar starts full |
| `Notify.ProgressBar.Tick` | components/ui/notify.tsx:64-66 | the width loses one step, clamped at 0, and stays equal to the closed form |
| `Notify.WithoutIdMembers` | components/ui/notify.tsx:249-251 | a notification survives iff it was there and has another id |
| `Notify.WithoutIdFacts` | components/ui/notify.tsx:249-251 | dismissal keeps the others in order; an unknown id changes nothing |
| `Notify.ShowThenDismiss` | components/ui/notify.tsx:241-251 | showing under a fresh id and dismissing that id restores the list |
| `Notify.UniqueAfterDismiss` | components/ui/notify.tsx:249-251 | dismissal keeps ids distinct |
| `Notify.NotificationProvider.Show` | components/ui/notify.tsx:241-247 | exactly one entry, the request with the fresh id, is appended at the end; the id is returned; ids stay distinct |
| `Notify.NotificationProvider.Dismiss` | components/ui/notify.tsx:249-251 | the list becomes the filtered list, ids stay distinct |
| `Notify.NotificationProvider.ClearAll` | components/ui/notify.tsx:253-255 | the list becomes empty |
| `Sidebar.Kept` | components/layout/sidebar.tsx:27 | the kept parts are non-empty and no more than the arguments |
| `Sidebar.KeptAppend` | components/layout/sidebar.tsx:27 | filtering distributes over concatenation |
| `Sidebar.Cn` | components/layout/sidebar.tsx:26-28 | the class string is empty exactly when no argument is truthy |
| `Sidebar.KeptEmptyIff` | components/layout/sidebar.tsx:27 | nothing is kept exactly when every argument is falsy |
| `Sidebar.CnSingle` | components/layout/sidebar.tsx:26-28 | one argument gives its text, or nothing when falsy |
| `Sidebar.CnAppend` | components/layout/sidebar.tsx:26-28 | `cn` of two argument lists is the two results joined by exactly one space, with no stray space when either is empty |
| `Sidebar.CnDropsFalsy` | components/layout/sidebar.tsx:26-28 | a falsy argument anywhere changes nothing |
| `JsText.JoinAppend` | components/layout/sidebar.tsx:27 | joining two non-empty lists puts one separator between their joins |
| `Sidebar.IsActive` | components/layout/sidebar.tsx:490 | an entry can be active only when its path begins the current path |
| `Sidebar.ActiveBelow` | components/layout/sidebar.tsx:490 | any page under `href + "/"` highlights the entry |
| `Sidebar.SiblingNotActive` | components/layout/sidebar.tsx:490 | a path extending `href` without a slash does not highlight it |
| `Sidebar.LandExamples` | components/layout/sidebar.tsx:490 | "/land/new" and "/land" highlight Properties, "/landing" does not |
| `Sidebar.ActiveIff` | components/layout/sidebar.tsx:490 | active iff the path equals `href` or continues it with a slash |
| `Sidebar.OneActiveSegment` | components/layout/sidebar.tsx:490 | two single-segment entries are never highlighted together |
| `Sidebar.AtMostOneActive` | components/layout/sidebar.tsx:30-73 | whatever the path, at most one main navigation entry is highlighted |
| `Sidebar.EffectiveWidth` | components/layout/sidebar.tsx:159 | the width is 88 or 320 |
| `Sidebar.LayoutRules` | components/layout/sidebar.tsx:158-160 | 88 exactly when collapsed and not hovered, which is exactly when the edge strip shows; full content iff the wide bar on a window at least 768 wide |
| `Sidebar.SidebarState.constructor` | components/layout/sidebar.tsx:86-89 | every flag starts false; the hover listeners reach the bar only on a window at least 768 wide |
| `Sidebar.SidebarState.Width` | components/layout/sidebar.tsx:721 | narrow exactly when the edge strip shows |
| `Sidebar.SidebarState.ToggleCollapse` | components/layout/sidebar.tsx:470 | flips `collapsed`, leaves the other flags and the path, and the re-render leaves the hover listeners on a detached element |
| `Sidebar.SidebarState.MouseEnter` | components/layout/sidebar.tsx:124-141 | hovering sets the flag only while the listeners still reach the bar; setting it detaches them |
| `Sidebar.SidebarState.MouseLeave` | components/layout/sidebar.tsx:124-141 | leaving clears the flag only while the listeners still reach the bar; clearing it detaches them |
| `Sidebar.SidebarState.KeyDown` | components/layout/sidebar.tsx:148-156 | Escape closes the drawer; any other key leaves it; closing an open drawer detaches the hover listeners |
| `Sidebar.SidebarState.Navigate` | components/layout/sidebar.tsx:143-146 | a new path closes the drawer and detaches the hover listeners; the same path changes nothing |
| `Sidebar.SidebarState.OpenDrawer` | components/layout/sidebar.tsx:737 | the hamburger opens the drawer; opening a closed one detaches the hover listeners |
| `Sidebar.SidebarState.CloseDrawer` | components/layout/sidebar.tsx:167-170 | the overlay (and the close button) close the drawer; closing an open one detaches the hover listeners |
| `Sidebar.CollapsedBarIgnoresHover` | components/layout/sidebar.tsx:124-141 | once collapsed, the bar stays 88 wide when the pointer enters it |
| `Sidebar.HoverSticks` | components/layout/sidebar.tsx:124-141 | on a desktop window the first hover is never cleared by the pointer leaving |

## Left out

- Network requests are not modelled: the land list fetch, the status update, the delete, the create request and `uploadMediaFiles`. Their outcomes are parameters (`ok`, `requestOk`, `response`). The publish flow is modelled up to the create request. Error bodies of failed requests are not parsed.
- `alert`, `confirm`, `console`, WhatsApp sharing (`shareWhatsApp`), object URLs and `encodeURIComponent` are left out. The alert texts are returned as values, and the confirmation is a parameter.
- Timers and intervals are left out: the 100 ms fade-in, the dismiss timer and the 300 ms exit delay. Only the per-tick arithmetic of the progress bar and the conditions for the timers are modelled.
- `Math.random` ids are a parameter; `Show` requires the id to be unused.
- `Number`, `parseFloat` and `parseInt` are exact on decimal literals. IEEE rounding, exponent and hexadecimal forms and `Infinity` are not modelled, and such texts read as `NaN`.
- `toLocaleString` and `${n}` are formatting parameters (`Format`).
- Case mapping covers ASCII letters only.
- `Notify.Effective`: timeouts are integers; a fractional timeout is not modelled.
- `LandCatalogue.ToLand`: the quarter, status and document type are taken as text or absent. A record holding another JSON value there is not modelled; the page would keep such a value as it is (so it never equals a filter's text) and, for a truthy non-text status, fail on `charAt` and abandon the whole load.
- `LandCatalogue.ToNumber`: a `null` field and an absent one are both `JNull`. `Number(null)` is 0 and `Number(undefined)` is `NaN`, but every use guards falsy values or maps `NaN` to 0.
- `ListingPayload.Lookup`: keys inherited from the object prototype (such as "constructor") are not looked up.
- `Notify.Preset`: an option passed explicitly as `undefined` also overrides the preset in the source. In the model a missing option keeps the preset.
- The `isSubmitting` and `loading` flags, the `cover` and `views` fields of a list entry, the notification action buttons and the `onDismiss` callback are not modelled. They only affect rendering or call page code.
- Icon choice, colours, CSS classes and every other piece of rendering that decides nothing are not modelled.
- `ListingPayload.FamilyHeldIsFamily` is stated for any text that normalises to "family-held". That the literal "Family-held" normalises so is not proved, because evaluating case mapping on a literal is too costly for the verifier.
- `Notify.ProgressBar`: the toast container is a component defined inside the provider, so every change of the list remounts every open toast and restarts its bar and timer. A bar is modelled from its own mount only.
- `Sidebar.SidebarState`: a re-render is assumed to happen exactly when a flag or the path changes value. A re-render caused by the parent, which would also detach the hover listeners, is not modelled.
- The tools section of the sidebar ("/settings") is one entry, so the at-most-one-active property is stated for the main navigation.
