# Glassmorphism dashboard: responsive classifier, persisted state, report filter, palette

A Dafny model of the logic inside a client-rendered analytics dashboard written in
React. Everything else in that repository is presentation; four pieces carry rules:

- **Responsive classifier** (`hooks/useResponsive.js`): a viewport width is classified into
  `mobile`, `sm`, `tablet`, `lg`, `xl` or `desktop` by half-open thresholds at 640, 768, 1024,
  1280 and 1536 pixels; three class predicates and a family of three-way layout selectors
  (columns, grid/spacing/text tokens, chart height, sidebar width, card gap) sit on top.
  Module `Responsive` (`responsive.dfy`), including the hook's state (last viewport, breakpoint)
  with its mount, resize and reclassify transitions.
- **Persisted state with expiry** (`hooks/useLocalStorage.js`): `useLocalStorage`,
  `useLocalStorageWithExpiry`, `useMultipleLocalStorage`, `clearLocalStorage` and
  `getLocalStorageSize`. `window.localStorage` is an explicit `Storage` value (module
  `BrowserStorage`, `browser_storage.dfy`): a `map<string, string>`, a flag for whether a window
  exists, and an access mode (`Usable`; `QuotaExceeded`, where `setItem` throws; `Blocked`, where
  every access throws). JavaScript values and JSON are module `Json` (`json.dfy`): a `Value`
  datatype and a `Codec` pair of functions (`stringify`, `parse`), with `Lawful(c)` stating what
  is assumed of JSON: serializable values round-trip and never encode to the empty string, and a
  top-level `undefined` becomes the unparsable text "undefined". Each hook is a state record
  threaded with the storage through pure transitions returning `Step(storage, state)`; the clock
  is an `int` parameter `now` (module `LocalStorage`, `local_storage.dfy`).
- **Report filtering** (`pages/reports.js`): the search-then-category filter effect, the status
  badge lookup, and the rule enabling export buttons. Module `Reports` (`reports.dfy`).
- **Palette generator** (`lib/chartConfig.js`): `generateColorPalette(count = 5)` cycling five base
  colours. Module `ChartConfig` (`chart_config.dfy`).

`wrappers.dfy` holds the `Option` type.

The breakpoint labels are `sm`, `lg`, `xl`, as in the code. Without a window,
`useMultipleLocalStorage` returns `initialValues` whole (including keys not listed), while with a
window it returns exactly the listed keys. The expiring hook's treatment of payloads of the wrong
shape is recorded under Findings.

## Model

| member | source | states |
|---|---|---|
| Responsive.Classify | hooks/useResponsive.js:29-45 | the chosen breakpoint is the one whose threshold band (from the threshold table) contains the width |
| Responsive.ClassifyIsBand | hooks/useResponsive.js:30-44 | classification is exactly band membership: a width lies in its breakpoint's band and in no other |
| Responsive.ClassifyMonotone | hooks/useResponsive.js:30-44 | a wider viewport never gets a lower breakpoint in the order mobile < sm < tablet < lg < xl < desktop |
| Responsive.ClassesPartition | hooks/useResponsive.js:47-49 | every breakpoint is in exactly one of isMobile, isTablet ({tablet, sm}), isDesktop ({lg, xl, desktop}) |
| Responsive.IsSmallScreen | hooks/useResponsive.js:50 | isSmallScreen holds exactly when isDesktop does not |
| Responsive.ClassesByWidth | hooks/useResponsive.js:30-50 | in terms of width: mobile below 640, tablet class in [640, 1024), desktop class from 1024, small screen below 1024 |
| Responsive.Select | hooks/useResponsive.js:52-74 | each three-way helper returns its mobile argument for mobile, its tablet argument for the tablet class, its desktop argument for the desktop class |
| Responsive.SelectIdentifiesClass | hooks/useResponsive.js:52-74 | with three distinct arguments, the result equals the mobile/tablet/desktop argument iff the breakpoint is in that class |
| Responsive.DefaultSelectors | hooks/useResponsive.js:52-74 | with default arguments: 1, 2 or 3 columns by class; grid-cols-1 iff mobile; p-6 iff tablet class; text-lg iff desktop class |
| Responsive.ChartHeight | hooks/useResponsive.js:76-80 | chart height is 250 iff mobile, 300 iff tablet class, 400 iff desktop class |
| Responsive.ChartHeightMonotone | hooks/useResponsive.js:76-80 | as a function of the width, chart height never decreases |
| Responsive.SidebarWidth | hooks/useResponsive.js:82-86 | sidebar width is "100%" iff mobile, "280px" iff tablet class, "320px" iff desktop class |
| Responsive.CardSpacing | hooks/useResponsive.js:88-92 | card gap is gap-4 iff mobile, gap-6 iff tablet class, gap-8 iff desktop class |
| Responsive.Mount | hooks/useResponsive.js:4-9 | on mount the breakpoint is desktop and the width is the window's inner width, or 0 without a window |
| Responsive.Resize | hooks/useResponsive.js:12-17 | a resize replaces the screen size and leaves the breakpoint for the effect |
| Responsive.Reclassify | hooks/useResponsive.js:29-45 | the effect keeps the screen size and sets a breakpoint whose band contains the width |
| Responsive.FirstClassification | hooks/useResponsive.js:4-45 | without a window the first classification yields mobile; with one, the window width's class |
| Responsive.ResizeThenReclassify | hooks/useResponsive.js:11-45 | after resize plus effect the state is settled, depends only on the new size, and rerunning the effect changes nothing |
| Json.GreaterThan | hooks/useLocalStorage.js:60 | `now > expiry` compares numerically for a number and is false for undefined (NaN) |
| BrowserStorage.StorageSize | hooks/useLocalStorage.js:163-179 | the size is the sum of key length plus text length over all stored entries, and 0 without a window or when storage throws |
| BrowserStorage.TotalSizeRemove | hooks/useLocalStorage.js:170-174 | the size sum can be split at any stored key: that entry's share plus the size of the rest |
| BrowserStorage.TotalSizeUpdate | hooks/useLocalStorage.js:170-174 | writing a key replaces that key's share of the size by key length plus new text length |
| LocalStorage.Load | hooks/useLocalStorage.js:6-21 | the initial read (the memory `MountPlain` starts with) falls back to initialValue with no window, a throwing storage, a missing or empty item, or a parse failure; when a truthy stored text parses, the result is its parse |
| LocalStorage.SetValue | hooks/useLocalStorage.js:25-39 | memory becomes the value or the updater applied to the current memory; storage gets key := stringify(new value) when writable, is unchanged otherwise (memory not rolled back), and no other key changes |
| LocalStorage.SetValueThenMount | hooks/useLocalStorage.js:13-33 | round trip: after setValue of a serializable value, a fresh mount under the key reads that value |
| LocalStorage.SetUndefinedThenMount | hooks/useLocalStorage.js:13-33 | after setValue(undefined), a fresh mount reads initialValue, since "undefined" does not parse |
| LocalStorage.SetValueFrame | hooks/useLocalStorage.js:25-39 | setValue on one key does not change what a mount under any other key reads |
| LocalStorage.ExpiryRecord | hooks/useLocalStorage.js:80-83 | the stored record's value property is the value and its expiry property is the given instant; serializable if the value is |
| LocalStorage.LoadWithExpiryAsWritten | hooks/useLocalStorage.js:45-71 | the source's expiring read: falls back, storage untouched, when nothing truthy is stored, parsing fails or the parse is null; otherwise, if `now > item.expiry` (JavaScript comparison) the key is removed and initialValue returned, else `item.value` is returned with storage untouched |
| LocalStorage.LoadWithExpiry | hooks/useLocalStorage.js:45-71 | corrected expiring read: falls back, storage untouched, when nothing truthy is stored, parsing fails or the parse is not a record with a numeric expiry; for such a record, now > expiry removes the key and returns initialValue, now <= expiry returns its value with storage untouched |
| LocalStorage.LoadWithExpiryAgrees | hooks/useLocalStorage.js:50-66 | on stored payloads that are unparsable or shaped like an expiry record, the corrected read equals the source's read |
| LocalStorage.AsWrittenReadsForeignPayload | hooks/useLocalStorage.js:56-66 | with the number 5 stored under the key, the source's read yields undefined and leaves it stored, the corrected read yields initialValue |
| LocalStorage.MountExpiring | hooks/useLocalStorage.js:44-71 | mounting keeps key and ttl; its memory and storage are those of the corrected expiring read, so storage changes at most by removing the key |
| LocalStorage.SetWithExpiry | hooks/useLocalStorage.js:73-89 | memory becomes the new value; storage gets {value, expiry: now + ttl} under the key when writable (expiry recomputed on each write), is unchanged otherwise, and no other key changes |
| LocalStorage.ExpiryRoundTrip | hooks/useLocalStorage.js:56-85 | a mount at any time up to and including written + ttl reads back the written value and leaves storage unchanged |
| LocalStorage.ExpiredIsPurged | hooks/useLocalStorage.js:56-85 | a mount strictly after written + ttl reads initialValue, removes the key, and keeps every other key |
| LocalStorage.MountMany | hooks/useLocalStorage.js:94-111 | without a window the result is initialValues; with one, its keys are exactly the listed keys and each is the single-key read with that key's own initial value |
| LocalStorage.MountManyIndependent | hooks/useLocalStorage.js:100-110 | changing or corrupting one key's stored text does not change what any other listed key reads |
| LocalStorage.SetMultiple | hooks/useLocalStorage.js:113-126 | memory is the right-biased shallow merge; when writable exactly the new keys are written with their stringified values; other keys unchanged in storage and memory |
| LocalStorage.SetMultipleThenMount | hooks/useLocalStorage.js:100-126 | after setMultipleValues, a mount reads each new key's new value and every other listed key as before |
| LocalStorage.SetSingle | hooks/useLocalStorage.js:128-140 | setSingleValue equals setMultipleValues with the one key mapped to the value or the updater applied to its current entry |
| LocalStorage.Clear | hooks/useLocalStorage.js:145-161 | with an empty list the storage is emptied; otherwise exactly the listed keys go; no window or a throwing storage changes nothing; surviving entries keep their text |
| LocalStorage.ClearThenLoad | hooks/useLocalStorage.js:145-161 | after a clear, cleared keys read initialValue and every other key reads as before |
| LocalStorage.ClearAllThenSize | hooks/useLocalStorage.js:151-179 | after clearing everything the storage size is 0 |
| LocalStorage.SizeAfterFirstWrite | hooks/useLocalStorage.js:163-179 | after one write to an empty storage the size is the key's length plus the stored text's length |
| Reports.Filter | pages/reports.js:105-112 | the filter result is an order-preserving subsequence holding exactly the passing elements, each as often as in the input |
| Reports.FilterReports | pages/reports.js:101-116 | the shown reports are an order-preserving subsequence of all reports, holding exactly those matching the search term (if non-empty) and the category (unless "all"), with their multiplicities |
| Reports.ShowAll | pages/reports.js:102-115 | with an empty search term and category "all" the shown list equals the report list |
| Reports.FilterReportsIdempotent | pages/reports.js:101-115 | filtering the shown list again with the same term and category returns it unchanged |
| Reports.StatusColor | pages/reports.js:118-125 | completed, processing and draft each get their own badge style, exactly; every other status gets the gray default, exactly |
| Reports.ExportEnabled | pages/reports.js:298-308 | PDF and Excel export are enabled exactly for reports shown with the completed badge, i.e. status completed |
| ChartConfig.GenerateColorPalette | lib/chartConfig.js:243-258 | the palette has max(count, 0) entries and entry i is base colour i mod 5 |
| ChartConfig.CyclesPeriodic | lib/chartConfig.js:253-255 | the palette repeats with period five |
| ChartConfig.CyclesStartsWithBase | lib/chartConfig.js:244-250 | the first five entries are the five base colours in declaration order, pairwise distinct |
| ChartConfig.DefaultPalette | lib/chartConfig.js:243-250 | the default call yields exactly the five base colours in order |

## Findings

| source | as written | input that shows it | evidently intended | confidence | as-written member | corrected member |
|---|---|---|---|---|---|---|
| hooks/useLocalStorage.js:56-66 | a parsed payload that is not a `{value, expiry}` record is read as one: `now > undefined` is false, so it never expires, and `parsedItem.value` is returned | the text of the number 5 (as the plain hook writes it) stored under the key: the mount yields `undefined`, not initialValue, and the entry is kept forever | a payload of the wrong shape is treated like an unparsable one and the hook falls back to initialValue, as it does for every other unreadable payload | medium; not executed | LocalStorage.AsWrittenReadsForeignPayload | LocalStorage.LoadWithExpiry |

`LocalStorage.LoadWithExpiryAsWritten` is the source's read; `LocalStorage.MountExpiring` and the
expiry lemmas use the corrected `LocalStorage.LoadWithExpiry`, and `LoadWithExpiryAgrees` shows the
two coincide on every payload the hook itself writes.

## Left out

- JSON: the real serializer and parser are not modelled; `Codec` is a parameter and `Lawful` states the round trip assumed of it. Objects are maps, so key order is not modelled.
- Numbers are integers; floating point, NaN and `Infinity` payloads are not modelled.
- LocalStorage.MountExpiring: mounts with the corrected read `LoadWithExpiry`, not the source's `LoadWithExpiryAsWritten`; for a stored payload that is not a record with a numeric expiry (the Findings input) it yields initialValue where the source yields `item.value`, usually undefined, and keeps the entry. On every payload the hook itself writes, the two coincide (`LoadWithExpiryAgrees`).
- Json.GreaterThan: strings, arrays and objects compare as NaN (false); JavaScript would coerce numeric strings and one-element arrays to numbers.
- Lowercasing is ASCII-only (`Reports.ToLower`); Unicode case mapping is not modelled.
- String lengths count Unicode scalar values, not UTF-16 code units as JavaScript's `length` does.
- Keys that coincide with member names of the Storage object (`length`, `getItem`, ...) are hidden from the size loop in browsers; the model counts every key.
- React plumbing: state-update timing, stale closures across several setter calls in one render, effect scheduling, resize subscription and teardown, the mock `setTimeout` load.
- Updater functions are total; an updater that throws (which leaves memory unchanged) is not modelled.
- Storage access modes are uniform per call; a `setItem` that fails part-way through `setMultipleValues` (earlier keys written, later ones not) is not modelled, since with a uniform mode either all writes succeed or none do.
- The viewport height is carried but used by nothing.
- `console.log` reporting, JSX rendering, category icons, the export handler's logging, animations, chart components and options, progress and formatting helpers, page and app configuration, and the fixture data.
