# Replay breadcrumb formatting and tag-value autocomplete, modelled in Dafny

Two small front-end pieces of the Sentry web application.

**Breadcrumb formatting** (`Breadcrumbs`, in `breadcrumbs.dfy`). A breadcrumb of a session replay gets a description and a title:

- The description follows the first rule that matches:
  - an action of `largest-contentful-paint` with a truthy timestamp and a truthy start gives the delay followed by `ms`;
  - a navigation crumb gives its `data.to`;
  - a default crumb gives its serialised data;
  - any other crumb gives its message, or `""`.
- The title is the `data.label` when there is one. Otherwise it is the category split on `.`, rendered as `"<type> <action>"`, with `ui` shown as `User`.
- `JSON.stringify` and `new Date(t).getTime()` are host functions. The model takes them as the fields of a `Host` value and leaves their meaning open.

**Tag-value autocomplete** (`TagValueAutocomplete`, in `tag_value_autocomplete.dfy`). This is the multi-select field of the dynamic-sampling rule editor:

- the accessibility label chosen for each condition category; an unknown category reports one error and gets `""`;
- the options it offers: the comma-pieces of the current value that were not fetched, then the fetched tag values, each labelled with its own value;
- the comma encoding of the selection, `value?.split(',')` and `newValue?.join(',')`;
- the loader, a `Component` class whose `Load` method receives the outcome of the fetch as a parameter.

`strings.dfy` (module `Strings`) models JavaScript's `split` and `join` on one separator character. It also renders an integer in decimal, as a template literal does, and holds a decimal reader used as that rendering's inverse. `wrappers.dfy` holds `Option`, which stands for a property that may be `undefined`.

The `Crumb` type and the `BreadcrumbType` and `DynamicSamplingInnerName` enumerations are declared in files that are not part of this model. The model makes these assumptions about them:

- `Crumb.timestamp` is assumed to be an optional number. The code only tests it for truthiness and passes it to `new Date(...)`, which would accept a date string as well. Under this assumption the timestamp is truthy when it is present and not zero, and `Host.dateGetTime` takes an integer.
- The breadcrumb types are `Navigation`, `Default` and `Other(name)`, where `Other` stands for every other member.
- The categories are the eleven the field's props allow, plus `OtherInnerName(name)`, which reaches the default branch.
- Data values are `Str`, `Null` or `Undefined`.

Three facts the model makes explicit:

- The empty value `""` creates no option, yet `"".split(',')` selects one empty piece. That piece is offered only when some fetched tag is empty (`EmptyValueSelectsUnofferedPiece`).
- A cleared selection `[]` is emitted as `""`, which then reads back as `[""]` (`ClearedSelectionReadsBackAsEmptyPiece`).
- A created value that contains a comma, such as `a,b`, is emitted unchanged and reads back as the two values `a` and `b` (`CommaInValueSplitsOnReadBack`). This is why `EncodeRoundTrip` holds only for comma-free values.

## Model

| member | source | states |
|---|---|---|
| `Strings.Split` | static/app/components/replays/breadcrumbs/utils.tsx:33 | `split` on one character always yields at least one piece, and no piece contains the separator |
| `Strings.Join` | static/app/views/settings/project/filtersAndSampling/modal/tagValueAutocomplete.tsx:118 | models `join`. Its own contract: an empty list joins to `""`, the first part is a prefix of the result, and two or more parts put a separator in it. `JoinSplit` and `SplitJoin` state the rest |
| `Strings.JoinSplit` | static/app/views/settings/project/filtersAndSampling/modal/tagValueAutocomplete.tsx:116-119 | joining the pieces of any string with the separator gives the string back |
| `Strings.SplitJoin` | static/app/views/settings/project/filtersAndSampling/modal/tagValueAutocomplete.tsx:116-119 | splitting the join of a non-empty list of separator-free parts gives the parts back |
| `Strings.SplitAfterPiece` | static/app/components/replays/breadcrumbs/utils.tsx:33 | a separator-free text followed by the separator becomes exactly the first piece, and the rest splits on its own |
| `Strings.NatToDecimal` | static/app/components/replays/breadcrumbs/utils.tsx:11 | the rendering of a non-negative integer is a non-empty string of digits, with a leading zero only for zero |
| `Strings.IntToDecimal` | static/app/components/replays/breadcrumbs/utils.tsx:11 | models `${n}` for an integer. Its own contract: the result is in canonical form (no leading zero, no `-0`) and starts with `-` exactly when the integer is negative. `DecimalRoundTrip`, `CanonicalIsRendering` and `DecimalInjective` state the rest |
| `Strings.DecimalRoundTrip` | static/app/components/replays/breadcrumbs/utils.tsx:11 | reading back the decimal rendering of any integer, negative ones included, gives the integer |
| `Strings.CanonicalIsRendering` | static/app/components/replays/breadcrumbs/utils.tsx:11 | every canonical decimal string is the rendering of the integer it reads as; with `DecimalRoundTrip`, rendering and reading are inverse bijections between integers and canonical strings |
| `Strings.DecimalInjective` | static/app/components/replays/breadcrumbs/utils.tsx:11 | distinct integers render as distinct strings |
| `Breadcrumbs.Description` | static/app/components/replays/breadcrumbs/utils.tsx:6-27 | models getDescription. Its own contract: when the timing rule applies, the result is a canonical decimal followed by `ms`; outside it, a crumb of any other type gets its message or `""`. `LcpDescriptionIsDelay`, `LcpDescriptionsDistinguishDelays`, `LcpWithoutTimestampsFallsThrough`, `DescriptionIgnoresTimeOutsideLcp`, `NavigationDescription`, `DefaultDescription` and `MessageDescription` state the rest |
| `Breadcrumbs.LcpDescriptionIsDelay` | static/app/components/replays/breadcrumbs/utils.tsx:7-13 | an LCP crumb with a truthy timestamp and a truthy start is described by a number in canonical form followed by `ms`; the number reads back as `getTime(timestamp) - start`, so by `CanonicalIsRendering` the text is exactly its rendering |
| `Breadcrumbs.LcpDescriptionsDistinguishDelays` | static/app/components/replays/breadcrumbs/utils.tsx:10-11 | two such LCP descriptions are equal if and only if their delays are equal |
| `Breadcrumbs.LcpWithoutTimestampsFallsThrough` | static/app/components/replays/breadcrumbs/utils.tsx:7-16 | an LCP crumb with an absent or zero timestamp or start is described exactly as the same crumb without any timing information |
| `Breadcrumbs.DescriptionIgnoresTimeOutsideLcp` | static/app/components/replays/breadcrumbs/utils.tsx:7-26 | when the action is not LCP, the description does not depend on the timestamp, the start or the clock |
| `Breadcrumbs.NavigationDescription` | static/app/components/replays/breadcrumbs/utils.tsx:19-21 | outside the timing rule, a navigation crumb is described by its `data.to` string, and by `""` when the data, the entry or its value is missing, null or undefined |
| `Breadcrumbs.DefaultDescription` | static/app/components/replays/breadcrumbs/utils.tsx:22-23 | outside the timing rule, a default crumb is described by the serialisation of its data |
| `Breadcrumbs.MessageDescription` | static/app/components/replays/breadcrumbs/utils.tsx:24-25 | outside the timing rule, every other crumb is described by its message, or by `""` when there is none |
| `Breadcrumbs.LcpExample` | static/app/components/replays/breadcrumbs/utils.tsx:9-11 | with an identity clock, timestamp 5000 and start 2000 give `3000ms` |
| `Breadcrumbs.Title` | static/app/components/replays/breadcrumbs/utils.tsx:32-41 | models getTitle. Its own contract: a `label` entry is the title; without one the title is a string containing a space. `LabelIsTitle`, `TitleOfTypeAndAction`, `TitleIgnoresLaterPieces`, `TitleOfTypeOnly` and `TitleWithoutCategory` state the rest |
| `Breadcrumbs.LabelIsTitle` | static/app/components/replays/breadcrumbs/utils.tsx:36-38 | a `label` entry in the data is the title, unchanged, whatever the category is |
| `Breadcrumbs.TitleOfTypeAndAction` | static/app/components/replays/breadcrumbs/utils.tsx:33-40 | without a label, the category `t.a` gives the title `T a`, where `T` is `User` for `ui` and `t` otherwise |
| `Breadcrumbs.TitleIgnoresLaterPieces` | static/app/components/replays/breadcrumbs/utils.tsx:33 | the pieces of the category after the second one do not change the title |
| `Breadcrumbs.TitleOfTypeOnly` | static/app/components/replays/breadcrumbs/utils.tsx:33-40 | a category without `.` gives its type followed by a trailing space |
| `Breadcrumbs.TitleWithoutCategory` | static/app/components/replays/breadcrumbs/utils.tsx:33-40 | without a category and without a label, the title is the literal `undefined ` |
| `Breadcrumbs.UiClickTitle` | static/app/components/replays/breadcrumbs/utils.tsx:40 | the category `ui.click` without a label gives the title `User click` |
| `Breadcrumbs.GetDetails` | static/app/components/replays/breadcrumbs/utils.tsx:46-48 | the details are the title and the description computed from the same crumb and start |
| `TagValueAutocomplete.AriaLabel` | static/app/views/settings/project/filtersAndSampling/modal/tagValueAutocomplete.tsx:53-79 | the label is empty if and only if the category is unknown; an unknown category reports exactly one error, a known one reports none |
| `TagValueAutocomplete.TraceAndEventShareLabels` | static/app/views/settings/project/filtersAndSampling/modal/tagValueAutocomplete.tsx:55-63 | the trace and event variants of release, environment and transaction have the same label |
| `TagValueAutocomplete.LabelsIdentifySubjects` | static/app/views/settings/project/filtersAndSampling/modal/tagValueAutocomplete.tsx:53-73 | two known categories have the same label if and only if they are about the same subject |
| `TagValueAutocomplete.Unfetched` | static/app/views/settings/project/filtersAndSampling/modal/tagValueAutocomplete.tsx:103-106 | every created tag is one of the pieces and equals no fetched tag value |
| `TagValueAutocomplete.CreatedOptions` | static/app/views/settings/project/filtersAndSampling/modal/tagValueAutocomplete.tsx:101-106 | models `createdOptions`. Its own contract: no created options for an absent or empty value; otherwise each is a comma-piece of the value and not fetched. `CreatedAreUnfetchedPieces`, `UnfetchedMembership`, `UnfetchedMultiplicity`, `UnfetchedAppend` and `CreatedNeverFetched` state the rest |
| `TagValueAutocomplete.UnfetchedAppend` | static/app/views/settings/project/filtersAndSampling/modal/tagValueAutocomplete.tsx:103-106 | filtering distributes over concatenation, so the created options keep the pieces' order |
| `TagValueAutocomplete.UnfetchedMembership` | static/app/views/settings/project/filtersAndSampling/modal/tagValueAutocomplete.tsx:103-106 | a value is created if and only if it is a piece and is not fetched |
| `TagValueAutocomplete.UnfetchedMultiplicity` | static/app/views/settings/project/filtersAndSampling/modal/tagValueAutocomplete.tsx:103-106 | an unfetched piece is created as many times as it occurs; a fetched one is never created (duplicates are kept, not merged) |
| `TagValueAutocomplete.CreatedAreUnfetchedPieces` | static/app/views/settings/project/filtersAndSampling/modal/tagValueAutocomplete.tsx:101-106 | for a non-empty value, the created options are exactly its comma-pieces that are not fetched |
| `TagValueAutocomplete.CreatedNeverFetched` | static/app/views/settings/project/filtersAndSampling/modal/tagValueAutocomplete.tsx:103-106 | no created option equals any fetched tag value |
| `TagValueAutocomplete.Options` | static/app/views/settings/project/filtersAndSampling/modal/tagValueAutocomplete.tsx:112-115 | the options are the created options followed by the fetched tags; there are as many as both together, and each option's label is its value |
| `TagValueAutocomplete.NoValueOffersFetchedTags` | static/app/views/settings/project/filtersAndSampling/modal/tagValueAutocomplete.tsx:101-112 | with an absent or empty value, the options are exactly the fetched tags, mapped to value and label |
| `TagValueAutocomplete.EverySelectedValueIsOffered` | static/app/views/settings/project/filtersAndSampling/modal/tagValueAutocomplete.tsx:99-116 | every comma-piece of a non-empty value is the value of some offered option |
| `TagValueAutocomplete.EmptyValueSelectsUnofferedPiece` | static/app/views/settings/project/filtersAndSampling/modal/tagValueAutocomplete.tsx:101-116 | the value `""` selects the single piece `""`, which is offered if and only if some fetched tag is empty |
| `TagValueAutocomplete.OptionsExample` | static/app/views/settings/project/filtersAndSampling/modal/tagValueAutocomplete.tsx:101-115 | with the value `a,b,c` and a fetched `b`, the option list is exactly `a`, `c`, `b` in that order, each labelled with its own value |
| `TagValueAutocomplete.AllSelectedValuesOffered` | static/app/views/settings/project/filtersAndSampling/modal/tagValueAutocomplete.tsx:99-116 | every comma-piece of a non-empty value at once is the value of some offered option |
| `TagValueAutocomplete.Selection` | static/app/views/settings/project/filtersAndSampling/modal/tagValueAutocomplete.tsx:116 | models `value?.split(',')`. Its own contract: a selection exists exactly when the value does, has at least one piece, and no piece holds a comma. `SelectionRoundTrip` and `EmptyValueSelectsUnofferedPiece` state the rest |
| `TagValueAutocomplete.Encode` | static/app/views/settings/project/filtersAndSampling/modal/tagValueAutocomplete.tsx:117-119 | models `newValue?.join(',')`. Its own contract: a string is emitted exactly when there is a new value, it starts with the first selected value, and two or more values put a comma in it. `SelectionRoundTrip`, `EncodeRoundTrip`, `CommaInValueSplitsOnReadBack` and `ClearedSelectionReadsBackAsEmptyPiece` state the rest |
| `TagValueAutocomplete.SelectionRoundTrip` | static/app/views/settings/project/filtersAndSampling/modal/tagValueAutocomplete.tsx:116-119 | re-emitting the selection decoded from any value, absent or not, gives back that value |
| `TagValueAutocomplete.EncodeRoundTrip` | static/app/views/settings/project/filtersAndSampling/modal/tagValueAutocomplete.tsx:116-119 | a non-empty selection of comma-free values survives being emitted and decoded again |
| `TagValueAutocomplete.CommaInValueSplitsOnReadBack` | static/app/views/settings/project/filtersAndSampling/modal/tagValueAutocomplete.tsx:116-119 | the one-value selection `["a,b"]` is emitted as `a,b` and reads back as `["a", "b"]` |
| `TagValueAutocomplete.ClearedSelectionReadsBackAsEmptyPiece` | static/app/views/settings/project/filtersAndSampling/modal/tagValueAutocomplete.tsx:117-119 | an empty selection is emitted as `""`, which decodes to one empty piece |
| `TagValueAutocomplete.Component.constructor` | static/app/views/settings/project/filtersAndSampling/modal/tagValueAutocomplete.tsx:42-51 | a mounted field holds its properties, no tag values, no error reports and no fetches |
| `TagValueAutocomplete.Component.Load` | static/app/views/settings/project/filtersAndSampling/modal/tagValueAutocomplete.tsx:82-93 | without a non-empty tag key, nothing is fetched and the tag values stay the same; otherwise one fetch is issued with the organisation, the tag key, no query and the one project; on success the tag values become the response, on failure they stay the same |
| `TagValueAutocomplete.Component.GetAriaLabel` | static/app/views/settings/project/filtersAndSampling/modal/tagValueAutocomplete.tsx:53-79 | returns the category's label and appends that category's reports to the component's error reports: one report for an unknown category, none otherwise |
| `TagValueAutocomplete.Component.RenderedOptions` | static/app/views/settings/project/filtersAndSampling/modal/tagValueAutocomplete.tsx:112-115 | the options rendered for the component's current value and tag values: each option's label is its value, and every comma-piece of a non-empty value is offered. `Options` and the option lemmas state the rest |
| `TagValueAutocomplete.FirstFailedFetchOffersNothing` | static/app/views/settings/project/filtersAndSampling/modal/tagValueAutocomplete.tsx:82-93 | a freshly mounted field whose first fetch fails has no tag values and offers only its created options |
| `TagValueAutocomplete.FailureKeepsLastResponse` | static/app/views/settings/project/filtersAndSampling/modal/tagValueAutocomplete.tsx:82-93 | after a successful fetch and then a failed one, the tag values are the successful response (none without a tag key) |

## Left out

- Rendering and the react-select component: the container, option and multi-value overrides, the `data-test-id` attributes, the styles, `formatCreateLabel` (the `Add "<value>"` text) and the placeholder from `getMatchFieldPlaceholder`. These are presentation.
- Hooks wiring: which property changes re-run the loader through `useCallback` and `useEffect`. The model calls `Load` explicitly, and a component's properties are fixed when it is constructed.
- The network call `fetchTagValues` and `useApi`: the fetch is only its outcome, given to `Load` as a parameter. Overlapping fetches and the order in which they resolve are not modelled.
- `Sentry.captureException` is acted on only as an entry in the ghost list `errorReports`. `t` is taken as the identity on its English messages.
- `JSON.stringify` and `Date#getTime` are opaque functions in `Host`. The model keeps no JSON or date semantics, and `JSON.stringify(undefined)` (which is `undefined`, not a string) is not told apart from a string result.
- Numbers are integers: fractional milliseconds and `NaN` are not modelled.
- A string timestamp is not modelled. If `Crumb.timestamp` were a date string, its only falsy value would be `""` (the string `"0"` is truthy), and `new Date(...)` would parse it. `LcpWithoutTimestampsFallsThrough` and the integer argument of `Host.dateGetTime` rest on the assumption that the timestamp is a number.
- `Strings.NatToDecimal`: JavaScript renders integers of 10^21 and above in exponent notation; this rendering always prints every digit.
- The data values the formatter handles are modelled as strings, `null` and `undefined`. A non-string `to` entry (a number, an object) is not modelled. Neither is the template literal's stringification of such values.
- `tests/snuba/api/endpoints/test_discover_homepage_query.py` and `src/sentry/models/projectbookmark.py` are not part of this model. The first is integration tests against a database, and the second is a database schema.
