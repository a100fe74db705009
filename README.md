# Job application tracker, modelled in Dafny

This project models the state logic of the `JobTracker` React component, a
client-side tracker of job applications. The component keeps a list of
application records, and a form draft that is either a new record or an edit
of an existing one. It adds, replaces and deletes records by id, and it
rejects a draft whose company, title or date is empty. From the list it
derives a four-criterion filtered view, the sorted distinct locations offered
by the location filter, and the dashboard counts per status. The list is
saved to browser storage after every change.

Modules, one per part of the component:

- `Wrappers`: `Option`, for record fields that may be missing.
- `Lists`: `Keep`, the model of `Array.prototype.filter`, with the lemma that
  it picks elements at increasing positions, exactly those that satisfy the
  predicate.
- `Text`: ASCII `Lower`, substring `Contains` and the lexicographic order
  `Below` on strings.
- `Sorting`: `Dedup` (the `Set` step) and insertion `Sort` (the `sort()`
  step) of the location list.
- `Jobs`: the `Job` record, the `Form` draft, the record a draft makes
  (`Record`) and the draft an edit opens (`Draft`), plus the update-by-id
  (`Updated`) and delete-by-id (`Removed`) list operations.
- `Views`: the filters, `FilteredJobs`, `UniqueLocations` and `StatsOf`.
- `Seed`: the nine example records the component starts from.
- `Tracker`: the class `JobTracker`. Its fields are the component's state
  hooks and its methods are the event handlers.

Points where the code's behaviour is easy to misread:

- Mounting always overwrites the saved list with the seed data
  (src/App.jsx:120-124). The constructor therefore starts from the seed, and
  a saved list is never read back.
- `status` is a free string. The form's select offers four values, but
  `handleChange` stores whatever it receives. The four counts therefore sum
  to the total only when every status is one of the four. `Views.StatsSum`
  proves both that bound and its if-and-only-if.
- Of the handlers, only `handleEdit` copies the location into a missing work
  style (src/App.jsx:182). The card label shows the same
  `workStyle || location || 'Remote'` chain (src/App.jsx:404). The filter,
  however, reads a missing style as Remote (src/App.jsx:213).
  `Views.LegacyStyleAfterEdit` proves the effect. A record with a location
  and no work style is kept by the Remote filter. After an unchanged save of
  its edit, it is not.
- Delete confirmation is the `confirmed` argument of `HandleDelete`.

## Model

| member | source | states |
|---|---|---|
| `Lists.Keep` | src/App.jsx:211-221 | filter keeps at most the input's length; every kept element is from the input and satisfies the predicate; every input element that satisfies it is kept |
| `Lists.KeepSelects` | src/App.jsx:211-221 | filter reads the input at strictly increasing positions (order preserved), and a position is read exactly when its element satisfies the predicate |
| `Lists.KeepAll` | src/App.jsx:211-221 | filtering with a predicate every element satisfies returns the input unchanged |
| `Lists.KeepIdempotent` | src/App.jsx:211-221 | filtering a filtered list again by the same predicate changes nothing |
| `Lists.SelectsSingle` | src/App.jsx:211-221 | an order-preserving selection of exactly one position is the one-element list of that element |
| `Text.Lower` | src/App.jsx:214-218 | `toLowerCase` keeps the length and folds each ASCII upper-case letter, position by position |
| `Text.LowerIdempotent` | src/App.jsx:214-218 | folding case twice is folding once |
| `Text.ContainsIffOccurs` | src/App.jsx:214-218 | `includes` holds exactly when the part occurs at some position of the text |
| `Text.BelowIrreflexive` | src/App.jsx:224 | no string sorts strictly before itself |
| `Text.BelowTransitive` | src/App.jsx:224 | the sort order is transitive |
| `Text.BelowTotal` | src/App.jsx:224 | of two different strings, one sorts before the other |
| `Text.BelowAsymmetric` | src/App.jsx:224 | two strings never sort before each other both ways |
| `Sorting.Dedup` | src/App.jsx:224 | `[...new Set(xs)]` has no repeats and holds exactly the strings of `xs` |
| `Sorting.Insert` | src/App.jsx:224 | inserting a new string into a strictly sorted list keeps it strictly sorted, adds one element, and adds exactly that string |
| `Sorting.Sort` | src/App.jsx:224 | sorting a list without repeats gives a strictly sorted list of the same length with the same strings |
| `Sorting.StrictlySortedIsDistinct` | src/App.jsx:224 | a strictly sorted list has no repeats |
| `Sorting.StrictlySortedUnique` | src/App.jsx:224 | two strictly sorted lists with the same strings are equal |
| `Jobs.Set` | src/App.jsx:150-153 | setting one draft field gives it the new value and leaves the other eight as they were |
| `Jobs.DefaultFormIncomplete` | src/App.jsx:126-136 | the empty draft (`DefaultForm`, also set at lines 173 and 194) has work style Remote, status Applied and `''` in the other seven fields, and the submit guard always rejects it |
| `Jobs.CompleteOnlyRequired` | src/App.jsx:156 | the submit guard (`Complete`) reads only company, title and date: setting any other field never changes whether a draft is accepted |
| `Jobs.Record` | src/App.jsx:161-169 | the record built from a draft (`{ id, ...form }`, and `{ ...job, ...form }` for the edited record) carries the given id, and editing it reopens that same draft when the draft has a work style |
| `Jobs.Draft` | src/App.jsx:178-188 | the edit draft copies company, title, status and date; a present location, salary, note or link is copied, and a missing one becomes `''`; a present non-empty work style is copied; a missing or `''` work style takes the non-empty location, and otherwise becomes Remote |
| `Jobs.RecordOfDraft` | src/App.jsx:160-188 | saving an unchanged edit of a record that has every field and a work style gives back the same record |
| `Jobs.RecordFilled` | src/App.jsx:156-170 | a record saved from a draft that passed the guard, prepended or replacing the edited record, leaves every record with a company, a title and a date |
| `Jobs.RemovedFilled` | src/App.jsx:201 | delete leaves every record with a company, a title and a date |
| `Jobs.PrependKeepsUniqueIds` | src/App.jsx:166-170 | prepending a record with a fresh id keeps ids unique |
| `Jobs.Updated` | src/App.jsx:160-162 | update keeps the length; the record with the id becomes the draft under the same id; every other record is unchanged in its place |
| `Jobs.UpdatedKeepsIds` | src/App.jsx:160-162 | update keeps every id in its place, so unique ids stay unique |
| `Jobs.UpdatedUnknownId` | src/App.jsx:160-162 | update with an id that no record has returns the list unchanged |
| `Jobs.Removed` | src/App.jsx:201 | every record left after delete is from the list and has another id, and every record with another id is left |
| `Jobs.RemovedSelects` | src/App.jsx:199-203 | after delete no record has the id; the records left are the input read at increasing positions, exactly the positions whose id differs |
| `Jobs.RemovedUnknownId` | src/App.jsx:199-203 | deleting an id that no record has leaves the list unchanged |
| `Jobs.RemovedLength` | src/App.jsx:201 | with unique ids, delete removes one record if the id exists and none otherwise |
| `Jobs.RemovedKeepsUniqueIds` | src/App.jsx:201 | delete keeps ids unique |
| `Views.SetFilter` | src/App.jsx:205-208 | setting one criterion gives it the new value and leaves the other three |
| `Views.FilteredSelects` | src/App.jsx:211-221 | the filtered list is an order-preserving subsequence of `jobs` holding exactly the records that match all four criteria |
| `Views.MentionsIffFinds` | src/App.jsx:214-218 | the case-insensitive `includes` holds exactly when the folded text occurs at some position of the folded string |
| `Views.MentionsExact` | src/App.jsx:214-218 | a text that occurs with the same case is found by the case-insensitive `includes` |
| `Views.MatchesByOccurrence` | src/App.jsx:212-218 | a record passes the four criteria (`Matches`) exactly when each one holds or is left on All: equal status; equal work style, Remote when missing; the chosen location occurring in its location (an empty choice also passes); the search text occurring in its company, title or location (an empty search also passes), all ignoring case |
| `Views.FilteredJobs` | src/App.jsx:211-221 | the filtered list is no longer than `jobs`, every record in it is from `jobs` and passes the criteria, and every record of `jobs` that passes is in it |
| `Views.FilteredDefaults` | src/App.jsx:139-144 | with the initial criteria (`DefaultFilters`: All/All/All/'') the filtered list equals `jobs` |
| `Views.FilteredStatus` | src/App.jsx:212 | with a status other than All, every shown record has exactly that status |
| `Views.FilteredWorkStyle` | src/App.jsx:213 | with a work style other than All, every shown record has that style, or has none while the style is Remote |
| `Views.FilteredIdempotent` | src/App.jsx:211-221 | filtering the filtered list again changes nothing |
| `Views.SearchIgnoresCase` | src/App.jsx:215-218 | folding the search text first selects exactly the same records |
| `Views.LegacyStyleAfterEdit` | src/App.jsx:182 | a record with a location but no work style is shown by the Remote filter, but after saving an unchanged edit it is not |
| `Views.PresentLocations` | src/App.jsx:224 | `map(location).filter(Boolean)` holds exactly the non-empty locations of the records |
| `Views.UniqueLocations` | src/App.jsx:224 | the location choices are strictly sorted, have no repeats and no `''`, and are exactly the non-empty locations of the records |
| `Views.UniqueLocationsUnique` | src/App.jsx:224 | any strictly sorted list of exactly those locations is the location list |
| `Views.CountStatus` | src/App.jsx:229-232 | a per-status count is at most the number of records, and is 0 exactly when no record has that status |
| `Views.Statuses` | src/App.jsx:227-233 | the statuses of the records, one per record, in order |
| `Views.CountStatusIsMultiplicity` | src/App.jsx:229-232 | a per-status count is the number of records with that status |
| `Views.CountStatusIsFiltered` | src/App.jsx:229-232 | a per-status count is the length of the list shown by that status filter |
| `Views.StatsSum` | src/App.jsx:227-233 | in the dashboard (`StatsOf`), `total` is the number of records; the four counts sum to at most `total`, and to exactly `total` iff every status is Applied, Interviewing, Offer or Rejected |
| `Views.KeepSame` | src/App.jsx:229-232 | filtering by two predicates that agree on every record gives the same list |
| `Seed.InitialData` | src/App.jsx:4-110 | the seed list has nine records with pairwise different ids, each with a company, a title and a date |
| `Seed.SeedStatuses` | src/App.jsx:4-110 | the seed statuses in order |
| `Seed.SeedOffers` | src/App.jsx:4-110 | filtering the seed list by Offer shows only the Stripe record |
| `Seed.OnlyFifthIsOffer` | src/App.jsx:211-221 | in a list with the seed statuses, the Offer filter shows the fifth record alone |
| `Seed.SeedStats` | src/App.jsx:227-233 | the seed dashboard shows 9 jobs: 4 applied, 3 interviewing, 1 offer and 1 rejected |
| `Seed.StatsOfSeedStatuses` | src/App.jsx:227-233 | any list with the seed statuses has the seed dashboard counts |
| `Seed.SeedStatusCounts` | src/App.jsx:4-110 | the seed statuses contain 4 Applied, 3 Interviewing, 1 Offer and 1 Rejected |
| `Tracker.JobTracker.constructor` | src/App.jsx:119-144 | on mount the list and the saved copy are the seed list, the draft is the default (Remote, Applied, all else `''`), the form is hidden, nothing is being edited, and the filters are All/All/All/'' |
| `Tracker.JobTracker.HandleChange` | src/App.jsx:150-153 | the draft becomes the old draft with one field set |
| `Tracker.JobTracker.HandleFilterChange` | src/App.jsx:205-208 | the filters become the old filters with one criterion set |
| `Tracker.JobTracker.OpenForm` | src/App.jsx:319-323 | the form is shown; opened from the hidden state it holds the default draft and edits no record |
| `Tracker.JobTracker.HandleAddJob` | src/App.jsx:155-175 | an incomplete draft is rejected and jobs, draft, editing id and form visibility are unchanged; otherwise a record with a fresh id and the draft's fields is prepended to the unchanged old list, or the edited id's record is replaced (an unknown id leaves the list equal), and then the draft resets, editing clears and the form hides; ids stay unique, every record keeps a company, a title and a date, and the saved copy equals the list |
| `Tracker.JobTracker.HandleEdit` | src/App.jsx:177-191 | the draft becomes the record's edit draft, the editing id becomes the record's id, and the form is shown |
| `Tracker.JobTracker.HandleCancel` | src/App.jsx:193-197 | the draft is reset to its defaults, editing clears and the form hides; the list is untouched |
| `Tracker.JobTracker.HandleDelete` | src/App.jsx:199-203 | when confirmed the list becomes the delete-by-id of the old list, and no record has the id; declining, or an absent id, leaves the list unchanged; ids stay unique, every record keeps a company, a title and a date, and the saved copy equals the list |

## Left out

- Rendering: the JSX markup, the CSS classes, `statusColors` and the emojis
  are presentation only (src/App.jsx:112-117, 235-457).
- Browser storage, JSON and serialisation: storage is a field `stored`
  holding the list itself. `Valid()` keeps it equal to `jobs` after every
  transition. The JSON encoding and its round trip are not modelled.
- `uuidv4()` is a random external call. `HandleAddJob` takes the new id as
  the argument `freshId`. It requires that id to be fresh on every call, even
  for an edit or a rejected draft, where the component never calls `uuidv4()`.
  The seed ids are a parameter of `InitialData`, so they are assumed
  pairwise different.
- `alert` is the `false` result of `HandleAddJob`. `confirm` is the
  `confirmed` argument of `HandleDelete`. These blocking dialogs are
  otherwise not modelled.
- `Text.Lower`: folds only the ASCII letters A-Z. JavaScript's Unicode case
  mapping is not modelled.
- `Text.Below`: compares characters by Unicode scalar value. JavaScript's
  default `sort` compares UTF-16 code units, and the two orders differ only
  for characters outside the Basic Multilingual Plane.
- `Views.UniqueLocations`: does not state the first-occurrence order of
  the `Set` step, because the sort that follows removes it.
- React's render and batching mechanics: each handler is one atomic
  transition of the state.
- `HandleChange`: requires the form to be shown. The form's inputs are
  rendered only inside the modal (src/App.jsx:330-369).
- Only the nine input names of the form and the four names of the filter
  controls are modelled. `[name]: value` with any other name, which would
  add a new key, is not.
- A record that lacks `company`, `title`, `date` or `status` is not
  modelled: `Job` makes these fields mandatory. Every record is either a seed
  record or built from the form, because mounting overwrites the saved list
  (src/App.jsx:121-123). The component would handle such a record as
  follows. The status filter and the counts find no match for a missing
  status. The search calls `toLowerCase` on the company,
  so a missing company throws with any non-empty search. A missing title throws only when the company does not contain the
  search text, because the `||` chain stops at the first match
  (src/App.jsx:215-217).
