# LeetCode Friends dashboard: list-and-filter core

This project models, in Dafny, the client-side core of the LeetCode Friends dashboard
(`src/app/page.tsx`). It covers two parts of that file.

- **The "today's submissions" filter.** The dashboard applies it to each profile it fetches.
  It keeps the recent submissions made since the local start of the day. Of those it keeps
  the `Accepted` ones. It then keeps the first entry for each problem slug, using the
  `findIndex(...) === idx` test over the already filtered array.
- **The `Home` component's state.** The state is the tracked `userList`, the shown profiles
  `data`, the `error` line, the `loading` flag and the `username` input draft. The
  operations are `addUser`, `removeUser`, `fetchProfiles` and the mount effect that
  refetches a restored list.

The proxy request (`fetch` plus `res.json()`) is an oracle parameter `fetch: string -> Reply`.
A `Reply` is either `Thrown(message)`, for a rejected request or a body that is not JSON, or
`Response(ok, body)`. The start of the day is an integer parameter `startOfDay`. The list kept
in local storage is the field `stored`, and `Valid()` says it equals `userList`. The ghost
field `requests` records every name sent to the proxy, which makes "no request is made"
provable.

Files and modules:

- `wrappers.dfy` (`Wrappers`): `Option` and `Result`.
- `sequences.dfy` (`Sequences`): `Filter` (JavaScript's `Array.prototype.filter`),
  `IsSubsequence` and `NoDuplicates`.
- `text.dfy` (`Text`): `String.prototype.trim`, over the ECMAScript whitespace and
  line-terminator characters.
- `profiles.dfy` (`Profiles`): the `Submission` and `ProfileData` shapes and the submission
  filter `TodaysAccepted`.
- `fetch.dfy` (`Fetch`): what one reply becomes when refetching (`FetchStep`) and when
  adding (`AddStep`). It also holds the whole refetch loop as a function (`FetchAll`) and
  the number of requests that loop makes (`Attempted`).
- `dashboard.dfy` (`Dashboard`): the two removal filters, the lockstep predicate `Synced`,
  and the class `Home` with its methods.
- `scenarios.dfy` (`Scenarios`): two concrete runs.
  - Adding "alice" whose profile has one submission from today and one from yesterday.
  - Refetching `["alice", "bob"]` where "bob" fails.

Behaviour of the code worth knowing, which the model keeps:

- `addUser` fails with the thrown message when the request itself throws. It does not
  fail with "Invalid username" in that case.
- `fetchProfiles` does not check `matchedUser` at all. It accepts any ok body that has a
  submission list.
- An ok body with a `matchedUser.profile` but no `recentSubmissionList` makes `addUser` track
  the name and clear the draft before `.filter` throws. The list then grows, `data` does not,
  and the error line shows the `TypeError` (`AddStep` outcome `AddedThenThrew`).
- Appending on add instead of refetching raises the question whether `data` can fall
  out of step with `userList`. `SyncedAfterAdd` proves that a successful add keeps them
  in step when they were in step before. `SyncedAfterRemove` proves the same for
  removal, provided the proxy names each profile by the username it was asked for.
  Four paths break the lockstep:
  - the `AddedThenThrew` add;
  - a proxy that reports a different username;
  - a refetched ok body without `matchedUser`, which `fetchProfiles` accepts; from then on
    every removal throws in the profile filter, so `userList` shrinks while `data` stays;
  - a failed refetch (`FetchProfiles` or the mount effect), which leaves `data` empty
    while `userList` is not, after which a successful add puts the new profile at
    `data[0]` while its name sits at the end of `userList`.

## Model

| member | source | states |
|---|---|---|
| Sequences.Filter | src/app/page.tsx:89-90 | the result holds exactly the input's elements that pass the test, and is a subsequence of the input (original order kept) |
| Sequences.FilterCounts | src/app/page.tsx:89-90 | every copy of a passing element is kept and every copy of a failing one dropped: the result's count of each value is the input's count when it passes and 0 otherwise |
| Sequences.FilterNoDuplicates | src/app/page.tsx:105 | filtering a duplicate-free list (the tracked usernames) leaves it duplicate-free |
| Sequences.AppendFreshNoDuplicates | src/app/page.tsx:68-81 | appending a name that is not yet in a duplicate-free list keeps it duplicate-free |
| Text.Trim | src/app/page.tsx:67 | neither end of the trimmed draft is whitespace, and it is empty exactly when the draft is all whitespace |
| Text.TrimCuts | src/app/page.tsx:67 | cutting a whitespace-only prefix and then a whitespace-only suffix leaves the slice of the draft between the cuts, with neither end whitespace, empty exactly when the draft is all whitespace |
| Text.TrimInfix | src/app/page.tsx:67 | the trimmed draft is the draft with a whitespace-only prefix and a whitespace-only suffix removed: a slice `s[a..b]` with only whitespace before `a` and from `b` on |
| Text.TrimIdempotent | src/app/page.tsx:67 | a trimmed name trims to itself |
| Profiles.FindSlug | src/app/page.tsx:93 | `findIndex` returns the first index holding the slug, or -1 exactly when no entry has it |
| Profiles.KeepFirstFrom | src/app/page.tsx:91-94 | the dedup filter from index `i` on keeps a subsequence of the entries from `i` on |
| Profiles.FindSlugAt | src/app/page.tsx:93 | `findIndex` finds an entry's slug at that entry when no earlier entry has the slug |
| Profiles.KeepFirstMembers | src/app/page.tsx:91-94 | the dedup filter keeps exactly the entries that `findIndex` finds at their own index: each survivor is the first entry with its slug, and every such first entry survives |
| Profiles.KeepFirstLaterSlugsDiffer | src/app/page.tsx:91-94 | an entry the dedup filter keeps shares its slug with no entry it keeps after it |
| Profiles.KeepFirstUniqueSlugs | src/app/page.tsx:91-94 | after the dedup filter no two entries share a slug |
| Profiles.KeepFirstFromAfter | src/app/page.tsx:91-94 | everything the dedup filter keeps from index `i` on has its slug first at or after `i` |
| Profiles.PrependInOrder | src/app/page.tsx:91-94 | an entry whose slug first occurs before the slug of every entry of a list already in first-occurrence order can be put at the head of that list without breaking the order |
| Profiles.KeepFirstOrdered | src/app/page.tsx:91-94 | the dedup filter keeps its survivors in the order of their slugs' first occurrences |
| Profiles.FindSlugInQualifying | src/app/page.tsx:88-94 | because `arr` is the output of the first two filters, `findIndex` over it lands on the first qualifying entry of the raw list for that slug |
| Profiles.TodaysAcceptedQualifies | src/app/page.tsx:88-94 | the filter chain yields a subsequence of the raw list (order kept) holding only entries with `timestamp >= startOfDay` and status "Accepted" |
| Profiles.TodaysAcceptedFirstPerSlug | src/app/page.tsx:88-94 | the filter chain leaves unique slugs, in the order in which their slugs first qualify in the raw list; each survivor is the first qualifying entry of the raw list for its slug, and every slug with a qualifying entry is represented |
| Profiles.KeepFirstOfUniqueSlugs | src/app/page.tsx:91-94 | on a list whose slugs are already unique the dedup filter keeps everything |
| Profiles.TodaysAcceptedIdempotent | src/app/page.tsx:88-94 | filtering twice with the same start of day gives the same list as filtering once |
| Fetch.FetchStepSpec | src/app/page.tsx:117-130 | one refetch step succeeds exactly on an ok response whose body has a submission list, without looking at `matchedUser`; it fails with the thrown message, with the body's error or "Failed to fetch for " and the name on a non-ok response, or with the `TypeError` on a missing list; the pushed profile keeps the body's error and `matchedUser` and holds `TodaysAccepted` of its list |
| Fetch.FetchAllAllOrNothing | src/app/page.tsx:115-132 | the refetch succeeds exactly when every request succeeds, and then holds one profile per name in list order, each the one its request produced |
| Fetch.Attempted | src/app/page.tsx:116-131 | the loop makes at most one request per name, exactly one per name when the refetch succeeds, and at least one when it fails |
| Fetch.FetchAllFirstFailure | src/app/page.tsx:116-119 | at the first failing request the refetch fails with that request's message, and that request is the last one made |
| Fetch.FetchAllFailedPrefix | src/app/page.tsx:116-131 | once a prefix of the list has failed, the names after it change neither the outcome nor the number of requests |
| Fetch.FetchAllSnoc | src/app/page.tsx:116-130 | one more name at the end: the refetch so far, then that name's step |
| Fetch.FetchLoopStep | src/app/page.tsx:116-131 | one turn of the loop after a successful prefix: a successful reply extends the profiles; a failing one decides the whole refetch and is the last request |
| Fetch.AddStepSpec | src/app/page.tsx:72-99 | `addUser` rejects exactly a thrown error, a non-ok response, or a body without `matchedUser` or its `profile`; the message is the thrown one, the body's error, or "Invalid username: " and the name; what it accepts equals what the refetch loop would produce |
| Dashboard.WithoutUser | src/app/page.tsx:105 | removal deletes every occurrence of the name and keeps every other entry, as many times as it occurs and in order |
| Dashboard.WithoutProfilesOf | src/app/page.tsx:106 | the profile filter throws exactly when some profile lacks `matchedUser`; otherwise it keeps every profile of another user, as many times as it occurs and in order, and drops every profile of that user |
| Dashboard.SyncedSplit | src/app/page.tsx:116-130 | a refetch of a list ending in `x` is the refetch of the prefix followed by `x`'s profile |
| Dashboard.SyncedExtend | src/app/page.tsx:116-130 | appending a name and the profile fetched for it keeps the profiles equal to a refetch |
| Dashboard.SyncedAfterAdd | src/app/page.tsx:81-95 | after a successful add, the appended profiles equal what a refetch of the longer list gives |
| Dashboard.SyncedAfterRemove | src/app/page.tsx:104-107 | if each profile is reported under the requested name, removal leaves the profiles equal to a refetch of the shorter list |
| Dashboard.WithoutUserSnoc | src/app/page.tsx:105 | removing from a list with one more name at the end removes from the prefix and keeps that name unless it is the removed one |
| Dashboard.WithoutProfilesSnoc | src/app/page.tsx:106 | the same for the profile list |
| Dashboard.ReadProfile | src/app/page.tsx:117-130 | one pass of the loop body: success exactly on an ok body with a submission list, whether or not `matchedUser` is present; failure with the thrown message, the body's error or "Failed to fetch for " and the name, or the `TypeError` for a missing list; the pushed profile keeps the body's other fields and holds today's accepted submissions; and it is the step `FetchAll` takes |
| Dashboard.Home.constructor | src/app/page.tsx:40-51 | first render: the restored list, an empty draft, no profiles, no error, not loading, local storage equal to the list |
| Dashboard.Home.SetUsername | src/app/page.tsx:149 | typing sets the draft and nothing else |
| Dashboard.Home.ApplyAddReply | src/app/page.tsx:74-95 | after the reply to an add request, per `AddStep`: a rejection sets only the error; an acceptance appends the name, stores the list and clears the draft, then appends the filtered profile, or sets the `TypeError` when the list is missing |
| Dashboard.Home.AddUser | src/app/page.tsx:66-102 | no-op without a request on an empty or already tracked trimmed draft; otherwise one request, then per `AddStep`: on rejection list, profiles and draft are unchanged and the error is set; on success the name is appended, the draft cleared, the filtered profile appended and the error cleared; a duplicate-free list stays duplicate-free; loading is false at exit |
| Dashboard.Home.RemoveUser | src/app/page.tsx:104-107 | the list becomes `WithoutUser`, the profiles `WithoutProfilesOf` (unchanged if that throws), no request, draft and error unchanged, local storage follows the list |
| Dashboard.Home.FetchProfiles | src/app/page.tsx:110-138 | either all profiles in list order with the error cleared, or no profiles with the first failure's message; requests are exactly the names up to and including the first failure; loading is false at exit |
| Dashboard.Home.Mount | src/app/page.tsx:59-64 | a non-empty restored list is refetched as `FetchProfiles` says; an empty one changes nothing |
| Scenarios.OnlyTodaySurvives | src/app/page.tsx:88-94 | of an accepted submission from today and one from yesterday, only today's survives the filter |

## Left out

- Rendering (`src/app/page.tsx:140-257`): JSX, images, links and CSS classes are UI only.
- Local storage (`src/app/page.tsx:41-56`) is browser I/O. The constructor takes the already
  parsed list, and `JSON.parse` of a corrupt entry is not modelled. Writing the list back is
  the field `stored`, which `Valid()` keeps equal to `userList`.
- `fetch` and `res.json()` (`src/app/page.tsx:72-73`, `117-118`) are network I/O. They are
  the deterministic oracle `fetch`, so one name gets one reply within an operation and
  across operations. The query string is the raw name without URL encoding, so the oracle
  is keyed by the raw name.
- The body is assumed to be a JSON object whose `error` field, when present, is a string.
  An absent `error` and an empty one are both `""`. A body that is `null` or not an object
  is not modelled.
- The `err instanceof Error` else branch ("Unknown error occurred") is not modelled. Every
  value thrown on these paths is an `Error`.
- `MissingListMessage` is V8's text for `.filter` on `null`. Other engines word the
  `TypeError` differently.
- An absent `recentSubmissionList` key is modelled like `null`: both are `None`, and both
  give the `null` message. In V8 an absent key gives "Cannot read properties of undefined
  (reading 'filter')" instead; the model does not tell the two apart.
- Local midnight via `Date`/`setHours` (`src/app/page.tsx:85-87`, `120-122`) depends on the
  clock and the time zone. `startOfDay` is a parameter. `fetchProfiles` recomputes it on
  every iteration, and the model uses one value for the whole loop.
- `timestamp` is an integer. Numeric strings, which JavaScript would coerce, are not modelled.
- `Trim` follows ECMAScript's whitespace set on Unicode scalar values. UTF-16 surrogate
  detail is not modelled.
- Dashboard.Home.RemoveUser assumes the `setUserList` update issued before the profile
  filter throws is still applied. React applies queued updates from a handler that throws.
- Overlapping operations and the `loading` button gate (`src/app/page.tsx:156`) exist only
  because of asynchronous re-entry. The model runs one operation at a time, with
  `loading` false between operations.
- `src/app/api/leetcode/route.ts` is a thin pass-through over the external `leetcode-query`
  client and is not part of this model. Its replies appear only through the oracle.
- `next.config.ts` is framework configuration.
