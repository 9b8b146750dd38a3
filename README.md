# Media tracker client: a verified model

A Dafny model of the state handling in a React/Firebase media tracker. Signed-in users keep a list of movies, games and books. Each record carries a status, a rating, a watched date, a favourite flag, tags and a comment log.

## The store and the identity provider

The remote document store is a class `Firestore.Database`. Its one field is a map from `(collection, id)` to records. A record is a map from field names to JSON-like values, and an object spread `{...a, ...b}` is the map union `a + b`.

Every remote call takes its outcome (`ok`) as a parameter, so each handler is proved for success and for failure alike:
- `updateDoc` also fails when the document does not exist;
- the query returns a complete answer in an unspecified order (`Firestore.IsQueryResult`);
- the identity provider is a class `FirebaseAuth.User` that records the calls made on it.

## The components

Each component is a class whose fields are its React state. Each handler is a method that states the whole new state and what happened in the store.

- `MediaList`:
  - the owner-scoped list;
  - the three-criterion filter, a pure order-preserving function;
  - the status chips.
- `MediaDetails`:
  - one loaded record;
  - single-field updates, the rating and the comment log;
  - comment edit and delete, which are whole-list rewrites (`EditAt`, `RemoveAt`).
- `AddMediaForm`: a form with a duplicate-free tag list.
- `App`:
  - the avatar initial;
  - the profile merge-upsert on login;
  - the account deletion cascade, whose failure point is the index `failAt` of the first media delete that fails;
  - the profile dialog's handlers.
- `TmdbService`: the poster URL and the ordered query-parameter list.

Shared helpers:
- `Text`: ECMAScript `trim`, `includes` and a per-character `toLowerCase`;
- `Common`: `Option`, `Result`, subsequences.

## Model

| member | source | states |
|---|---|---|
| `Common.OrEmpty` | src/App.tsx:47-48 | `s || ''` on an optional string; its effect is stated by `App.SyncUserEffect` (missing fields written as `''`) and `TmdbService.BuildQueryParams` (`api_key` is `''` without a key) |
| `Text.Trim` | src/components/MediaDetails.tsx:66-70 | ECMAScript `trim`; what it keeps and what it cuts away are stated by `Text.TrimIsSlice`, `Text.TrimCutsWhitespace`, `Text.TrimEndsClean`, `Text.TrimEmptyIff` and `Text.TrimIdempotent` |
| `Text.StartIndex` | src/components/MediaDetails.tsx:66 | the characters before the index are all whitespace and the one at the index is not: the leading whitespace `trim` removes |
| `Text.EndIndex` | src/components/MediaDetails.tsx:66 | the characters from the index on are all whitespace and the one before it is not: the trailing whitespace `trim` removes |
| `Text.TrimIsSlice` | src/components/MediaDetails.tsx:70 | the trimmed comment is the contiguous piece of the input that starts after the leading whitespace |
| `Text.TrimCutsWhitespace` | src/components/MediaDetails.tsx:70 | only whitespace is cut away, in front of the trimmed comment and behind it |
| `Text.TrimEndsClean` | src/components/MediaDetails.tsx:70 | the trimmed comment neither starts nor ends with whitespace |
| `Text.TrimEmptyIff` | src/components/MediaDetails.tsx:66 | `comment.trim()` is empty exactly when the comment is all whitespace, so such comments are never sent |
| `Text.TrimIdempotent` | src/components/MediaDetails.tsx:70 | trimming a trimmed comment changes nothing |
| `Text.Contains` | src/components/MediaList.tsx:124 | `includes`, searched left to right; `Text.ContainsIff` states that it holds exactly when the search occurs at some position |
| `Text.ContainsIff` | src/components/MediaList.tsx:124 | `includes` holds exactly when the search occurs at some position of the title |
| `Text.ContainsEmpty` | src/components/MediaList.tsx:124 | every title includes the empty search |
| `Text.LowerCase` | src/components/MediaList.tsx:124 | the lowercased string has the input's length and every character mapped by the case map |
| `Text.Utf16` | src/App.tsx:78 | the code units a JavaScript string stores for one character; `Text.Utf16RoundTrip` states their shape and that they decode back to the character |
| `Text.Utf16RoundTrip` | src/App.tsx:78 | a character inside the Basic Multilingual Plane is one code unit equal to it, any other is a high surrogate then a low surrogate, and the units decode back to the character |
| `Text.FirstCodeUnit` | src/App.tsx:78 | `s[0]` on a JavaScript string, the first code unit; what the avatar shows through it is stated by `App.AvatarInitialSource` |
| `Firestore.FieldOr` | src/components/MediaDetails.tsx:49-52 | `d.field || fallback`: the stored value when it is present and truthy, otherwise the fallback |
| `Firestore.MergeUpsert` | src/App.tsx:46-50 | the store after a merging write; what it writes and keeps is stated by `Firestore.MergeUpsertEffect` and `Firestore.MergeUpsertIdempotent` |
| `Firestore.MergeUpsertEffect` | src/App.tsx:46-50 | a merging write stores every written field, keeps every other existing field of that document, adds no other field and leaves every other document unchanged |
| `Firestore.MergeUpsertIdempotent` | src/App.tsx:46-50 | repeating a merging write with the same data gives the same store |
| `Firestore.Database.GetDoc` | src/components/MediaDetails.tsx:44-46 | fails when the call fails; otherwise returns the stored document, or none when it does not exist |
| `Firestore.Database.Query` | src/components/MediaList.tsx:77-78 | fails exactly when the call fails; otherwise returns each matching document exactly once with its stored data, and no others |
| `Firestore.Database.AddDoc` | src/components/MediaList.tsx:95-100 | on success stores the data under an id not previously used in the collection and changes nothing else; on failure changes nothing |
| `Firestore.Database.SetDoc` | src/App.tsx:46-50 | on success overwrites, or with `merge` merge-upserts, that one document; on failure changes nothing |
| `Firestore.Database.UpdateDoc` | src/components/MediaDetails.tsx:88 | succeeds only for an existing document, whose fields the written ones override; the store is otherwise unchanged |
| `Firestore.Database.ArrayUnion` | src/components/MediaDetails.tsx:71-73 | succeeds only for an existing document and then appends the value to its array field |
| `Firestore.Database.DeleteDoc` | src/components/MediaList.tsx:113 | on success removes exactly that key; on failure changes nothing |
| `FirebaseAuth.WithoutProvider` | src/App.tsx:167 | the provider list after unlinking holds exactly the other providers |
| `FirebaseAuth.User.SetDisplayName` | src/App.tsx:109 | records the call; the name changes only on success |
| `FirebaseAuth.User.Reauth` | src/App.tsx:122-123 | records the re-authentication with the address and password given |
| `FirebaseAuth.User.SetPassword` | src/App.tsx:125 | records the password update |
| `FirebaseAuth.User.Delete` | src/App.tsx:139 | records the call; the identity is deleted only on success |
| `FirebaseAuth.User.LinkGoogle` | src/App.tsx:153-154 | records the call; the Google provider is added only on success |
| `FirebaseAuth.User.UnlinkProvider` | src/App.tsx:167 | records the call; the provider is removed only on success |
| `MediaList.Tagged` | src/components/MediaList.tsx:79-82 | `{ id: doc.id, ...doc.data() }`: the item's `id` is the stored `id` field when there is one and the document id otherwise, and every other field is as stored |
| `MediaList.Listing` | src/components/MediaList.tsx:79-82 | one item per query result, in query order, each the document data tagged with its id |
| `MediaList.NewMediaDoc` | src/components/MediaList.tsx:95-100 | the record `handleAddMedia` writes; `MediaList.NewMediaDocFields` states its fields |
| `MediaList.NewMediaDocFields` | src/components/MediaList.tsx:95-100 | the stored record has `userId`, `createdAt` and `status = 'planned'` whatever the draft carried, every other draft field as given, and no other field |
| `MediaList.AddedRecordListedOnce` | src/components/MediaList.tsx:95-101 | the refetch after an add lists the new record exactly once with exactly the written fields; every other listed record was already stored |
| `MediaList.DeletedRecordNotListed` | src/components/MediaList.tsx:113-114 | the refetch after a delete lists no record with the deleted id |
| `MediaList.SearchOk` | src/components/MediaList.tsx:124 | the search test of the filter; `MediaList.KeptItemSatisfiesCriteria` states what it demands of a kept item |
| `MediaList.StatusOk` | src/components/MediaList.tsx:125 | the status test; `MediaList.EmptyStatusImposesNothing` and `MediaList.KeptItemSatisfiesCriteria` state what it demands |
| `MediaList.RatingOk` | src/components/MediaList.tsx:126 | the rating test; `MediaList.RatingFilterHidesUnrated` and `MediaList.KeptItemSatisfiesCriteria` state what it demands |
| `MediaList.Matches` | src/components/MediaList.tsx:123-128 | all three tests together; `MediaList.Filter` keeps exactly the items it holds for |
| `MediaList.Filter` | src/components/MediaList.tsx:123-128 | the shown list is a subsequence of the items and contains exactly the items meeting every active criterion |
| `MediaList.FilterConcat` | src/components/MediaList.tsx:123 | filtering distributes over concatenation, so the original relative order is kept |
| `MediaList.FilterKeepsAllMatching` | src/components/MediaList.tsx:123-128 | when every item matches, the whole list is shown unchanged |
| `MediaList.NoCriteriaShowsAll` | src/components/MediaList.tsx:124-126 | an empty search, no status and no rating filter show every item |
| `MediaList.FilterIdempotent` | src/components/MediaList.tsx:123-128 | filtering the shown list again changes nothing |
| `MediaList.EmptyStatusImposesNothing` | src/components/MediaList.tsx:125 | a status filter of `''` selects the same items as no status filter |
| `MediaList.KeptItemSatisfiesCriteria` | src/components/MediaList.tsx:124-126 | every shown item has a title including the lowercased search (when one is set), has exactly the filtered status (when set), and has a numeric rating at least the minimum (when set) |
| `MediaList.RatingFilterHidesUnrated` | src/components/MediaList.tsx:126 | any rating filter, 0 included, hides every record without a numeric rating |
| `MediaList.StatusFromSelect` | src/components/MediaList.tsx:145 | `e.target.value || null`; `MediaList.StatusSelectRoundTrip` states that it never stores `''` and that the select reads it back |
| `MediaList.SelectValue` | src/components/MediaList.tsx:143 | `filterStatus || ''`; `MediaList.StatusSelectRoundTrip` states the round trip |
| `MediaList.StatusSelectRoundTrip` | src/components/MediaList.tsx:143-145 | a chosen select value reads back unchanged, and the select never stores `''` as a filter |
| `MediaList.StatusLabel` | src/components/MediaList.tsx:236-244 | the caption of a status; `MediaList.StatusLabelFallback` states the fallback and that the known captions differ |
| `MediaList.StatusColor` | src/components/MediaList.tsx:246-254 | the chip colour of a status; `MediaList.StatusColorFallback` states the default and that the other colours differ |
| `MediaList.StatusLabelFallback` | src/components/MediaList.tsx:236-244 | the label equals the status exactly when the status is unknown; the four known statuses have four different labels |
| `MediaList.StatusColorFallback` | src/components/MediaList.tsx:246-254 | the colour is not `default` exactly for `watching`, `completed` and `dropped`, and these three colours differ |
| `MediaList.MediaList.constructor` | src/components/MediaList.tsx:60-66 | empty list, not loading, no error, no filters |
| `MediaList.MediaList.FilteredItems` | src/components/MediaList.tsx:123-128 | the shown list is the filter of the items under the current search, status and rating controls, so `MediaList.Filter` and its lemmas describe it |
| `MediaList.MediaList.SetSearch` | src/components/MediaList.tsx:136 | the search text becomes the input |
| `MediaList.MediaList.SelectStatus` | src/components/MediaList.tsx:145 | the status filter becomes the selected value, `''` clearing it |
| `MediaList.MediaList.SlideRating` | src/components/MediaList.tsx:158 | any slider position, 0 included, sets the rating filter |
| `MediaList.MediaList.ResetRating` | src/components/MediaList.tsx:166 | the reset button removes the rating filter |
| `MediaList.MediaList.DismissError` | src/components/MediaList.tsx:226-228 | closing the snackbar clears the error |
| `MediaList.MediaList.FetchItems` | src/components/MediaList.tsx:74-90 | on success the items are exactly the store's `media` records of the user, tagged with their ids; on failure the items are kept and the fetch error is set; never loading afterwards |
| `MediaList.MediaList.HandleAddMedia` | src/components/MediaList.tsx:92-108 | on success the store gains exactly the new record under a fresh id, then the list is refetched; on failure the store and items are unchanged and the add error is set; never loading afterwards |
| `MediaList.MediaList.DeleteItem` | src/components/MediaList.tsx:110-121 | removes exactly that record from the store, then refetches; on failure the store and items are unchanged and the delete error is set; never loading afterwards |
| `MediaDetails.NewComment` | src/components/MediaDetails.tsx:70 | the comment `{ text, created }`; `MediaDetails.MediaDetails.HandleAddComment` and `MediaDetails.AddEditDeleteLeavesEmpty` state its use |
| `MediaDetails.WithText` | src/components/MediaDetails.tsx:124 | the edited comment has the new text and keeps every other field of the old comment |
| `MediaDetails.EditAt` | src/components/MediaDetails.tsx:124 | editing by position keeps the comment count |
| `MediaDetails.EditAtSpec` | src/components/MediaDetails.tsx:124 | only the comment at the index changes, it gets the new text and keeps its `created`; an out-of-range index changes nothing |
| `MediaDetails.EditAtTwice` | src/components/MediaDetails.tsx:124 | editing the same comment twice leaves only the second text |
| `MediaDetails.DropIndexFrom` | src/components/MediaDetails.tsx:141 | the positional filter; `MediaDetails.DropIndexFromSpec` states what it drops |
| `MediaDetails.RemoveAt` | src/components/MediaDetails.tsx:141 | delete by position; `MediaDetails.RemoveAtSpec` states what remains |
| `MediaDetails.DropIndexFromSpec` | src/components/MediaDetails.tsx:141 | the positional filter, started at any offset, removes exactly the element at the index when it is in range and nothing otherwise |
| `MediaDetails.RemoveAtSpec` | src/components/MediaDetails.tsx:141 | deleting by position yields the comments before and after the index in order, one fewer; an out-of-range index deletes nothing |
| `MediaDetails.AddEditDeleteLeavesEmpty` | src/components/MediaDetails.tsx:70-144 | adding a comment to an empty log, editing it and deleting it leaves the log empty |
| `MediaDetails.LoadedItem` | src/components/MediaDetails.tsx:48 | the local record has `id` equal to the document id and every other field as stored |
| `MediaDetails.WithRating` | src/components/MediaDetails.tsx:89 | a null or 0 rating is absent from the local copy, any other rating is stored, and every other field is unchanged |
| `MediaDetails.RatingValue` | src/components/MediaDetails.tsx:88 | the rating as `updateDoc` stores it, `null` kept; stated through `MediaDetails.MediaDetails.HandleSetRating` |
| `MediaDetails.MediaDetails.constructor` | src/components/MediaDetails.tsx:28-38 | nothing loaded, loading, status `planned`, empty date, not favourite, no rating, no edit |
| `MediaDetails.MediaDetails.FetchItem` | src/components/MediaDetails.tsx:41-61 | a loaded record is tagged with its id; status defaults to `planned`, the date to `''`, favourite to false, a falsy rating to null; a missing document sets not-found and a failed read sets the load error, keeping the item |
| `MediaDetails.MediaDetails.SetCommentInput` | src/components/MediaDetails.tsx:278 | the comment input takes the typed text |
| `MediaDetails.MediaDetails.SetEditText` | src/components/MediaDetails.tsx:247 | the edit box takes the typed text |
| `MediaDetails.MediaDetails.HandleAddComment` | src/components/MediaDetails.tsx:65-81 | a blank comment or no record changes nothing, here or in the store; otherwise appends exactly one comment with the trimmed text at the end, remotely then locally, and clears the input; on failure the item and input are kept and the error is set; not saving afterwards |
| `MediaDetails.MediaDetails.HandleSetRating` | src/components/MediaDetails.tsx:83-96 | stores the rating (null allowed) remotely and in the rating control; the local copy drops a null or 0 rating; on failure the item is kept and the error is set |
| `MediaDetails.MediaDetails.HandleUpdateField` | src/components/MediaDetails.tsx:98-113 | on success exactly that field changes, remotely and locally, and status, date or favourite is mirrored into its control; on failure the item and controls are kept and the error is set |
| `MediaDetails.MediaDetails.HandleEditComment` | src/components/MediaDetails.tsx:115-118 | opens the editor on that index with that text |
| `MediaDetails.MediaDetails.CancelEdit` | src/components/MediaDetails.tsx:253 | closes the editor and clears its text |
| `MediaDetails.MediaDetails.HandleSaveEdit` | src/components/MediaDetails.tsx:120-135 | no record or no open editor changes nothing; otherwise the whole comment list is rewritten with the edit applied, and the editor closes only on success; on failure the item and editor are kept and the error is set |
| `MediaDetails.MediaDetails.HandleDeleteComment` | src/components/MediaDetails.tsx:137-150 | the whole comment list is rewritten without that position; on failure the item is kept and the error is set |
| `AddMediaForm.InitialForm` | src/components/AddMediaForm.tsx:19-26 | the starting form; `AddMediaForm.Form.constructor` states its contents |
| `AddMediaForm.WithTag` | src/components/AddMediaForm.tsx:35-39 | the old tags are a prefix of the result, at most one tag is added, and the members are the old ones plus the tag when it is non-empty |
| `AddMediaForm.WithoutTag` | src/components/AddMediaForm.tsx:47 | the result is a subsequence of the tags whose members are exactly the tags other than the removed one |
| `AddMediaForm.WithoutAbsentTag` | src/components/AddMediaForm.tsx:47 | removing a tag that is not present changes nothing |
| `AddMediaForm.WithoutTagConcat` | src/components/AddMediaForm.tsx:47 | removal distributes over concatenation |
| `AddMediaForm.WithTagKeepsDistinct` | src/components/AddMediaForm.tsx:35 | adding keeps the tags duplicate-free |
| `AddMediaForm.WithoutTagKeepsDistinct` | src/components/AddMediaForm.tsx:47 | removing keeps the tags duplicate-free |
| `AddMediaForm.WithTagIdempotent` | src/components/AddMediaForm.tsx:35 | adding the same tag twice equals adding it once |
| `AddMediaForm.WithoutTagRemovesAll` | src/components/AddMediaForm.tsx:47 | after removal the tag occurs nowhere and the list has not grown |
| `AddMediaForm.AddThenRemoveRestores` | src/components/AddMediaForm.tsx:35-48 | adding a fresh tag and removing it again restores the tag list |
| `AddMediaForm.OpsKeepDistinct` | src/components/AddMediaForm.tsx:23-47 | from an empty (or any duplicate-free) list, every sequence of adds and removes leaves the tags duplicate-free |
| `AddMediaForm.Form.constructor` | src/components/AddMediaForm.tsx:19-27 | empty texts, rating 0, no tags, the given type, empty tag input |
| `AddMediaForm.Form.SetTitle` | src/components/AddMediaForm.tsx:61 | only the title changes |
| `AddMediaForm.Form.SetDescription` | src/components/AddMediaForm.tsx:70 | only the description changes |
| `AddMediaForm.Form.SetImageUrl` | src/components/AddMediaForm.tsx:81 | only the image URL changes |
| `AddMediaForm.Form.SetCurrentTag` | src/components/AddMediaForm.tsx:100 | the tag input takes the typed text |
| `AddMediaForm.Form.SetRating` | src/components/AddMediaForm.tsx:90-92 | only the rating changes, and a cleared rating stores 0 |
| `AddMediaForm.Form.AddTag` | src/components/AddMediaForm.tsx:34-42 | appends the tag at the end and clears the input exactly when it is non-empty and absent; otherwise nothing changes; the tags stay duplicate-free |
| `AddMediaForm.Form.RemoveTag` | src/components/AddMediaForm.tsx:44-49 | only the tags change, every occurrence of the tag goes, and they stay duplicate-free |
| `AddMediaForm.Form.Submit` | src/components/AddMediaForm.tsx:29-32 | hands over the form's contents unchanged and changes no state |
| `App.AvatarInitial` | src/App.tsx:78 | the avatar's code unit; `App.AvatarInitialSource` states where it comes from |
| `App.AvatarInitialSource` | src/App.tsx:78 | the initial comes from a non-empty name, else from a non-empty e-mail address, else it is `?`; it is the first character when that lies in the Basic Multilingual Plane and only its high surrogate otherwise |
| `App.ProfileFields` | src/App.tsx:46-50 | the three profile fields `syncUser` writes; `App.SyncUserEffect` states what they leave in the store |
| `App.SyncUserEffect` | src/App.tsx:46-50 | after the profile write, `email` and `displayName` hold the user's values (missing as `''`) and `uid` the uid; every other existing field of the profile and every other document survive |
| `App.SyncUserIdempotent` | src/App.tsx:46-50 | syncing the same user twice leaves the same store as syncing once |
| `App.SyncUser` | src/App.tsx:42-54 | the store after a successful sync is the merge-upsert of the profile fields; after a failure it is unchanged |
| `App.Deleted` | src/App.tsx:241-243 | fewer media deletes succeed than were queried exactly when the failing index is inside the query answer |
| `App.CascadeEffect` | src/App.tsx:236-243 | the store a cascade leaves for each failure point; `App.CascadeRemovesExactlyOwned` and `App.CascadeStoppedAt` state what that means |
| `App.DeleteUserCompletely` | src/App.tsx:236-244 | the profile is deleted first, then the owner query runs on what is left, then owned media are deleted in query order up to the first failure; the store is exactly the original minus those keys, and the call completes only when every delete succeeded |
| `App.CascadeRemovesExactlyOwned` | src/App.tsx:238-243 | a completed cascade leaves no profile and no media record of the user, and every other document unchanged |
| `App.CascadeStoppedAt` | src/App.tsx:241-243 | when the k-th media delete fails, the profile and the owned media before k are gone and those from k on all remain unchanged |
| `App.ReauthFirst` | src/App.tsx:121 | `user.email && currentPassword`: re-authentication is needed exactly with an address and a current password; `App.PasswordCalls` states its effect |
| `App.PasswordCalls` | src/App.tsx:121-125 | the password is updated exactly when no re-authentication was needed or it succeeded, and any re-authentication comes first |
| `App.PasswordOrdering` | src/App.tsx:121-125 | a failed re-authentication is the only call made; with both calls, re-authentication precedes the update |
| `App.ProfileDialog.constructor` | src/App.tsx:97-104 | the name input starts as the user's name or `''`, the Google flag is true exactly when a provider is `google.com`, and everything else is idle |
| `App.ProfileDialog.SetNameInput` | src/App.tsx:189 | the name input takes the typed text |
| `App.ProfileDialog.SetPasswordInputs` | src/App.tsx:193-194 | the password inputs take the typed texts |
| `App.ProfileDialog.SetDeleteConfirm` | src/App.tsx:214 | opens or closes the delete confirmation |
| `App.ProfileDialog.CloseSnackbar` | src/App.tsx:227 | only the snackbar's open flag is cleared |
| `App.ProfileDialog.UpdateName` | src/App.tsx:106-116 | makes exactly the profile update call and shows the success or the error notice; not loading afterwards; the Google flag still agrees with the providers |
| `App.ProfileDialog.ChangePassword` | src/App.tsx:118-133 | the calls are those of `PasswordCalls`; both password inputs are cleared only on success; otherwise they are kept and the error notice shows |
| `App.ProfileDialog.DeleteAccount` | src/App.tsx:135-148 | the store changes as the cascade says; the identity is deleted only after a completed cascade and otherwise no call is made; the success notice needs both; always ends not loading and unconfirmed |
| `App.ProfileDialog.LinkGoogle` | src/App.tsx:150-162 | the Google flag turns on only after a successful link and keeps agreeing with the user's providers |
| `App.ProfileDialog.UnlinkGoogle` | src/App.tsx:164-175 | the Google flag turns off only after a successful unlink and keeps agreeing with the user's providers |
| `TmdbService.PosterUrl` | src/services/tmdbService.ts:64-66 | `getPosterUrl`; `TmdbService.PosterUrlShape`, `TmdbService.PosterUrlRoundTrip` and `TmdbService.PosterUrlDefaultSize` state its shape |
| `TmdbService.PosterUrlShape` | src/services/tmdbService.ts:65-66 | the URL is `''` exactly for a null or empty path; otherwise it is the image address, `/`, the size and the path, so it ends with the path |
| `TmdbService.PosterUrlRoundTrip` | src/services/tmdbService.ts:66 | the path can be read back from its poster URL, so different paths give different URLs |
| `TmdbService.PosterUrlDefaultSize` | src/services/tmdbService.ts:64 | leaving out the size asks for `w500` |
| `TmdbService.BuildQueryParams` | src/services/tmdbService.ts:33-39 | `api_key` first (`''` without a key), `language` second, then exactly the caller's parameters in their given order |
| `TmdbService.SearchMedia` | src/services/tmdbService.ts:52-54 | the search endpoint with exactly one caller parameter, `query` |

## Left out

- Rendering, routing, MUI layout, the theme toggle and the navigation calls are not modelled; they hold no state logic.
- The components that only dispatch or display are not modelled: AuthForm, MediaCard, Navbar and index.
- `Firestore.MergeUpsertEffect`: a merging write is a shallow union, so a written nested map replaces the stored one whole instead of being merged field by field as the store does; the profile fields written on login are flat strings, where the two agree.
- The store is a map. Query execution, indexes and the set-like duplicate suppression of `arrayUnion` are not modelled: `ArrayUnion` always appends.
- Handlers are atomic steps. Interleavings of concurrent asynchronous handlers are not modelled; the source guards them only by disabling controls.
- Clock and locale are parameters: `new Date().toISOString()` is a string parameter `now`, and `toLowerCase` is a per-character function `lower` passed in.
- Numbers are unbounded integers. Fractional ratings, `NaN` and JavaScript number semantics are not modelled.
- MediaList.SearchOk: a record whose `title` is not a string never matches a non-empty search; the source would throw inside the filter.
- A stored `comments` value that is not an array is read as `[]`, and a comment entry that is not an object is edited into `{ text }`. In the source, spreading such values behaves differently.
- Snackbar and alert texts are the enums `Notice`, `ListError` and `DetailsError`, not the Russian strings. `console.error` is not modelled.
- The delayed page reload after an account deletion is not modelled.
- `getMovieDetails` and `getTVDetails` are not modelled: they only format a numeric id into an endpoint path.
- The request URL is not modelled: the fetch, the response handling and the URL encoding by `URLSearchParams`.
- The add-dialog's open/close state in the list screen and the show-password checkbox are not modelled; they only drive rendering.
- Sign-out and the authentication state listener are not modelled.
- Document ids are taken as plain strings: an id containing `/`, which the store would read as a longer path, is not modelled.
- The code has no validation errors, no concurrent-mutation detection, no out-of-range error for comment indices (an out-of-range index silently changes nothing) and no per-step counter in the deletion cascade, so the model has none either.
- `TmdbService.BuildQueryParams` takes the caller's parameters as an ordered list. The source passes a `Record<string, string>`, whose `Object.entries` has unique keys and lists integer-like keys first; the model does not capture either.
- Strings are sequences of Unicode characters. UTF-16 code units appear only where indexing can tell the two apart, in `App.AvatarInitial`; a string holding a lone surrogate is not modelled.
