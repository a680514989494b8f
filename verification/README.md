# tiklist in Dafny

tiklist is a single-page web application for saving TikTok videos in a
personal library and arranging them into playlists. This project models its
core and proves properties of the model.

## The store

The core is the client-side store of `src/context/AppContext.tsx`. It holds
three state cells:

- `videos`, an ordered sequence of video records;
- `playlists`, an ordered sequence of playlists, each with an ordered list of
  member video ids;
- `user`, a profile with display preferences.

Nine operations replace these cells:

- add, update and delete a video (deleting a video also removes its id from
  every playlist);
- add, update and delete a playlist;
- add a video to a playlist, with duplicates suppressed;
- remove a video from a playlist;
- shallow-merge the user's preferences.

The model makes the store a class, `AppContext.AppState`, with `seq` fields.
Each method assigns the value computed by a pure function: the spread, `map`
or `filter` expression of the source. The clock `new Date()` becomes an
integer parameter `now`.

## Around the store

- **`TikTokUtils`**: video id extraction from a URL. It searches four fixed
  regular expressions in order and returns the first capture; the model
  writes each pattern out as a matcher. It also has the two URL builders.
- **`PlaylistPage`**: the playback page. It resolves member ids into library
  videos and moves a current index with next, previous, select and remove.
  It also has the embed id taken from a video URL.
- **`PlaylistDetailPage`**: the routed playlist page. It covers the member
  videos in library order, the header count, and the dialog flag shared by
  "delete playlist" and "remove video".
- **`PlaylistsPage`**: the list of playlists, sorted newest first.
- **`PlaylistCard`**, **`PlaylistForm`**, **`AddVideoForm`**, **`VideoCard`**:
  the forms and tiles. They validate names and URLs, keep drafts and dialog
  flags, and call the store. `VideoCard` also has the duration label.
- **`Types`**, **`Seqs`**, **`Text`**: the records of `src/types.ts`,
  sequence helpers, and the JavaScript string builtins the forms rely on
  (`trim`, `includes`, number formatting).

Components become classes whose fields are the React state cells; each
handler is a method. A component keeps a reference to the shared store, so a
handler that calls the store has `modifies this, store`. The tiles are keyed
by id and receive the store's current record on every render, so a tile keeps
the id and reads its record from the store (`Current()`); a reset after a save
therefore sees the saved values.

Four behaviours of the code that a caller might not expect:

- `removeVideoFromPlaylist` stamps `updatedAt` on the matching playlist even
  when the video was not a member. It is not a no-op.
- `updatePlaylist` accepts any key of a playlist, its id and `createdAt`
  included, and never checks a supplied member list for duplicates
  (`AppContext.UpdatePlaylistsAcceptsDuplicates`). So "no duplicate members"
  holds only for callers that never pass a list with duplicates.
- `updatedAt` never decreases only if the clock never goes backwards; see
  `AppContext.StampsNeverGoBack`.
- `autoplay` and `muteVideos` are optional keys in the stored preferences.
  No default is filled in when they are read.

## Model

| member | source | states |
|---|---|---|
| AppContext.AppState.constructor | src/context/AppContext.tsx:44-57 | with nothing stored, both collections are empty and the user is the default profile (id "1", dark mode off, autoplay on, muted off) |
| AppContext.AppState.Restore | src/context/AppContext.tsx:34-47 | the store starts from the collections loaded from storage, unchanged |
| AppContext.AppState.AddVideo | src/context/AppContext.tsx:72-74 | the video becomes the new last element and earlier ones are untouched; playlists and user are unchanged; video ids stay unique when the new id is fresh |
| AppContext.AppState.UpdateVideo | src/context/AppContext.tsx:76-81 | videos become the merged sequence; the ids, in order, are exactly the old ones; playlists and user are unchanged |
| AppContext.AppState.DeleteVideo | src/context/AppContext.tsx:89-98 | the id is in neither the library nor any playlist's member list afterwards; user unchanged; no playlist gains a duplicate member |
| AppContext.AppState.AddPlaylist | src/context/AppContext.tsx:100-102 | the playlist becomes the new last element; videos and user are unchanged; a member list without duplicates keeps the store free of duplicate members |
| AppContext.AppState.UpdatePlaylist | src/context/AppContext.tsx:104-112 | playlists become the merged and stamped sequence; videos and user are unchanged; members stay distinct unless the update supplies a list with duplicates |
| AppContext.AppState.DeletePlaylist | src/context/AppContext.tsx:114-116 | playlists with that id are removed; videos and user are never touched |
| AppContext.AppState.AddVideoToPlaylist | src/context/AppContext.tsx:118-130 | playlists become the appended sequence; videos and user are unchanged; no playlist ever lists a video twice |
| AppContext.AppState.RemoveVideoFromPlaylist | src/context/AppContext.tsx:132-144 | playlists become the purged and stamped sequence; videos and user are unchanged; members stay distinct |
| AppContext.AppState.UpdateUserPreferences | src/context/AppContext.tsx:146-154 | only the user's preferences change; videos and playlists are unchanged |
| AppContext.MergeVideo | src/context/AppContext.tsx:79 | the merged video keeps its id; each of url, title, author, thumbnail, duration and addedAt comes from the update when the update supplies that key and is kept otherwise |
| AppContext.UpdateVideos | src/context/AppContext.tsx:77-80 | the `map` of `updateVideo`; characterised by `UpdateVideosKeepsIds`, `FindVideoAfterUpdate` and `VideoCard.TitleOnlyEffect` |
| AppContext.WithoutVideo | src/context/AppContext.tsx:90 | each video whose id differs keeps its number of occurrences and each video with the id has none, in the original relative order |
| AppContext.PurgeId | src/context/AppContext.tsx:95 | every occurrence of the id is dropped, every other id keeps its count, and the order is kept |
| AppContext.PurgeFromAll | src/context/AppContext.tsx:92-97 | the `map` of `deleteVideo` over the playlists; characterised by `DeleteVideoCascades` |
| AppContext.WithoutPlaylist | src/context/AppContext.tsx:115 | each playlist whose id differs keeps its number of occurrences and each playlist with the id has none, in the original relative order |
| AppContext.AddingFreshVideoKeepsIdsUnique | src/context/AppContext.tsx:72-74 | appending a video whose id is new keeps video ids unique |
| AppContext.UpdateVideosKeepsIds | src/context/AppContext.tsx:76-81 | length, order and ids are kept; a matching video takes every key the update supplies (url, title, author, thumbnail, duration, addedAt) and keeps the rest; others are identical; an unknown id changes nothing |
| AppContext.DeleteVideoCascades | src/context/AppContext.tsx:92-97 | after the cascade no member list holds the id; each keeps its other ids in order; the playlists keep number, order, id, name, description and both stamps; distinct members stay distinct |
| AppContext.AppendMemberEffect | src/context/AppContext.tsx:118-130 | a matching playlist that lacks the video grows by exactly one, ends with the video and is stamped `now`, with all other fields kept; every other playlist, including a matching one that already has it, is unchanged |
| AppContext.AppendMemberIdempotent | src/context/AppContext.tsx:118-130 | adding the same video twice equals adding it once, whatever the second time stamp |
| AppContext.AppendMemberKeepsDistinct | src/context/AppContext.tsx:121-124 | adding a video keeps every member list free of duplicates |
| AppContext.RemoveMemberEffect | src/context/AppContext.tsx:132-144 | in the matching playlist the video is gone, every other id stays, order is kept, and `updatedAt` is `now` even if the video was absent; other playlists are unchanged |
| AppContext.RemoveMemberKeepsDistinct | src/context/AppContext.tsx:132-144 | removing a video keeps every member list free of duplicates |
| AppContext.PurgeAppended | src/context/AppContext.tsx:138 | filtering out an id just appended to a list that lacked it gives the list back |
| AppContext.RemoveUndoesAppend | src/context/AppContext.tsx:118-144 | removing a video right after adding it restores every member list |
| AppContext.MergePlaylist | src/context/AppContext.tsx:108 | each of id, name, description, videos and createdAt comes from the update when supplied and is kept otherwise; `updatedAt` is `now` whatever the update says |
| AppContext.UpdatePlaylists | src/context/AppContext.tsx:105-111 | the `map` of `updatePlaylist`; characterised by `UpdatePlaylistsEffect`, `FindPlaylistAfterUpdate` and `UpdatePlaylistsAcceptsDuplicates` |
| AppContext.AppendMember | src/context/AppContext.tsx:119-129 | the `map` of `addVideoToPlaylist`; characterised by `AppendMemberEffect`, `AppendMemberIdempotent` and `AppendMemberKeepsDistinct` |
| AppContext.RemoveMember | src/context/AppContext.tsx:133-143 | the `map` of `removeVideoFromPlaylist`; characterised by `RemoveMemberEffect`, `RemoveMemberKeepsDistinct` and `RemoveUndoesAppend` |
| AppContext.MergePreferences | src/context/AppContext.tsx:149-152 | the inner spread of `updateUserPreferences`; characterised by `UpdateUserEffect` and `MergePreferencesTwice` |
| AppContext.UpdateUser | src/context/AppContext.tsx:147-153 | the new `user` of `updateUserPreferences`; characterised by `UpdateUserEffect` |
| AppContext.UpdatePlaylistsEffect | src/context/AppContext.tsx:104-112 | the length is kept; a matching playlist takes every key the update supplies (id, name, description, videos, createdAt), keeps the rest and is stamped `now`, overriding any `updatedAt` in the update; others are identical; an unknown id changes nothing |
| AppContext.UpdatePlaylistsAcceptsDuplicates | src/context/AppContext.tsx:104-112 | an update can give a playlist a member list with a duplicate, breaking the rule the other operations keep |
| AppContext.StampsNeverGoBack | src/context/AppContext.tsx:104-144 | with a clock not behind any stored stamp, no playlist operation moves an `updatedAt` backwards, and the cascade never changes one |
| AppContext.UpdateUserEffect | src/context/AppContext.tsx:146-154 | the keys the update names are overwritten; the other preference keys and the profile's id, name and email are kept |
| AppContext.MergePreferencesTwice | src/context/AppContext.tsx:149-152 | two successive shallow merges equal one merge of the combined update, in which the later keys win |
| AppContext.StoreScenario | src/context/AppContext.tsx:72-130 | add a video and an empty playlist, put the video in it, then delete the video: the member list is first ["v1"], then both collections hold nothing of it |
| AppContext.FindPlaylist | src/pages/PlaylistPage.tsx:45 | nothing is found exactly when no playlist has the id; a found playlist carries the id |
| AppContext.FindPlaylistIsFirst | src/pages/PlaylistPage.tsx:45 | the playlist found is the first one with the id |
| AppContext.FindVideo | src/pages/PlaylistPage.tsx:71 | nothing is found exactly when no video has the id; a found video carries the id |
| AppContext.FindVideoIsFirst | src/pages/PlaylistPage.tsx:71 | the video found is the first library video with the id |
| AppContext.FindPlaylistAfterUpdate | src/context/AppContext.tsx:104-112 | an update that keeps the id keeps the playlist findable by it, and the lookup then finds the merged playlist |
| AppContext.FindVideoAfterUpdate | src/context/AppContext.tsx:76-81 | after an update the lookup by id finds a video exactly when it did before, and finds the merged one |
| AppContext.FindVideoUnique | src/pages/PlaylistPage.tsx:71 | with unique ids, looking up a library video's id finds that video |
| TikTokUtils.RunEndSpec | src/utils/tiktokUtils.ts:7-9 | a greedy `+` run covers only characters of its class and stops at the end or at a character outside it |
| TikTokUtils.RunEndIs | src/utils/tiktokUtils.ts:7-9 | a run that stops where its class ends is the greedy run |
| TikTokUtils.RunAfterSpec | src/utils/tiktokUtils.ts:7-9 | a captured `(\d+)` or `(\w+)` is non-empty and lies in its class |
| TikTokUtils.MatchAt | src/utils/tiktokUtils.ts:7-10 | each of the four patterns tried at one start position; characterised by `CaptureIsWord`, `ProfileMatchAt`, `DirectIdFallback` and `MatchAtIgnoresCase` |
| TikTokUtils.CaptureIsWord | src/utils/tiktokUtils.ts:7-10 | the capture of any of the four patterns at any position is non-empty and made of `[A-Za-z0-9_]` |
| TikTokUtils.Leftmost | src/utils/tiktokUtils.ts:14 | the start position a non-global `match` reports; characterised by `LeftmostSpec` |
| TikTokUtils.LeftmostSpec | src/utils/tiktokUtils.ts:14 | `match` reports the leftmost start: the pattern matches there, nowhere before, and nowhere at all when nothing is reported |
| TikTokUtils.Exec | src/utils/tiktokUtils.ts:14-15 | a capture `url.match(pattern)[1]` is non-empty word characters |
| TikTokUtils.ExecSpec | src/utils/tiktokUtils.ts:14 | there is no capture exactly when the pattern matches at no position; otherwise it is the capture of a match |
| TikTokUtils.ExecAt | src/utils/tiktokUtils.ts:14 | the match at the first position where the pattern matches is the one reported |
| TikTokUtils.FirstPresent | src/utils/tiktokUtils.ts:13-18 | the loop returns nothing exactly when no remaining capture passes `match && match[1]`, and otherwise a capture that does |
| TikTokUtils.FirstPresentIsFirst | src/utils/tiktokUtils.ts:13-18 | the capture returned is at an index where every earlier capture failed the test |
| TikTokUtils.FirstPresentAt | src/utils/tiktokUtils.ts:13-18 | when every capture before index k fails and the one at k passes, the loop returns the one at k |
| TikTokUtils.FirstCapture | src/utils/tiktokUtils.ts:13-20 | null exactly when no pattern of the list matches; otherwise non-empty word characters |
| TikTokUtils.ExtractTikTokId | src/utils/tiktokUtils.ts:4-21 | null exactly when none of the four patterns matches anywhere; otherwise non-empty and made of `[A-Za-z0-9_]` |
| TikTokUtils.ExtractIsFirstMatch | src/utils/tiktokUtils.ts:6-20 | a result is the capture of a pattern all of whose predecessors in the list match nowhere in the URL |
| TikTokUtils.ProfileUrlGivesDigits | src/utils/tiktokUtils.ts:7 | a URL `...tiktok.com/@<name>/video/<digits>...`, with a name of `[\w.-]` and no `@` before the host, yields exactly the digit run |
| TikTokUtils.ProfileUrlMatchesAtHost | src/utils/tiktokUtils.ts:7 | such a URL matches the profile pattern where the host starts, capturing the digit run |
| TikTokUtils.ProfileUrlNothingEarlier | src/utils/tiktokUtils.ts:7 | without an `@` before the host, the profile pattern cannot match earlier |
| TikTokUtils.ProfileMatchAt | src/utils/tiktokUtils.ts:7 | given where the prefix, the name run, `/video/` and the digit run lie, the profile pattern captures the digits |
| TikTokUtils.NoProfileBefore | src/utils/tiktokUtils.ts:7 | the profile pattern cannot start where no `@` follows the host text |
| TikTokUtils.ProfileCaptureWins | src/utils/tiktokUtils.ts:13-18 | a capture of the first pattern is the result, whatever the later patterns give |
| TikTokUtils.DirectIdFallback | src/utils/tiktokUtils.ts:10-18 | when the first three patterns fail, the result is the leftmost run of 19 digits |
| TikTokUtils.SameIgnoringCaseClass | src/utils/tiktokUtils.ts:7-10 | `\d`, `\w` and `[\w.-]` are closed under the `i` flag's case folding |
| TikTokUtils.MatchAtIgnoresCase | src/utils/tiktokUtils.ts:7-10 | each pattern matches at a position of two case-variant URLs alike, with captures equal up to case |
| TikTokUtils.ProfileAfterIgnoresCase | src/utils/tiktokUtils.ts:7 | the profile pattern ignores the case of its host and infix |
| TikTokUtils.ProfileRestIgnoresCase | src/utils/tiktokUtils.ts:7 | the name run and `/video/` part of the profile pattern ignore case |
| TikTokUtils.WordAfterIgnoresCase | src/utils/tiktokUtils.ts:8-9 | the short-link and mobile-link patterns ignore case |
| TikTokUtils.DigitsIgnoreCase | src/utils/tiktokUtils.ts:10 | the 19-digit pattern gives the same answer for case variants |
| TikTokUtils.RunEndIgnoresCase | src/utils/tiktokUtils.ts:7-9 | a greedy run ends at the same place in two case-variant strings |
| TikTokUtils.RunAfterIgnoresCase | src/utils/tiktokUtils.ts:7-9 | a captured run is present in both case variants or in neither, and equal up to case |
| TikTokUtils.ExecIgnoresCase | src/utils/tiktokUtils.ts:14 | `match` reports captures equal up to case for case-variant URLs |
| TikTokUtils.FirstPresentIgnoresCase | src/utils/tiktokUtils.ts:13-18 | the loop over captures that agree up to case returns answers that agree up to case |
| TikTokUtils.ExtractIgnoresCase | src/utils/tiktokUtils.ts:4-21 | URLs differing only in ASCII letter case yield ids equal up to case, or null for both |
| TikTokUtils.EmbedUrl | src/utils/tiktokUtils.ts:26-34 | `''` exactly when no id is found; otherwise the embed prefix followed by the id |
| TikTokUtils.DirectUrl | src/utils/tiktokUtils.ts:39-47 | the input unchanged when no id is found; otherwise the canonical video prefix followed by the id |
| TikTokUtils.BuildersAgree | src/utils/tiktokUtils.ts:26-47 | the embed URL is empty exactly when the direct URL is the input; otherwise both end in the same non-empty id |
| PlaylistPage.ResolveMembers | src/pages/PlaylistPage.tsx:70-72 | the resolved videos carry exactly the member ids that name a library video, in playlist order |
| PlaylistPage.KnownMembers | src/pages/PlaylistPage.tsx:70-72 | the member ids whose `find` succeeds, in playlist order; characterised by `ResolveMembers`, `ResolvedCount`, `KnownAfterPurge` and `RemovalShrinksByOne` |
| PlaylistPage.ResolvedAreFound | src/pages/PlaylistPage.tsx:70-72 | each resolved video is the first library video with its id |
| PlaylistPage.ResolvedIsFound | src/pages/PlaylistPage.tsx:70-72 | the resolved video at each index is the one `find` returns for its id |
| PlaylistPage.ResolvedCount | src/pages/PlaylistPage.tsx:70-72 | the page shows as many videos as there are member ids naming a library video |
| PlaylistPage.NextVideoId | src/pages/PlaylistPage.tsx:75-77 | the id of the video after the current one, if any; characterised by `NextVideoIdIsNextStep` |
| PlaylistPage.NextIndex | src/pages/PlaylistPage.tsx:99-103 | the index after "next"; characterised by `NextStaysInRange` and `NextVideoIdIsNextStep` |
| PlaylistPage.NextVideoIdIsNextStep | src/pages/PlaylistPage.tsx:75-77 | a next id exists exactly when "next" would move, and it is the id of the video "next" moves to |
| PlaylistPage.NextStaysInRange | src/pages/PlaylistPage.tsx:99-103 | a step forward never moves an index that names a video past the last video |
| PlaylistPage.AfterLastSlash | src/pages/PlaylistPage.tsx:189 | `split('/').pop()` is the suffix after the last `/`, or the whole string: it has no `/` |
| PlaylistPage.BeforeFirstQuestion | src/pages/PlaylistPage.tsx:189 | `split('?')[0]` is the prefix before the first `?`, or the whole string: it has no `?` |
| PlaylistPage.EmbedId | src/pages/PlaylistPage.tsx:189 | the embed id contains neither `/` nor `?` |
| PlaylistPage.EmbedSrc | src/pages/PlaylistPage.tsx:189 | the iframe address built around `EmbedId`; characterised by `EmbedId` and `EmbedIdOfLastSegment` |
| PlaylistPage.EmbedIdOfLastSegment | src/pages/PlaylistPage.tsx:189 | for a URL ending in `/<id>` or `/<id>?<query>`, the embed id is `<id>` |
| PlaylistPage.SuffixAfterSlash | src/pages/PlaylistPage.tsx:189 | the text after the last `/` is the final segment |
| PlaylistPage.QuestionCut | src/pages/PlaylistPage.tsx:189 | the cut at the first `?` stops at that `?`, or at the end |
| PlaylistPage.KnownAfterPurge | src/pages/PlaylistPage.tsx:92-93 | removing a member removes it, and only it, from the members that name a library video |
| PlaylistPage.RemovalShrinksByOne | src/pages/PlaylistPage.tsx:92-97 | removing a member that occurs once and names a library video shortens the shown list by exactly one |
| PlaylistPage.RemoveMemberKeepsFound | src/pages/PlaylistPage.tsx:92-93 | after a removal the page still finds its playlist, with the video purged and the stamp set |
| PlaylistPage.Player.constructor | src/pages/PlaylistPage.tsx:39-43 | the page opens at index 0 with both dialogs closed and empty drafts |
| PlaylistPage.Player.SyncDrafts | src/pages/PlaylistPage.tsx:47-52 | when the playlist exists, the drafts become its name and description; otherwise they are kept |
| PlaylistPage.Player.Next | src/pages/PlaylistPage.tsx:99-103 | the index moves up by one only when it is below the last index; an index that named a video still names one |
| PlaylistPage.Player.Previous | src/pages/PlaylistPage.tsx:211-212 | the index becomes `max(0, index-1)` and so stays in range for every list length |
| PlaylistPage.Player.Select | src/pages/PlaylistPage.tsx:241 | choosing the k-th item makes k the index, which names a shown video |
| PlaylistPage.Player.HandleRemoveVideo | src/pages/PlaylistPage.tsx:92-97 | the store removes the video; the index is clamped to `max(0, len-2)` when it was at or past `len-1`, `len` being the length before removal; an index that named a video still names one when the removed id occurred once and named a library video |
| PlaylistPage.Player.HandleEditPlaylist | src/pages/PlaylistPage.tsx:79-85 | the drafts are sent untrimmed as name and description, and the edit dialog closes |
| PlaylistPage.Player.HandleDeletePlaylist | src/pages/PlaylistPage.tsx:87-90 | the playlist is gone from the store afterwards; videos and user are unchanged |
| PlaylistDetailPage.DetailVideos | src/pages/PlaylistDetailPage.tsx:37 | each library video whose id is a member keeps its number of occurrences, in library order; no other video appears; a dangling member contributes nothing |
| PlaylistDetailPage.DetailMatchesPlayer | src/pages/PlaylistDetailPage.tsx:37 | with unique ids and distinct members, this page and the playback page show the same videos, once each, in different orders |
| PlaylistDetailPage.ResolvedIsMember | src/pages/PlaylistDetailPage.tsx:37 | a video the playback page shows is a library video whose id is a member |
| PlaylistDetailPage.MemberIsResolved | src/pages/PlaylistDetailPage.tsx:37 | with unique ids, every library video whose id is a member is shown by the playback page |
| PlaylistDetailPage.ResolvedUnique | src/pages/PlaylistDetailPage.tsx:37 | distinct members resolve to distinct videos |
| PlaylistDetailPage.HeaderCount | src/pages/PlaylistDetailPage.tsx:92 | the header's count label, the same label as the card's; characterised by `PlaylistCard.VideoCountLabelReadsBack` and `HeaderCountsDangling` |
| PlaylistDetailPage.Truthy | src/pages/PlaylistDetailPage.tsx:54 | JavaScript truthiness of the target id, under which `''` is false; characterised by `Page.RemoveDialogShown` and `Page.HandleRemoveVideo` |
| PlaylistDetailPage.HeaderCountsDangling | src/pages/PlaylistDetailPage.tsx:92 | the header counts a member with no library video, though no video is shown for it |
| PlaylistDetailPage.Page.constructor | src/pages/PlaylistDetailPage.tsx:24-25 | the dialog starts closed with no target |
| PlaylistDetailPage.Page.RemoveDialogShown | src/pages/PlaylistDetailPage.tsx:122 | the remove-video dialog is never open together with the delete dialog, and the flag is set exactly when one of the two is open |
| PlaylistDetailPage.Page.OpenDeleteDialog | src/pages/PlaylistDetailPage.tsx:79 | the flag is set and, with no truthy target, the delete dialog is the one shown |
| PlaylistDetailPage.Page.HandleRemoveVideo | src/pages/PlaylistDetailPage.tsx:48-51 | the target is recorded and the dialog opens without a store call; a non-empty id shows the remove dialog, an empty one the delete dialog |
| PlaylistDetailPage.Page.HandleConfirmRemove | src/pages/PlaylistDetailPage.tsx:53-59 | a truthy target is removed from this playlist and cleared, and otherwise nothing is stored; both dialogs are closed in every case |
| PlaylistDetailPage.Page.HandleCancelRemove | src/pages/PlaylistDetailPage.tsx:61-64 | the target is cleared and the dialog closed, with no store call |
| PlaylistDetailPage.Page.HandleDeletePlaylist | src/pages/PlaylistDetailPage.tsx:43-46 | the playlist is gone from the store afterwards; videos and user are unchanged |
| PlaylistsPage.Insert | src/pages/PlaylistsPage.tsx:10-12 | inserting adds exactly the new playlist to the multiset of the others |
| PlaylistsPage.InsertNewestFirst | src/pages/PlaylistsPage.tsx:10-12 | inserting into a newest-first sequence keeps it newest first |
| PlaylistsPage.SortByRecency | src/pages/PlaylistsPage.tsx:10-12 | the result is a permutation of the playlists, of the same length, with `updatedAt` never increasing |
| PlaylistsPage.InsertStable | src/pages/PlaylistsPage.tsx:10-12 | inserting puts the new playlist before the others with its stamp and keeps their order |
| PlaylistsPage.SortByRecencyStable | src/pages/PlaylistsPage.tsx:10-12 | playlists with equal `updatedAt` keep their stored relative order |
| PlaylistsPage.SortByRecencyFirst | src/pages/PlaylistsPage.tsx:10-12 | the first playlist shown is a most recently updated one |
| PlaylistCard.VideoCountLabel | src/components/PlaylistCard.tsx:163 | the tile's count label; characterised by `VideoCountLabelReadsBack` |
| PlaylistCard.VideoCountLabelReadsBack | src/components/PlaylistCard.tsx:163 | the label starts with the count, which reads back as the number, and ends in the plural `s` exactly when the count is not 1 |
| PlaylistCard.Thumbnail | src/components/PlaylistCard.tsx:51-53 | `''` for an empty list or a dangling first member; otherwise the thumbnail of the first library video with the first member's id |
| PlaylistCard.SaveUpdate | src/components/PlaylistCard.tsx:98-101 | the partial update `handleEditSave` sends; characterised by `SavedNameValid` |
| PlaylistCard.SavedNameValid | src/components/PlaylistCard.tsx:100-103 | a saved name is not blank and already trimmed, and so is the description |
| PlaylistCard.Card.constructor | src/components/PlaylistCard.tsx:39-45 | drafts start as the store's record's name and description; no error; both dialogs closed |
| PlaylistCard.Card.HandleDialogClose | src/components/PlaylistCard.tsx:67-73 | both dialogs close, and the drafts return to the current record's values, a name saved earlier included, with the error cleared |
| PlaylistCard.Card.HandleEditClick | src/components/PlaylistCard.tsx:76-80 | the edit dialog opens; drafts and error are kept |
| PlaylistCard.Card.HandleEditClose | src/components/PlaylistCard.tsx:82-90 | the edit dialog closes, and the drafts return to the current record's values, a name saved earlier included, with the error cleared |
| PlaylistCard.Card.ChangeName | src/components/PlaylistCard.tsx:214-219 | the draft takes the typed value; a non-blank value clears the error, a blank one keeps it |
| PlaylistCard.Card.ChangeDescription | src/components/PlaylistCard.tsx:231 | the description draft takes the typed value; nothing else changes |
| PlaylistCard.Card.HandleEditSave | src/components/PlaylistCard.tsx:92-106 | a blank name sets "Playlist name is required" and stores nothing; otherwise the trimmed name and description are stored, the current record carries them, and the dialog closes |
| PlaylistCard.Card.HandleDeleteClick | src/components/PlaylistCard.tsx:109-113 | the delete dialog opens; nothing else changes |
| PlaylistCard.Card.HandleDeleteClose | src/components/PlaylistCard.tsx:115-120 | the delete dialog closes; nothing else changes |
| PlaylistCard.Card.HandleDeleteConfirm | src/components/PlaylistCard.tsx:122-126 | this card's playlist id is gone from the store and the dialog closes |
| PlaylistForm.NewPlaylist | src/components/PlaylistForm.tsx:44-51 | the record `handleSubmit` builds; characterised by `NewPlaylistValid` |
| PlaylistForm.NewPlaylistValid | src/components/PlaylistForm.tsx:44-51 | a record built from a non-blank name has a non-empty trimmed name, a trimmed description, no members, and each stamp from its own clock reading, so the two need not be equal |
| PlaylistForm.Form.constructor | src/components/PlaylistForm.tsx:18-21 | closed, with empty name, description and error |
| PlaylistForm.Form.HandleOpen | src/components/PlaylistForm.tsx:23-25 | the dialog opens; the fields are kept |
| PlaylistForm.Form.ResetForm | src/components/PlaylistForm.tsx:32-36 | name, description and error are cleared; the dialog flag is kept |
| PlaylistForm.Form.HandleClose | src/components/PlaylistForm.tsx:27-30 | the dialog closes and the form is reset, without a store call |
| PlaylistForm.Form.ChangeName | src/components/PlaylistForm.tsx:79-84 | the name takes the typed value; a non-blank value clears the error, a blank one keeps it |
| PlaylistForm.Form.ChangeDescription | src/components/PlaylistForm.tsx:96 | the description takes the typed value; nothing else changes |
| PlaylistForm.Form.HandleSubmit | src/components/PlaylistForm.tsx:38-55 | a blank name sets "Playlist name is required" and stores nothing; otherwise the new record is appended, the form is reset and closed, and members stay distinct |
| AddVideoForm.ValidateUrl | src/components/AddVideoForm.tsx:16-24 | the two guards of `handleSubmit`, in order; characterised by `CheckMessage`, `AcceptedIffHost` and `ValidateIgnoresTrim` |
| AddVideoForm.CheckMessage | src/components/AddVideoForm.tsx:16-24 | a message is shown exactly when the URL is rejected |
| AddVideoForm.AcceptedIffHost | src/components/AddVideoForm.tsx:16-24 | a URL is accepted exactly when it contains `tiktok.com`; a blank URL never contains it, so the blank check only picks the message |
| AddVideoForm.ValidateIgnoresTrim | src/components/AddVideoForm.tsx:16-21 | surrounding white space never changes the verdict, even though the substring check runs on the untrimmed URL |
| AddVideoForm.HostIgnoresTrim | src/components/AddVideoForm.tsx:21 | trimming a URL never creates or destroys an occurrence of the host |
| AddVideoForm.Form.constructor | src/components/AddVideoForm.tsx:8-10 | empty URL, not loading, no error |
| AddVideoForm.Form.ChangeUrl | src/components/AddVideoForm.tsx:52 | the URL takes the typed value; loading and error are kept |
| AddVideoForm.Form.HandleSubmit | src/components/AddVideoForm.tsx:13-27 | a blank URL gets "Please enter a TikTok URL", one without the host "Please enter a valid TikTok URL", and neither reaches the resolver; an accepted URL goes to it as typed, with loading set and the error cleared |
| AddVideoForm.Form.ResolverSucceeded | src/components/AddVideoForm.tsx:30-33 | the resolved video becomes the last library video, the URL is cleared and loading ends |
| AddVideoForm.Form.ResolverFailed | src/components/AddVideoForm.tsx:34-37 | the failure message is shown, the URL is kept and loading ends |
| VideoCard.JsRem | src/components/VideoCard.tsx:102 | JavaScript `%`: the mathematical remainder for non-negative seconds, and a non-positive remainder with the dividend's sign otherwise |
| VideoCard.PadStart2 | src/components/VideoCard.tsx:103 | `padStart(2, '0')` keeps a string of two or more characters and otherwise puts zeros in front of it up to length two |
| VideoCard.FormatDuration | src/components/VideoCard.tsx:100-104 | `formatDuration`; characterised by `FormatNonNegative`, `FormatDurationRoundTrip` and `NegativeDuration` |
| VideoCard.FormatNonNegative | src/components/VideoCard.tsx:100-104 | for non-negative seconds the label is whole minutes and the seconds below 60 left over |
| VideoCard.PaddedSeconds | src/components/VideoCard.tsx:102-103 | the seconds part is exactly two digits whose value is the seconds count |
| VideoCard.ClockRoundTrip | src/components/VideoCard.tsx:103 | reading a label back gives its minutes and seconds |
| VideoCard.FormatDurationRoundTrip | src/components/VideoCard.tsx:100-104 | reading back the label of a non-negative duration gives seconds below 60 and minutes, which together make the duration |
| VideoCard.NegativeDuration | src/components/VideoCard.tsx:100-104 | a negative duration keeps JavaScript's signs: -5 seconds shows as "-1:-5" |
| VideoCard.TitleOnly | src/components/VideoCard.tsx:68 | the partial update `handleEditSave` sends; characterised by `TitleOnlyEffect` |
| VideoCard.TitleOnlyEffect | src/components/VideoCard.tsx:68 | the title-only update changes the title of the matching videos and nothing else |
| VideoCard.Card.constructor | src/components/VideoCard.tsx:43-47 | all dialogs closed; the title draft is the store's record's title |
| VideoCard.Card.HandleEditClick | src/components/VideoCard.tsx:57-60 | the edit dialog opens; nothing else changes |
| VideoCard.Card.HandleEditClose | src/components/VideoCard.tsx:62-65 | the edit dialog closes and the draft returns to the current record's title, a title saved earlier included |
| VideoCard.Card.ChangeTitle | src/components/VideoCard.tsx:275 | the draft takes the typed value; the dialogs are kept |
| VideoCard.Card.HandleEditSave | src/components/VideoCard.tsx:67-70 | the draft, untrimmed, replaces the title of each library video with this id; all else in the library, playlists and user is unchanged; the current record carries the new title; the dialog closes |
| VideoCard.Card.HandlePlaylistClick | src/components/VideoCard.tsx:72-75 | the playlist dialog opens; nothing else changes |
| VideoCard.Card.HandlePlaylistClose | src/components/VideoCard.tsx:77-79 | the playlist dialog closes; nothing else changes |
| VideoCard.Card.HandleAddToPlaylist | src/components/VideoCard.tsx:81-84 | every playlist with the chosen id lists this video afterwards, members stay distinct, and the dialog closes |
| VideoCard.Card.HandleDeleteClick | src/components/VideoCard.tsx:86-89 | the delete dialog opens; nothing else changes |
| VideoCard.Card.HandleDeleteClose | src/components/VideoCard.tsx:91-93 | the delete dialog closes; nothing else changes |
| VideoCard.Card.HandleDeleteConfirm | src/components/VideoCard.tsx:95-98 | the video's id is gone from the library and from every playlist, and the dialog closes |
| Text.Trim | src/components/PlaylistForm.tsx:46 | `String.prototype.trim`; characterised by `TrimSpec`, `TrimDropsWhiteSpace` and `TrimIdempotent` |
| Text.IsBlank | src/components/PlaylistForm.tsx:39 | the test `!s.trim()`; characterised by `BlankIffAllWhiteSpace` |
| Text.Contains | src/components/AddVideoForm.tsx:21 | `String.prototype.includes`; characterised by `ContainsIgnoresTrim` and `AddVideoForm.AcceptedIffHost` |
| Text.IntToString | src/components/VideoCard.tsx:103 | `toString` of an integer: a minus sign before the digits of a negative number; characterised by `NatToString`, `ParseNatToString` and `VideoCard.NegativeDuration` |
| Text.TrimSpec | src/components/PlaylistForm.tsx:46 | `trim` never lengthens a string, and what is left starts and ends with a non-white-space character |
| Text.TrimDropsWhiteSpace | src/components/PlaylistForm.tsx:46 | what `trim` drops at either end is white space |
| Text.BlankIffAllWhiteSpace | src/components/PlaylistForm.tsx:39 | `!s.trim()` holds exactly when the string is empty or white space only |
| Text.TrimIdempotent | src/components/PlaylistForm.tsx:46-47 | trimming twice is trimming once |
| Text.ContainsIgnoresTrim | src/components/AddVideoForm.tsx:21 | a non-empty word without white space occurs in the trimmed string exactly when it occurs in the string |
| Text.NatToString | src/components/VideoCard.tsx:103 | `toString` of a non-negative integer is non-empty decimal digits with no leading zero |
| Text.ParseNatToString | src/components/VideoCard.tsx:103 | the decimal text of a number reads back as the number |

## Left out

- Browser storage: the `localStorage` reads at start-up and the writes after every change, with their JSON encoding (src/context/AppContext.tsx:34-70). The model starts from collections given as values (`AppState.Restore`).
- The write in `updateVideo` of a stale snapshot under a separate `'videos'` key (src/context/AppContext.tsx:83-86). It touches only storage, never the state.
- Dates: a time stamp is an integer. Dates parsed back from JSON as strings, and invalid dates in the sort comparator, are not modelled.
- Random ids (`Math.random` in src/components/PlaylistForm.tsx:45) are the parameter `id`.
- The resolver `extractVideoInfo` in src/services/tiktokService.ts, which is not part of this model. Its two outcomes are the methods `ResolverSucceeded` and `ResolverFailed`.
- AddVideoForm.Form.HandleSubmit: the `async` handler is split at its `await` into `HandleSubmit` and the two resolver outcomes. The model does not capture other events interleaving while the resolver runs.
- Navigation (`navigate`), the iframe player of src/components/VideoPlayer.tsx, menu anchors, theming and rendering in general.
- src/App.tsx routes to PlaylistDetailPage only, so PlaylistPage is reachable from no route. It is modelled all the same. PlaylistDetailPage's `handleRemoveVideo` is not wired to any button; it is modelled too.
- A key explicitly set to `undefined` in a partial update: an update either gives a key or leaves it out.
- `formatDuration` of a non-integer number of seconds. Durations are integers.
- VideoCard.FormatDurationRoundTrip: the round trip is stated for non-negative durations only. A negative duration gives a label with two minus signs (`VideoCard.NegativeDuration`), which is not read back.
- src/types/index.ts is not part of this model; the records follow src/types.ts.
- TikTokUtils.FirstCapture: evaluates all four patterns before choosing, where the source stops at the first success. Matching has no side effects, so the result is the same.
- General regular expressions: only the four fixed patterns are written out as matchers.
- AppContext.UpdatePlaylists, AppContext.AppendMember, AppContext.RemoveMember: each operation reads the clock once and stamps every matching playlist with that one `now`. The source calls `new Date()` once per matching playlist inside `map` (src/context/AppContext.tsx:108, 125, 139), so two playlists sharing an id could get stamps a millisecond apart.
- PlaylistCard.Card, VideoCard.Card: a tile reads the first store record with its id. When two records share an id, the source renders a tile for each with its own record (and React warns about the duplicate key); the model gives both tiles the first one. The resets require the record to be present, because the tile is unmounted once its record leaves the store.
