# Status Saver, modelled in Dafny

Status Saver is an Android app. It finds the WhatsApp and WhatsApp Business
status files that the messenger keeps on shared storage, shows them by
category, saves copies to a public folder, deletes saved copies, and helps
the user open a chat with a number that is not in the contacts. This project
models the app's rule-bearing core and proves what those rules promise.

**Modules.** There is one module per source file. Small helper modules hold
what several of them share:

- `Wrappers`: an option type.
- `Text`: Kotlin string operations such as `substringBeforeLast`,
  case-insensitive `endsWith`/`contains`, `isBlank` and decimal rendering.
- `Lists`: filter, concatenation, the stable descending sort that
  `sortedByDescending` performs, and the first-occurrence `distinctBy`.
- `StatusItems`: the shared `StatusItem`/`MediaType` records and
  `DownloadResult`.
- `Storage`: a file system as a map from directory path to its listing, with
  lookup, delete, mkdirs and write.

**Form.** Pure computations are datatypes, functions and lemmas. Code that
keeps state is a class whose methods change its fields:

- the view models;
- the in-memory data source;
- the screens' remembered state;
- the ad managers;
- the application object.

Loops in the source are `while`/`for` loops with invariants, proved
against a specification function. Examples are the folder walk in
`getStatusFiles`, the alternative-location search, the delete over the save
folders and the thumbnail-cache eviction.

**Inputs.** The platform is passed into the model as values:

- the file system;
- the granted document tree;
- the Android API level and the set of granted permissions;
- the clock (`now`, in milliseconds);
- whether an operation throws, and with what message;
- `SimpleDateFormat` as a pair of opaque format/parse functions;
- `Uri.encode` as an opaque function;
- the ads SDK's callbacks, as event methods.

**Where the model follows the code.**

- **Deleting a saved status.** `deleteDownloadedStatus` reports whether *any*
  deletion succeeded. The model keeps that rule.
- **Long press on a saved card.** The card attaches only a click, so the
  screen's long-click handler is unreachable and selection mode is never
  entered. `LongClick` models the handler as intended; `CardPress` and
  `DeliveredEvents` model the screen as written (see Findings).
- **Two listings per load.** `loadStatusFiles` lists the status folder
  once inside `getStatusCount` and again for the selected tab. The model
  gives the two listings separate trees. The counts and the shown list
  agree only when the folder did not change in between.
- **Timestamp sort.** In `StatusRepositoryImpl`, lists are sorted by the
  formatted "hh:mm a" text. The order is therefore lexicographic on that
  text, not chronological, and the model sorts by the string.
- **Overwriting.**
  - A download from a `content://` URI writes with `outputStream()`, which
    overwrites. It can therefore replace an existing file whose name
    happens to equal the timestamped name.
  - A file-path download copies with `copyTo(overwrite = false)` and never
    overwrites.
- **Storage permission on API 30 to 33.** `requestStoragePermission` tests
  API 30 before API 33. Its media-permission branch therefore never runs.
- **The two permission tables.** `PermissionManager` and `PermissionUtils`
  disagree on API 33 and above. `PermissionUtils` also requires
  `READ_MEDIA_VISUAL_USER_SELECTED`. Both readings are modelled, together
  with a lemma that exhibits the difference.

## Model

| member | source | states |
|---|---|---|
| StatusItems.Succeeded | app/src/main/java/com/mg/statussaver/domain/repository/StatusRepository.kt:17-21 | a successful result names the saved file and carries no error |
| StatusItems.Failed | app/src/main/java/com/mg/statussaver/domain/repository/StatusRepository.kt:17-21 | a failed result carries its message and no saved path |
| StatusItems.SortByTimestamp | app/src/main/java/com/mg/statussaver/data/repository/StatusRepositoryImpl.kt:48 | sorting by timestamp text, newest first, is a permutation of its input and is non-increasing; items with equal timestamps keep their input order |
| StatusRepositoryImpl.AlternativePathsAreStatusFolders | app/src/main/java/com/mg/statussaver/data/repository/StatusRepositoryImpl.kt:288-295 | the four fallback folders are the two WhatsApp folders followed by the two Business folders |
| StatusRepositoryImpl.FullPaths | app/src/main/java/com/mg/statussaver/data/repository/StatusRepositoryImpl.kt:42-46 | each relative folder is hung from the external-storage root, in order |
| StatusRepositoryImpl.StatusesFromFolder | app/src/main/java/com/mg/statussaver/data/repository/StatusRepositoryImpl.kt:77-78 | a folder that does not exist gives no items |
| StatusRepositoryImpl.FolderListing | app/src/main/java/com/mg/statussaver/data/repository/StatusRepositoryImpl.kt:79-92 | a folder listing has these properties: <br>- it holds exactly the regular files ending in .jpg/.jpeg/.png/.mp4 (case-insensitive), newest modification first; <br>- each item's path is folder/name and its timestamp the formatted modification time; <br>- an item is VIDEO exactly when its name ends in .mp4 |
| StatusRepositoryImpl.FolderLists | app/src/main/java/com/mg/statussaver/data/repository/StatusRepositoryImpl.kt:42-46 | one listing per folder, in folder order |
| StatusRepositoryImpl.GatheredMembers | app/src/main/java/com/mg/statussaver/data/repository/StatusRepositoryImpl.kt:42-46 | an item is gathered exactly when some folder lists it |
| StatusRepositoryImpl.CollectStatuses | app/src/main/java/com/mg/statussaver/data/repository/StatusRepositoryImpl.kt:40-49 | the loop over the folders returns the concatenated listings, sorted by timestamp |
| StatusRepositoryImpl.GetWhatsAppStatuses | app/src/main/java/com/mg/statussaver/data/repository/StatusRepositoryImpl.kt:40-49 | the WhatsApp folders' listings, concatenated and sorted by timestamp |
| StatusRepositoryImpl.GetWhatsAppBusinessStatuses | app/src/main/java/com/mg/statussaver/data/repository/StatusRepositoryImpl.kt:51-60 | the Business folders' listings, concatenated and sorted by timestamp |
| StatusRepositoryImpl.DownloadedStatusesDistinct | app/src/main/java/com/mg/statussaver/data/repository/StatusRepositoryImpl.kt:62-73 | the saved list has these properties: <br>- no two items share a path, and every saved path is represented; <br>- each item is the first one met in public, then app-specific, then legacy order; <br>- the list is non-increasing by timestamp |
| StatusRepositoryImpl.MergedByPath | app/src/main/java/com/mg/statussaver/data/repository/StatusRepositoryImpl.kt:68-70 | deduplicating by path and then sorting keeps one first-seen item per path |
| StatusRepositoryImpl.UniqueNameProperties | app/src/main/java/com/mg/statussaver/data/repository/StatusRepositoryImpl.kt:147-154 | a taken name has these properties: <br>- it is replaced by before-last-dot_now.after-last-dot, which differs from the original; <br>- the extension is kept; <br>- a name x without a dot becomes x_now.x; <br>- a slash-free name stays slash-free |
| StatusRepositoryImpl.Backup | app/src/main/java/com/mg/statussaver/data/repository/StatusRepositoryImpl.kt:348-358 | the backup copy touches only its own file in the app-specific folder and never alters an existing file |
| StatusRepositoryImpl.CopyFileToDestination | app/src/main/java/com/mg/statussaver/data/repository/StatusRepositoryImpl.kt:310-389 | every outcome is a well-formed result, and no existing file is altered |
| StatusRepositoryImpl.CopySucceeds | app/src/main/java/com/mg/statussaver/data/repository/StatusRepositoryImpl.kt:313-373 | a copy succeeds exactly when all of these hold: <br>- the folder exists or can be made; <br>- the saved name is free; <br>- the write does not fail; <br>- the source is not empty. <br>On success, the file is stored under the saved name with the source's length, and only it and its backup change |
| StatusRepositoryImpl.ContentUriDownload | app/src/main/java/com/mg/statussaver/data/repository/StatusRepositoryImpl.kt:118-203 | every outcome is a well-formed result |
| StatusRepositoryImpl.ContentUriDownloadSaves | app/src/main/java/com/mg/statussaver/data/repository/StatusRepositoryImpl.kt:124-194 | a content-URI download succeeds exactly when all of these hold: <br>- a name is known; <br>- the folder exists or can be made; <br>- the stream opens; <br>- the write does not fail; <br>- the copy is not empty. <br>On success, the file is stored under the saved name and nothing else changes |
| StatusRepositoryImpl.FirstReadable | app/src/main/java/com/mg/statussaver/data/repository/StatusRepositoryImpl.kt:288-308 | the first folder, in order, holding a readable file of that name, or none when no folder has one |
| StatusRepositoryImpl.FindFileInAlternativeLocations | app/src/main/java/com/mg/statussaver/data/repository/StatusRepositoryImpl.kt:288-308 | the loop with its early return finds that first readable match |
| StatusRepositoryImpl.FilePathDownload | app/src/main/java/com/mg/statussaver/data/repository/StatusRepositoryImpl.kt:205-254 | every outcome is a well-formed result, and no existing file is altered |
| StatusRepositoryImpl.FilePathDownloadCopiesSource | app/src/main/java/com/mg/statussaver/data/repository/StatusRepositoryImpl.kt:214-245 | on success, the source is the file itself or else the first readable fallback, the saved name was free, and the copy has the source's length |
| StatusRepositoryImpl.HandleFilePathDownload | app/src/main/java/com/mg/statussaver/data/repository/StatusRepositoryImpl.kt:205-254 | the method's result is the file-path download |
| StatusRepositoryImpl.DownloadStatus | app/src/main/java/com/mg/statussaver/data/repository/StatusRepositoryImpl.kt:95-116 | a "content://" path takes the URI route and any other path the file route; the result is always well-formed |
| StatusRepositoryImpl.DeleteDownloadedStatus | app/src/main/java/com/mg/statussaver/data/repository/StatusRepositoryImpl.kt:391-427 | the delete runs over the primary path, then the same name in the three save folders: <br>- it answers true exactly when some candidate existed and its delete succeeded; <br>- every deletable candidate is gone afterwards; <br>- nothing else changes |
| StatusRepositoryImpl.DeletedStatusLeavesSavedList | app/src/main/java/com/mg/statussaver/data/repository/StatusRepositoryImpl.kt:393-422 | once the candidates are gone, the saved list shows no item with that path |
| StatusRepositoryImpl.NotListedAfterDelete | app/src/main/java/com/mg/statussaver/data/repository/StatusRepositoryImpl.kt:77-92 | a folder never lists an item whose file does not exist |
| StatusRepositoryImpl.VideoDuration | app/src/main/java/com/mg/statussaver/data/repository/StatusRepositoryImpl.kt:456-471 | a duration is printed exactly when the metadata has one |
| StatusRepositoryImpl.VideoDurationOfLength | app/src/main/java/com/mg/statussaver/data/repository/StatusRepositoryImpl.kt:463-467 | a non-negative length prints as minutes:seconds, where minutes are whole minutes and seconds are whole seconds below 60 in two digits |
| StatusRepositoryImpl.VideoDurationOfNegative | app/src/main/java/com/mg/statussaver/data/repository/StatusRepositoryImpl.kt:463-467 | a negative length (-5000 ms) prints as "0:-5", because division truncates toward zero |
| StatusRepository.MediaTypeRules | app/src/main/java/com/mg/statussaver/data/repository/StatusRepository.kt:46-57 | a media type is chosen as follows: <br>- an image/ or video/ MIME type decides first; <br>- otherwise the image extensions (.jpg/.jpeg/.png/.webp) give IMAGE and the video extensions (.mp4/.3gp/.mkv) give VIDEO; <br>- anything else is rejected |
| StatusRepository.ClassifyAccepts | app/src/main/java/com/mg/statussaver/data/repository/StatusRepository.kt:37-72 | a document becomes an item exactly when all of these hold: <br>- it is a readable file; <br>- its name is present and neither starts with "." nor contains "nomedia"; <br>- it has a media type. <br>The item's path is the document URI, and its time is "Unknown" when the modification time is 0 or less |
| StatusRepository.ScanMembers | app/src/main/java/com/mg/statussaver/data/repository/StatusRepository.kt:36-74 | an item is scanned exactly when some document classifies to it |
| StatusRepository.StatusFilesSorted | app/src/main/java/com/mg/statussaver/data/repository/StatusRepository.kt:26-89 | the list is a permutation of the scanned items: <br>- newest parsed date first, with an unparsable date counting as 0; <br>- items of equal date stay in listing order; <br>- there are no items without a readable tree |
| StatusRepository.GetStatusFiles | app/src/main/java/com/mg/statussaver/data/repository/StatusRepository.kt:26-89 | the loop over the tree, with its skips, returns that sorted list |
| StatusRepository.ImagesPlusVideos | app/src/main/java/com/mg/statussaver/data/repository/StatusRepository.kt:99-109 | the images and the videos together account for every item |
| StatusRepository.CountTypeIsFilterLength | app/src/main/java/com/mg/statussaver/data/repository/StatusRepository.kt:101-102 | counting the items of one type, item by item, gives the length of that type's filtered list |
| StatusRepository.CountOf | app/src/main/java/com/mg/statussaver/data/repository/StatusRepository.kt:99-116 | the total is the list length, and the image and video counts add up to it |
| StatusRepository.CountOfMatchesFilters | app/src/main/java/com/mg/statussaver/data/repository/StatusRepository.kt:91-109 | the image and video counts are the lengths of the lists `getImageStatuses` and `getVideoStatuses` return for the same listing |
| StatusRepository.GetImageStatuses | app/src/main/java/com/mg/statussaver/data/repository/StatusRepository.kt:91-93 | the order-preserving IMAGE sublist of the status files |
| StatusRepository.GetVideoStatuses | app/src/main/java/com/mg/statussaver/data/repository/StatusRepository.kt:95-97 | the order-preserving VIDEO sublist of the status files |
| StatusRepository.GetStatusCount | app/src/main/java/com/mg/statussaver/data/repository/StatusRepository.kt:99-109 | the counts of the status files; the total is images plus videos |
| GetStatusesUseCase.InvokeMerges | app/src/main/java/com/mg/statussaver/domain/usecase/GetStatusesUseCase.kt:19-28 | the use case's two cases: <br>- for saved statuses, the downloaded list unchanged; <br>- otherwise a permutation of the WhatsApp and Business lists, as long as both together, non-increasing by timestamp; <br>- among equal timestamps, WhatsApp items come first and both keep their order |
| SavedViewModel.WithoutPathProperties | app/src/main/java/com/mg/statussaver/presentation/screens/saved/SavedViewModel.kt:51 | removing a path has these properties: <br>- it drops exactly the items with that path and keeps the rest in order; <br>- repeating it changes nothing; <br>- an absent path changes nothing |
| SavedViewModel.WithoutPathsProperties | app/src/main/java/com/mg/statussaver/presentation/screens/saved/SavedViewModel.kt:64-72 | removing several paths keeps, in order, exactly the items whose path is not among them |
| SavedViewModel.WithoutSinglePath | app/src/main/java/com/mg/statussaver/presentation/screens/saved/SavedViewModel.kt:51 | removing a one-path list is removing that path |
| SavedViewModel.DeleteFilesEffect | app/src/main/java/com/mg/statussaver/presentation/screens/saved/SavedViewModel.kt:64-68 | deleting files in turn removes exactly the deletable named files |
| SavedViewModel.SavedViewModel.constructor | app/src/main/java/com/mg/statussaver/presentation/screens/saved/SavedViewModel.kt:19-25 | construction loads the list, and the loading flag goes false, true, false |
| SavedViewModel.SavedViewModel.LoadStatuses | app/src/main/java/com/mg/statussaver/presentation/screens/saved/SavedViewModel.kt:27-39 | the list is the fetched one, or empty if fetching throws; the loading flag is set and then cleared |
| SavedViewModel.SavedViewModel.DeleteStatus | app/src/main/java/com/mg/statussaver/presentation/screens/saved/SavedViewModel.kt:41-58 | the file is deleted and the list loses that path, whatever the deletion answered; on a throw the file system is unchanged and the list is reloaded |
| SavedViewModel.SavedViewModel.DeleteMultipleStatuses | app/src/main/java/com/mg/statussaver/presentation/screens/saved/SavedViewModel.kt:60-78 | each file is deleted and the list loses exactly the given paths; when the file access for one path throws, the earlier paths are already deleted, that path and the rest are kept, and the list is reloaded |
| SavedViewModel.SavedViewModel.RefreshStatuses | app/src/main/java/com/mg/statussaver/presentation/screens/saved/SavedViewModel.kt:80-82 | refreshing behaves like loading |
| FileStatusDataSource.DemoIdsUnique | app/src/main/java/com/mg/statussaver/data/local/FileStatusDataSource.kt:9-21 | the three demo statuses have distinct ids, none is saved or has a local path, and each carries its own clock reading |
| FileStatusDataSource.SavedProperties | app/src/main/java/com/mg/statussaver/data/local/FileStatusDataSource.kt:28-32 | saving has these properties: <br>- it appends only a new id, so ids stay unique; <br>- the existing entries keep their places; <br>- the id is present afterwards; <br>- saving again changes nothing |
| FileStatusDataSource.FileStatusDataSource.constructor | app/src/main/java/com/mg/statussaver/data/local/FileStatusDataSource.kt:9-22 | the recent list is the demo list stamped with three clock readings, and the saved list starts empty |
| FileStatusDataSource.FileStatusDataSource.SaveStatus | app/src/main/java/com/mg/statussaver/data/local/FileStatusDataSource.kt:28-32 | the saved list becomes the saving of the status, ids stay unique, and the recent list is untouched |
| HomeViewModel.IndexOfFirst | app/src/main/java/com/mg/statussaver/presentation/screens/home/HomeViewModel.kt:54 | the first index with the selected path, or -1 when there is none |
| HomeViewModel.TabAgreesWithCount | app/src/main/java/com/mg/statussaver/presentation/screens/home/HomeViewModel.kt:99-111 | over one listing, the list for a tab is as long as that tab's category count |
| HomeViewModel.LoadShowsCountedList | app/src/main/java/com/mg/statussaver/presentation/screens/home/HomeViewModel.kt:99-117 | when the folder does not change between the count's listing and the tab's, a load without a throw shows a list as long as the tab's count, and Empty exactly when that count is 0 |
| HomeViewModel.UiStateFor | app/src/main/java/com/mg/statussaver/presentation/screens/home/HomeViewModel.kt:113-117 | an empty list gives Empty, and any other list gives Success with the same list |
| HomeViewModel.DownloadReportAgrees | app/src/main/java/com/mg/statussaver/presentation/screens/home/HomeViewModel.kt:140-149 | a returned result is passed on with its own flag and message, and a well-formed one carries a message exactly when it failed; a throw is reported as "Download failed: " followed by the exception's message, or "null" |
| HomeViewModel.GrantedIffPermissionsAndFolder | app/src/main/java/com/mg/statussaver/presentation/screens/home/HomeViewModel.kt:73-88 | the screen is Granted exactly when every required storage permission is granted and the folder is accessible |
| HomeViewModel.HomeViewModel.constructor | app/src/main/java/com/mg/statussaver/presentation/screens/home/HomeViewModel.kt:62-64 | construction checks the permissions on tab 0 |
| HomeViewModel.HomeViewModel.OpenViewer | app/src/main/java/com/mg/statussaver/presentation/screens/home/HomeViewModel.kt:51-56 | the tab and the viewer items are set, and the start index is the first match of the selected path, or -1 |
| HomeViewModel.HomeViewModel.LoadStatusFiles | app/src/main/java/com/mg/statussaver/presentation/screens/home/HomeViewModel.kt:97-122 | a load works as follows: <br>- the counts are stored, from the first listing; <br>- from a second listing, tab 1 shows images, tab 2 videos, any other tab everything; <br>- an empty list gives Empty; <br>- a throw gives Error with its message, or "Failed to load status files" |
| HomeViewModel.HomeViewModel.CheckPermissions | app/src/main/java/com/mg/statussaver/presentation/screens/home/HomeViewModel.kt:73-88 | the state is Granted, after a load, exactly when the storage permission and the folder access both hold; otherwise it is Required |
| HomeViewModel.HomeViewModel.SetSelectedTab | app/src/main/java/com/mg/statussaver/presentation/screens/home/HomeViewModel.kt:66-71 | the tab is always stored, but a reload happens only when the state is Granted |
| HomeViewModel.HomeViewModel.OnPermissionGranted | app/src/main/java/com/mg/statussaver/presentation/screens/home/HomeViewModel.kt:90-95 | the state becomes Granted and the files are loaded |
| HomeViewModel.HomeViewModel.RefreshStatuses | app/src/main/java/com/mg/statussaver/presentation/screens/home/HomeViewModel.kt:124-130 | when Granted, it reloads; otherwise it re-checks the permissions |
| HomeViewModel.HomeViewModel.RefreshPermissions | app/src/main/java/com/mg/statussaver/presentation/screens/home/HomeViewModel.kt:132-134 | refreshing the permissions is a permission check |
| DirectChatScreen.FilterCountriesProperties | app/src/main/java/com/mg/statussaver/presentation/screens/directchat/DirectChatScreen.kt:113-123 | a blank query keeps every country; any other query keeps, in order, exactly the countries whose name, dialing code or code contains it, ignoring case |
| DirectChatScreen.SendUrl | app/src/main/java/com/mg/statussaver/presentation/screens/directchat/DirectChatScreen.kt:126-128 | a link exists exactly when send is enabled: the phone is non-blank with at least 7 characters, and the message is non-blank |
| DirectChatScreen.SendUrlShape | app/src/main/java/com/mg/statussaver/presentation/screens/directchat/DirectChatScreen.kt:390-395 | the link is https://wa.me/, then the dialing code and the phone, then ?text= and the encoded message |
| DirectChatScreen.DigitPhoneValidity | app/src/main/java/com/mg/statussaver/presentation/screens/directchat/DirectChatScreen.kt:126 | a digits-only phone is valid exactly when it has at least 7 digits |
| DirectChatScreen.DirectChatState.constructor | app/src/main/java/com/mg/statussaver/presentation/screens/directchat/DirectChatScreen.kt:106-110 | India, the first country, is selected; the dropdown is closed and every field is empty |
| DirectChatScreen.DirectChatState.ToggleDropdown | app/src/main/java/com/mg/statussaver/presentation/screens/directchat/DirectChatScreen.kt:191 | a click on the card flips the dropdown |
| DirectChatScreen.DirectChatState.DismissDropdown | app/src/main/java/com/mg/statussaver/presentation/screens/directchat/DirectChatScreen.kt:232-235 | dismissing closes the dropdown and clears the query |
| DirectChatScreen.DirectChatState.ChangeSearchQuery | app/src/main/java/com/mg/statussaver/presentation/screens/directchat/DirectChatScreen.kt:244 | typing replaces the query |
| DirectChatScreen.DirectChatState.SelectCountry | app/src/main/java/com/mg/statussaver/presentation/screens/directchat/DirectChatScreen.kt:287-291 | picking a country selects it, closes the dropdown and clears the query |
| DirectChatScreen.DirectChatState.ChangePhoneNumber | app/src/main/java/com/mg/statussaver/presentation/screens/directchat/DirectChatScreen.kt:323 | the phone field keeps only the digits typed, so it only ever holds digits |
| DirectChatScreen.DirectChatState.ChangeMessage | app/src/main/java/com/mg/statussaver/presentation/screens/directchat/DirectChatScreen.kt:363 | typing replaces the message |
| DirectChatScreen.DirectChatState.Send | app/src/main/java/com/mg/statussaver/presentation/screens/directchat/DirectChatScreen.kt:389-397 | the send action opens the link exactly when there are at least 7 digits and the message is non-blank |
| SavedStatusScreen.DistinctPathCount | app/src/main/java/com/mg/statussaver/presentation/screens/saved/SavedStatusScreen.kt:93-96 | with distinct paths, the path set is as large as the list |
| SavedStatusScreen.Toggled | app/src/main/java/com/mg/statussaver/presentation/screens/saved/SavedStatusScreen.kt:167-171 | a click flips the clicked path's membership and no other |
| SavedStatusScreen.ToggledTwice | app/src/main/java/com/mg/statussaver/presentation/screens/saved/SavedStatusScreen.kt:167-171 | two clicks on one item restore the selection |
| SavedStatusScreen.SelectAllToggles | app/src/main/java/com/mg/statussaver/presentation/screens/saved/SavedStatusScreen.kt:92-98 | on a list with distinct paths: <br>- select-all after everything is selected clears the selection; <br>- on a partial selection it selects exactly the list's paths |
| SavedStatusScreen.SelectionState.constructor | app/src/main/java/com/mg/statussaver/presentation/screens/saved/SavedStatusScreen.kt:39-42 | nothing is selected and no dialog is open |
| SavedStatusScreen.SelectionState.LongClick | app/src/main/java/com/mg/statussaver/presentation/screens/saved/SavedStatusScreen.kt:161-164 | the long-click handler enters selection mode and adds the item; the card never attaches it (see Findings) |
| SavedStatusScreen.SelectionState.CardPress | app/src/main/java/com/mg/statussaver/presentation/screens/saved/SavedStatusScreen.kt:259-262 | the card's only gesture is its click, so any press toggles the item in selection mode and leaves everything unchanged outside it |
| SavedStatusScreen.SelectionState.DeliveredEvents | app/src/main/java/com/mg/statussaver/presentation/screens/saved/SavedStatusScreen.kt:155-180 | over any run of the events the screen can deliver from a fresh state, selection mode is never entered, nothing is selected, and no selection is ever sent for deletion |
| SavedStatusScreen.PressOnFreshScreen | app/src/main/java/com/mg/statussaver/presentation/screens/saved/SavedStatusScreen.kt:253-262 | on a fresh screen, pressing a card selects nothing |
| SavedStatusScreen.LongClickOnFreshScreen | app/src/main/java/com/mg/statussaver/presentation/screens/saved/SavedStatusScreen.kt:161-164 | on a fresh screen, the long-click handler would select exactly that card |
| SavedStatusScreen.SelectionState.Click | app/src/main/java/com/mg/statussaver/presentation/screens/saved/SavedStatusScreen.kt:165-176 | in selection mode a click toggles the item; outside it the selection is unchanged |
| SavedStatusScreen.SelectionState.SelectAll | app/src/main/java/com/mg/statussaver/presentation/screens/saved/SavedStatusScreen.kt:92-98 | select-all clears a selection as large as the list, and otherwise selects every path |
| SavedStatusScreen.SelectionState.Back | app/src/main/java/com/mg/statussaver/presentation/screens/saved/SavedStatusScreen.kt:63-69 | back in selection mode leaves the mode and clears the selection; outside it, back navigates away |
| SavedStatusScreen.SelectionState.DeleteSelectedClick | app/src/main/java/com/mg/statussaver/presentation/screens/saved/SavedStatusScreen.kt:81-83 | the top-bar delete button opens the dialog |
| SavedStatusScreen.SelectionState.CardDeleteClick | app/src/main/java/com/mg/statussaver/presentation/screens/saved/SavedStatusScreen.kt:177-180 | a card's delete button marks its path and opens the dialog |
| SavedStatusScreen.SelectionState.DismissDialog | app/src/main/java/com/mg/statussaver/presentation/screens/saved/SavedStatusScreen.kt:191 | dismissing closes the dialog, and the pending path stays |
| SavedStatusScreen.SelectionState.ConfirmDelete | app/src/main/java/com/mg/statussaver/presentation/screens/saved/SavedStatusScreen.kt:209-224 | confirm works as follows: <br>- a non-empty selection is deleted, cleared, and selection mode ends; <br>- otherwise the pending path, if any, is deleted; <br>- the dialog closes and the pending path is cleared |
| SavedStatusScreen.SelectionState.CancelDelete | app/src/main/java/com/mg/statussaver/presentation/screens/saved/SavedStatusScreen.kt:233-239 | cancel closes the dialog and clears the pending path without deleting |
| HomeScreen.TabForCategory | app/src/main/java/com/mg/statussaver/presentation/screens/home/HomeScreen.kt:406-410 | "Images" selects tab 1, "Videos" tab 2, and any other title tab 0 |
| HomeScreen.VideoThumbnail.constructor | app/src/main/java/com/mg/statussaver/presentation/screens/home/HomeScreen.kt:623-628 | the cache starts empty and the thumbnail is loading |
| HomeScreen.VideoThumbnail.CheckCache | app/src/main/java/com/mg/statussaver/presentation/screens/home/HomeScreen.kt:623-640 | a new path starts with no bitmap; only a stored bitmap is a hit and is shown at once; a missing or failed entry starts a new load with no bitmap shown |
| HomeScreen.VideoThumbnail.StoreResult | app/src/main/java/com/mg/statussaver/presentation/screens/home/HomeScreen.kt:703-713 | the result, a failure included, is stored under the path, keeping its insertion place, and the error flag is set exactly for a failure |
| HomeScreen.VideoThumbnail.LoadThrew | app/src/main/java/com/mg/statussaver/presentation/screens/home/HomeScreen.kt:708-713 | a throw shows the error and stores nothing |
| HomeScreen.VideoThumbnail.Dispose | app/src/main/java/com/mg/statussaver/presentation/screens/home/HomeScreen.kt:717-728 | on dispose: <br>- a cache of more than 50 entries keeps its 40 newest insertions, with their values; <br>- a smaller cache is kept as it is |
| HomeScreen.CacheSize | app/src/main/java/com/mg/statussaver/presentation/screens/home/HomeScreen.kt:720-721 | the cache holds one entry per key in its insertion order |
| HomeScreen.MimeTypeFor | app/src/main/java/com/mg/statussaver/presentation/screens/home/HomeScreen.kt:117-120 | IMAGE shares as image/* and VIDEO as video/* |
| HomeScreen.ShareStatusFile | app/src/main/java/com/mg/statussaver/presentation/screens/home/HomeScreen.kt:95-143 | sharing has four cases: <br>- a content URI is shared as it is; <br>- an existing plain file is shared through the app's file provider; <br>- a missing plain file is dropped; <br>- an existing plain file the provider refuses ends in the failure message. <br>The text is "Shared from Status Saver" |
| PermissionManager.HasStoragePermissionIffAllRequired | app/src/main/java/com/mg/statussaver/utils/PermissionManager.kt:25-57 | storage permission holds exactly when every permission on the level's list is granted: <br>- from 33: images and video; <br>- from 30: read; <br>- below 30: read and write |
| PermissionManager.RequestNeverAsksForMedia | app/src/main/java/com/mg/statussaver/utils/PermissionManager.kt:59-89 | from API 30 the request opens a settings screen, so the API 33 media request is never made; below 30, read and write are requested at run time |
| PermissionManager.RationaleCoversRequired | app/src/main/java/com/mg/statussaver/utils/PermissionManager.kt:91-106 | from API 30 the rationale is asked exactly for some required permission; below 30 a write-only rationale is not asked |
| PermissionManager.HasWhatsAppQueryPermission | app/src/main/java/com/mg/statussaver/utils/PermissionManager.kt:108-114 | below API 30 the query permission always holds |
| PermissionManager.InstalledChecksIndependent | app/src/main/java/com/mg/statussaver/utils/PermissionManager.kt:127-143 | each installed check holds exactly when its own package is installed, and the other package does not affect it |
| PermissionManager.GetAllRequiredPermissions | app/src/main/java/com/mg/statussaver/utils/PermissionManager.kt:116-125 | the required list, followed by QUERY_ALL_PACKAGES exactly from API 30 on |
| PermissionUtils.HasStoragePermissionsIffAllRequired | app/src/main/java/com/mg/statussaver/utils/PermissionUtils.kt:17-74 | the check holds exactly when every permission of that level's list is granted |
| PermissionUtils.RationaleIffNotGranted | app/src/main/java/com/mg/statussaver/utils/PermissionUtils.kt:123-128 | the rationale is advised exactly when the storage check fails |
| PermissionUtils.ShouldShowRationaleForLevels | app/src/main/java/com/mg/statussaver/utils/PermissionUtils.kt:95-100 | the rationale is shown when some permission of the level's list has one: <br>- from 33: images, video or user-selected; <br>- from 30: read; <br>- below 30: read or write. <br>This covers every case of the first table's check, and below 30 also write alone |
| PermissionUtils.ArePermissionsPermanentlyDenied | app/src/main/java/com/mg/statussaver/utils/PermissionUtils.kt:86-90 | the answer is always false |
| PermissionUtils.HasAllFilesAccess | app/src/main/java/com/mg/statussaver/utils/PermissionUtils.kt:133-139 | below API 30 the answer is always true; from 30 it is the storage-manager flag |
| PermissionUtils.TablesAgreeBelowTiramisu | app/src/main/java/com/mg/statussaver/utils/PermissionUtils.kt:54-74 | below 33 both tables are equal; from 33 this one adds READ_MEDIA_VISUAL_USER_SELECTED, so it is the stricter check |
| PermissionUtils.TablesDifferOnTiramisu | app/src/main/java/com/mg/statussaver/utils/PermissionUtils.kt:54-60 | at API 33, images plus video satisfies one table but not the other |
| AdMobUtils.FreshnessWindow | app/src/main/java/com/mg/statussaver/utils/AdMobUtils.kt:161-164 | an ad loaded at t is available before t + 14 400 000 ms and not after; no ad is never available |
| AdMobUtils.RewardedAdManager.constructor | app/src/main/java/com/mg/statussaver/utils/AdMobUtils.kt:42 | the slot starts empty |
| AdMobUtils.RewardedAdManager.OnAdLoaded | app/src/main/java/com/mg/statussaver/utils/AdMobUtils.kt:52-55 | a loaded ad fills the slot |
| AdMobUtils.RewardedAdManager.OnAdFailedToLoad | app/src/main/java/com/mg/statussaver/utils/AdMobUtils.kt:57-60 | a failed load empties the slot and passes on the message |
| AdMobUtils.RewardedAdManager.ShowRewardedAd | app/src/main/java/com/mg/statussaver/utils/AdMobUtils.kt:64-72 | the held ad, if any, is shown |
| AdMobUtils.RewardedAdManager.OnAdDismissed | app/src/main/java/com/mg/statussaver/utils/AdMobUtils.kt:74-77 | a dismissed ad is dropped |
| AdMobUtils.AppOpenAdManager.constructor | app/src/main/java/com/mg/statussaver/utils/AdMobUtils.kt:84-86 | no ad is held, none is showing, and the load time is 0 |
| AdMobUtils.AppOpenAdManager.LoadAd | app/src/main/java/com/mg/statussaver/utils/AdMobUtils.kt:94-100 | a request is sent exactly when no ad is showing and no fresh ad is held |
| AdMobUtils.AppOpenAdManager.OnAdLoaded | app/src/main/java/com/mg/statussaver/utils/AdMobUtils.kt:106-111 | a loaded ad is held and stamped with the load time |
| AdMobUtils.AppOpenAdManager.OnAdFailedToLoad | app/src/main/java/com/mg/statussaver/utils/AdMobUtils.kt:113-117 | a failed load drops the ad |
| AdMobUtils.AppOpenAdManager.ShowAdIfAvailable | app/src/main/java/com/mg/statussaver/utils/AdMobUtils.kt:126-155 | an ad is shown exactly when none is showing and a fresh one is held; otherwise a load is sent exactly when none is showing |
| AdMobUtils.AppOpenAdManager.OnAdShowed | app/src/main/java/com/mg/statussaver/utils/AdMobUtils.kt:149-152 | the showing flag is set |
| AdMobUtils.AppOpenAdManager.OnAdDismissed | app/src/main/java/com/mg/statussaver/utils/AdMobUtils.kt:135-140 | dismissal drops the ad, clears the flag and always sends a new load |
| AdMobUtils.AppOpenAdManager.OnAdFailedToShow | app/src/main/java/com/mg/statussaver/utils/AdMobUtils.kt:142-147 | failing to show acts as a dismissal |
| AdMobUtils.ShowWhileShowing | app/src/main/java/com/mg/statussaver/utils/AdMobUtils.kt:126-132 | while an ad is on screen, a show request neither shows an ad nor sends a load |
| AdMobUtils.FreshAdIsShown | app/src/main/java/com/mg/statussaver/utils/AdMobUtils.kt:126-164 | an ad loaded while none is showing is shown when asked within four hours |
| StatusSaverApplication.StatusSaverApplication.constructor | app/src/main/java/com/mg/statussaver/StatusSaverApplication.kt:16-18 | no activity is current, and the app is not in the background |
| StatusSaverApplication.StatusSaverApplication.OnCreate | app/src/main/java/com/mg/statussaver/StatusSaverApplication.kt:20-28 | creation asks the ad manager to load an ad |
| StatusSaverApplication.StatusSaverApplication.OnStart | app/src/main/java/com/mg/statussaver/StatusSaverApplication.kt:33-44 | coming back from the background clears the flag, and an ad show is tried exactly when an activity is current |
| StatusSaverApplication.StatusSaverApplication.OnStop | app/src/main/java/com/mg/statussaver/StatusSaverApplication.kt:49-52 | stopping marks the app as in the background |
| StatusSaverApplication.StatusSaverApplication.OnActivityActive | app/src/main/java/com/mg/statussaver/StatusSaverApplication.kt:56-66 | a created, started or resumed activity becomes current |
| StatusSaverApplication.StatusSaverApplication.OnActivityDestroyed | app/src/main/java/com/mg/statussaver/StatusSaverApplication.kt:68-72 | a destroyed activity is forgotten only if it is the current one |
| StatusSaverApplication.StartTwice | app/src/main/java/com/mg/statussaver/StatusSaverApplication.kt:33-44 | a second start without a stop never tries to show an ad |
| StatusSaverApplication.StopThenStart | app/src/main/java/com/mg/statussaver/StatusSaverApplication.kt:33-52 | a stop, then a start with an activity current, tries once to show an ad |

## Left out

- **Platform I/O:** file metadata, `MediaStore` scanner broadcasts, `Log` calls, toasts and intents are platform I/O. File-system calls are modelled only through the map-based file system. Sharing from the repository (`shareStatus`, FileProvider URIs) is left out.
- **Exceptions:** the file-system exception paths that reach only catch-all handlers are not modelled. These are "Unexpected error during copy", "Failed to download file", the catch in `downloadStatus`, and the catch in `deleteDownloadedStatus` (StatusRepositoryImpl.kt:423-426). In the last one, a throw from `exists` or `delete` returns false even after an earlier deletion succeeded; the model answers true in that case. A write fault is modelled with its message. In `shareStatusFile` only a throw from the file provider is modelled; a throw when the chooser is started is not.
- **Partial files:** a file left partly written by a failed write is not modelled. On a fault the model keeps the file system as it was.
- **Opaque inputs:**
  - `extractFileNameFromUri` is the `name` input of the content-URI download.
  - `SimpleDateFormat` is a pair of opaque format/parse functions.
  - `Uri.encode` is an opaque function.
  - `getFormattedTime` is the `format` parameter.
- **Text:** case folding, whitespace and digits are ASCII-only. String comparison is by code point, while Kotlin compares UTF-16 units; the two differ only outside the Basic Multilingual Plane.
- **Asynchrony:** coroutines and `viewModelScope.launch` ordering are not modelled. Each operation runs to completion before the next. In particular, a load started by `checkPermissions` completes before Granted is stored.
- **Integer width:** `Long` overflow of times and sizes is not modelled; all integers are unbounded.
- **HomeViewModel.HomeViewModel.LoadStatusFiles:** a throw is modelled as happening before the counts are stored. If `getStatusFiles` throws after `getStatusCount` succeeds, the source keeps the new counts and the model does not.
- **StatusRepository.GetStatusFiles:** an exception in the middle of the loop, which in the source returns the items gathered so far, is not modelled.
- **Thumbnail bitmaps:** in HomeScreen, frame extraction, resizing and `recycle()` are not modelled. The loader's result is an input.
- **AdMobUtils.RewardedAdManager:** `loadRewardedAd` only sends a request and changes no state, so it is not modelled as a method. The reward callback is not modelled.
- **FileStatusDataSource:** `Status_domain`, the record it stores, is not part of this model. Its fields are inferred from the constructor calls in FileStatusDataSource.kt. `getCurrentTime` is read three times, once per demonstration status; the readings are the inputs `t1`, `t2` and `t3`.
- **PermissionManager:** the installed-package checks (`isWhatsAppInstalled`, `isWhatsAppBusinessInstalled`) are modelled as membership in a set of installed packages.
- **PermissionUtils:** `PermissionDescription` and `PermissionDeniedMessage` are constant texts, with nothing to prove about them.
- **Compose rendering:** layout, colours and navigation are not modelled; only the screens' rule logic is.

## Findings

| source | as written | input that shows it | evidently intended | confidence | as-written member | corrected member |
|---|---|---|---|---|---|---|
| app/src/main/java/com/mg/statussaver/presentation/screens/saved/SavedStatusScreen.kt:253-262 | `SavedStatusCard` takes `onLongClick` but attaches only `.clickable { onClick() }`, so the long-click handler at lines 161-164 can never run. Selection mode is never entered, and select-all, the top-bar delete and multi-delete cannot be reached | a long press on any card of a fresh screen: the click runs, does nothing outside selection mode, and no card is selected | a long press enters selection mode and selects the card, e.g. through `combinedClickable(onClick, onLongClick)` | high, not executed | SavedStatusScreen.PressOnFreshScreen | SavedStatusScreen.LongClickOnFreshScreen |
