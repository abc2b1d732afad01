# Writer's Hub admin interface: a verified model

This project models the deterministic logic of the Writer's Hub admin user
interface (a React single-page application) and proves properties of it.

The interface has these parts:
- **The in-memory mock backend.** It holds module-level arrays of contents,
  comments, events, users, chats, messages and notifications, and its API
  functions read and update them.
- **Pagination.** The page-number generator with ellipses, the slice/total/ceil
  arithmetic of `fetchContents` and of the user table, and the clamped
  previous/next buttons of the content list.
- **The workspace.** Folders form a forest through their parent links. The model covers the
  breadcrumb walk, create, rename, delete-only-if-empty, file upload, the folder
  tree (expansion set, roots, children, recursive rendering, context menu) and
  the file grid.
- **Small forms and components.**
  - The trim-and-non-empty guards of the create- and rename-folder dialogs,
    the comment box, the chat input and the submission page.
  - The team-member list of the event form.
  - The comma-separated recipient list of the share dialog.
  - The user selection, search, ordering and paging of the user table.
  - The notification badge and its "time ago" labels.
  - The status badge and the storage bar.
  - The toast counter.

Each source file of the core has one Dafny module:

- `Api` (`api.dfy`) models `src/lib/api.ts`, as class `MockBackend` with one `seq` field per array.
- `Pagination` models `src/components/Pagination.tsx`.
- `Workspace` models `src/routes/Workspace.tsx`.
- `FolderTree` models `src/components/FolderTree.tsx`.
- `FileGrid` models `src/components/FileGrid.tsx`.
- `Ui` is the open/close menu toggle shared by the folder tree and the file grid.
- `Users`, `Events`, `Chats`, `ContentList`, `Dashboard` and `Submit` model the routes of the same names.
- `NotificationDropdown`, `ShareModal`, `CreateFolderModal`, `RenameFolderModal`, `CommentBox`, `StatusBadge` and `StorageBar` model the components of the same names.
- `Toast` models `src/hooks/useToast.ts`.

A few modules are shared by the others:
- `Js` is JavaScript's `trim`, ASCII `toLowerCase`, `includes`, `split`, `join`,
  `slice`, `filter`, `find`, `findIndex`, `Math.ceil` of a quotient, and number
  rendering in template literals.
- `Sorting` is a stable sort with a numeric comparator, which is what
  `Array.prototype.sort` must be.
- `Types` holds the records of `src/types/*.ts`.
- `Wrappers` holds `Option` and `Result`.

Operations that change state in place are methods of classes:
- the mock backend's `unshift`, `push`, `splice` and field writes;
- the in-place sort of `fetchNotifications`;
- the `for` loop of `getPageNumbers`;
- the `while` loop of `getBreadcrumbs`;
- the toast counter;
- the two folder dialogs with their state fields.

Code built from new arrays (spread, `map`, `filter`) is modelled as functions.

## Model

| member | source | states |
|---|---|---|
| Api.Paginate | src/lib/api.ts:306-316 | `total` is the number of matches, `totalPages` is the ceiling of total/pageSize, and the data is the window `[(page-1)*pageSize, page*pageSize)` clamped to the list, so it has at most pageSize items |
| Api.PageWindow | src/lib/api.ts:307-316 | page p starts inside the list exactly for 1 <= p <= totalPages |
| Api.ItemOnPage | src/lib/api.ts:307-316 | the m-th item of a page is the item at the page's start plus m |
| Api.PageEmptiness | src/lib/api.ts:307-316 | pages 1 to totalPages are non-empty; page 0 and pages after the last are empty |
| Api.PageOfItem | src/lib/api.ts:307-316 | item i is at position i mod pageSize of page i/pageSize+1, and that page exists |
| Api.ByStatus | src/lib/api.ts:301-304 | with a status, exactly the contents of that status remain; without one, the list is unchanged |
| Api.MockBackend.constructor | src/lib/api.ts:8-288 | the arrays hold the given seed data, which meets the numbering and uniqueness invariants |
| Api.MockBackend.FetchContents | src/lib/api.ts:294-318 | `total` counts every match; `totalPages` is its ceiling over the page size; for a page from 1 the data is the page-size window of the matches at `(page - 1) * pageSize`, in storage order, clamped to the list; every returned item is stored and has the requested status |
| Api.MockBackend.FetchContentById | src/lib/api.ts:320-323 | none exactly when no content has the id; otherwise a stored content with that id |
| Api.MockBackend.FetchCommentsByContentId | src/lib/api.ts:325-328 | exactly the stored comments of that content |
| Api.NextIdFresh | src/lib/api.ts:338 | ids made from the next number are not yet stored, and adding them keeps the numbering |
| Api.NewContent | src/lib/api.ts:337-351 | id is the next number, status is Submitted, and title, text, type and times are as given |
| Api.StoryWordCount | src/lib/api.ts:348 | a story of words separated by single spaces gets wordCount = number of words |
| Api.StoryWordCountRuns | src/lib/api.ts:348 | for any text, wordCount is one more than the number of maximal whitespace runs, so a leading or trailing run adds an empty word |
| Api.PoemLineCount | src/lib/api.ts:349 | a poem gets lines = number of line breaks + 1 |
| Api.MockBackend.SubmitContent | src/lib/api.ts:330-355 | prepends exactly the new content under a fresh id; the other contents stay in order |
| Api.NewComment | src/lib/api.ts:357-375 | id "c"+next number, the given content id and text, `isReviewer` false |
| Api.MockBackend.AddComment | src/lib/api.ts:357-375 | appends exactly the new comment under a fresh id |
| Api.CheckQuality | src/lib/api.ts:377-398 | the score lies in 70..99 and each list has three entries |
| Api.QualityScoreReachable | src/lib/api.ts:381 | every score from 70 to 99 comes from some random value |
| Api.Proofread | src/lib/api.ts:400-419 | the corrected text is the content cut at its maximal whitespace runs, each run of two or more made one space and each single whitespace character kept, then trimmed; so it is trimmed, has no two neighbouring whitespace characters, and keeps every non-space character in order; two fixed corrections |
| Api.ProofreadIdempotent | src/lib/api.ts:404 | proofreading corrected text changes nothing |
| Api.MockBackend.FetchEvents | src/lib/api.ts:422-427 | a permutation of the stored events, newest first |
| Api.MockBackend.FetchEventById | src/lib/api.ts:429-432 | none exactly when no event has the id; otherwise a stored event with it |
| Api.NewEvent | src/lib/api.ts:434-457 | id "ev"+next number; there is a sibling event exactly when the box is ticked and a sibling name and period are given |
| Api.MockBackend.CreateEvent | src/lib/api.ts:434-457 | prepends exactly the new event under a fresh id |
| Api.MockBackend.FetchUsers | src/lib/api.ts:460-465 | a permutation of the stored users, newest first |
| Api.NewUser | src/lib/api.ts:475-482 | id "u"+(length+1), status active, password "hashed_"+password |
| Api.MockBackend.CreateUser | src/lib/api.ts:467-486 | a taken address gives `Email already exists` with users unchanged; otherwise exactly the new user is prepended, and addresses stay unique |
| Api.AddUserKeepsEmailsUnique | src/lib/api.ts:471-484 | prepending a user with an untaken address keeps addresses unique |
| Api.UserIdReused | src/lib/api.ts:498-505 | after a removal, the next new user receives the id of a user still stored |
| Api.MockBackend.BanUser | src/lib/api.ts:488-496 | only the first user with the id becomes banned; otherwise `User not found` and no change |
| Api.MockBackend.RemoveUser | src/lib/api.ts:498-505 | exactly the first user with the id is removed and the rest keep their order; otherwise `User not found` and no change |
| Api.RemoveUserKeepsEmailsUnique | src/lib/api.ts:504 | removing a user keeps addresses unique |
| Api.SendEmail | src/lib/api.ts:507-519 | always succeeds, with the fixed prefix and suffix around the count |
| Api.SendEmailCount | src/lib/api.ts:517 | the number in the message is the number of recipients |
| Api.MessagesOf | src/lib/api.ts:527 | exactly the stored messages of that chat |
| Api.UnreadOf | src/lib/api.ts:529 | at most the number of the chat's messages, and zero exactly when none of its stored messages is an unread writer message |
| Api.Summary | src/lib/api.ts:526-536 | every field as stored except `lastMessage` and `unreadCount`; the last message is a stored message of the chat, none exactly when it has none, and the count is UnreadOf; that it is the most recently stored one is fixed by WriterMessageSummary and AdminMessageSummary |
| Api.Summaries | src/lib/api.ts:526-536 | one summary per chat, in order |
| Api.AdminMessageSummary | src/lib/api.ts:526-536 | an admin message becomes the chat's last message and leaves its unread count unchanged |
| Api.OtherChatSummary | src/lib/api.ts:527 | a message to another chat leaves this chat's summary unchanged |
| Api.EmptySummary | src/lib/api.ts:526-529 | with no stored message there is no last message and the unread count is 0 |
| Api.WriterMessageSummary | src/lib/api.ts:526-529 | a writer's message becomes the chat's last message and adds one to the unread count exactly when it is unread; with the admin, other-chat and empty cases this fixes both fields for every message list |
| Api.MockBackend.FetchChats | src/lib/api.ts:522-541 | a permutation of the summaries, most recently updated first |
| Api.SortedMessagesOf | src/lib/api.ts:547-548 | the sorted messages of a chat are stored messages of that chat |
| Api.MockBackend.FetchChatMessages | src/lib/api.ts:543-549 | a permutation of the chat's messages, oldest first, each stored and of that chat |
| Api.NewMessage | src/lib/api.ts:554-563 | id "msg"+next number, sent by the admin, unread |
| Api.MockBackend.SendMessage | src/lib/api.ts:551-574 | appends exactly the new message; only the matching chat's `updatedAt` changes |
| Api.NewChat | src/lib/api.ts:591-599 | the writer's id, name and address, no last message, unread count 0 |
| Api.PrependWriter | src/lib/api.ts:601 | prepending a chat for a writer without one keeps one chat per writer, and the new chat is found first |
| Api.TouchChat | src/lib/api.ts:567-571 | changing one chat's update time keeps the chat ids and one chat per writer |
| Api.PrependChat | src/lib/api.ts:601 | a new chat for a writer without one keeps one chat per writer and becomes that writer's chat |
| Api.MockBackend.CreateChat | src/lib/api.ts:576-603 | the writer's existing chat is returned with no change; an unknown writer gives `Writer not found`; otherwise exactly one chat is prepended, and afterwards the writer's chat is the one returned |
| Api.MockBackend.UnreadCount | src/lib/api.ts:631-635 | zero exactly when every notification is read |
| Api.MockBackend.FetchNotifications | src/lib/api.ts:606-612 | the stored array itself becomes sorted newest first, as a permutation |
| Api.MockBackend.MarkNotificationAsRead | src/lib/api.ts:614-621 | only the first matching notification becomes read; no change when none matches |
| Api.MockBackend.MarkAllNotificationsAsRead | src/lib/api.ts:623-629 | every notification becomes read, nothing else changes, and the unread count is 0 |
| Pagination.GetPageNumbers | src/components/Pagination.tsx:12-47 | page 1 comes first and the last page last; numbers ascend, so none repeats; a number is shown exactly when it is first, last, a neighbour of the current page, or page 2 / the last-but-one near the ends; an ellipsis follows page 1 exactly when currentPage > 3 and precedes the tail exactly when currentPage < totalPages-2 |
| Pagination.PushTail | src/components/Pagination.tsx:34-44 | the tail pushes keep the same characterisation |
| Pagination.AscendingOrdered | src/components/Pagination.tsx:28-44 | ascending page numbers are pairwise ordered, so no number appears twice |
| Pagination.Render | src/components/Pagination.tsx:49-95 | nothing for at most one page; Previous is disabled exactly on page 1 and Next exactly on the last page |
| Workspace.FolderByIdSpec | src/routes/Workspace.tsx:66 | `find` gives none exactly when no folder has the id, else a stored folder with it |
| Workspace.FileById | src/routes/Workspace.tsx:173 | none exactly when no file has the id; otherwise a stored file with it |
| Workspace.Crumbs | src/routes/Workspace.tsx:61-76 | the path is empty exactly when the id is falsy or unknown |
| Workspace.CrumbsLinked | src/routes/Workspace.tsx:65-72 | the path ends at the current folder, and each element's parent is the previous element |
| Workspace.CrumbsFound | src/routes/Workspace.tsx:66-68 | every element is the folder found for its id |
| Workspace.CrumbsTop | src/routes/Workspace.tsx:65-71 | on an acyclic chain, the first element's parent is falsy or unknown, so the walk stopped there |
| Workspace.CrumbsFuel | src/routes/Workspace.tsx:65 | once the chain ends, a larger depth bound gives the same path |
| Workspace.CrumbsStep | src/routes/Workspace.tsx:66-70 | one loop step: the path of a found folder is its parent's path followed by the folder |
| Workspace.GetBreadcrumbs | src/routes/Workspace.tsx:61-76 | the `while`/`unshift` loop returns exactly that path |
| Workspace.Title | src/routes/Workspace.tsx:79 | "My Drive" exactly when the current folder is unknown, unnamed or named "My Drive"; otherwise the folder's name |
| Workspace.PaletteIndex | src/routes/Workspace.tsx:89 | `Math.floor(Math.random() * 5)` is a valid palette index |
| Workspace.CreateFolder | src/routes/Workspace.tsx:82-92 | appends exactly one folder with the modal's parent, the given name, a palette colour and `folder-<now>`; existing folders are unchanged |
| Workspace.CreatedFolderNotRoot | src/routes/Workspace.tsx:86 | creating keeps the root folders as they were |
| Workspace.CreatedFolderIsChild | src/routes/Workspace.tsx:86 | the new folder is among the children of the modal's parent |
| Workspace.CreatedFolderCrumbs | src/routes/Workspace.tsx:61-92 | with an unused id, the new folder's path is its parent's path plus itself |
| Workspace.RenameRequest | src/routes/Workspace.tsx:94-103 | none for an unknown folder, else an open modal for that folder holding its name |
| Workspace.ValidNameIff | src/routes/Workspace.tsx:106 | a name is accepted exactly when it is not all whitespace |
| Workspace.ConfirmRename | src/routes/Workspace.tsx:105-113 | a blank name changes nothing; otherwise only the folders with the modal's id take the trimmed name and the new time, and ids, parents and colours are kept |
| Workspace.RenameIdempotent | src/routes/Workspace.tsx:105-113 | renaming twice with the same name and time is renaming once |
| Workspace.FolderByIdRenamed | src/routes/Workspace.tsx:107-111 | looking a folder up after renaming finds the renamed version of the folder found before |
| Workspace.RenameKeepsCrumbs | src/routes/Workspace.tsx:105-113 | renaming keeps every breadcrumb path in shape, with the renamed folder's new name |
| Workspace.HasContentsIff | src/routes/Workspace.tsx:117-118 | a folder has contents exactly when it has a child folder or a file |
| Workspace.WithoutFolder | src/routes/Workspace.tsx:125 | exactly the folders with another id |
| Workspace.WithoutFile | src/routes/Workspace.tsx:186 | exactly the files with another id |
| Workspace.DeleteFolder | src/routes/Workspace.tsx:115-129 | a folder with contents is refused with the alert text and nothing changes; otherwise exactly that folder is removed, files stay, and the current folder becomes `root` exactly when it was the deleted one |
| Workspace.FolderByIdWithout | src/routes/Workspace.tsx:125 | removing one folder leaves every other lookup unchanged |
| Workspace.WithoutFolderCrumbs | src/routes/Workspace.tsx:115-129 | removing a folder that is nobody's parent keeps every other folder's path |
| Workspace.DeleteKeepsCrumbs | src/routes/Workspace.tsx:115-129 | deleting an empty folder keeps every other path |
| Workspace.DeleteFolderRequest | src/routes/Workspace.tsx:254-262 | none for an unknown folder, else an open folder-delete modal for it |
| Workspace.DeleteFileRequest | src/routes/Workspace.tsx:172-182 | none for an unknown file, else an open file-delete modal with its name |
| Workspace.ConfirmDelete | src/routes/Workspace.tsx:184-190 | for a file, exactly the files with that id go and folders stay; for a folder, it is the folder delete |
| Workspace.FileTypeOf | src/routes/Workspace.tsx:143 | the type is the text after the last dot, or the whole name when it has no dot; it is `txt` exactly when that text is empty or is itself `txt` |
| Workspace.UploadFile | src/routes/Workspace.tsx:139-148 | appends exactly one file in the current folder with that type and size |
| Workspace.UploadShown | src/routes/Workspace.tsx:139-148 | the grid of the current folder gains exactly the uploaded file at its end |
| Workspace.ShareDialogNeverShows | src/routes/Workspace.tsx:335-340 | the page gives the share dialog no file, so it shows no link whether it is open or not |
| FolderTree.ToggleFolder | src/components/FolderTree.tsx:22-32 | exactly the clicked id flips membership |
| FolderTree.ToggleFolderTwice | src/components/FolderTree.tsx:22-32 | toggling twice restores the set |
| FolderTree.RootFolders | src/components/FolderTree.tsx:170 | exactly the folders whose parent is null |
| FolderTree.ChildFolders | src/components/FolderTree.tsx:44 | exactly the folders whose parent is the id |
| FolderTree.ChildFoldersEmpty | src/components/FolderTree.tsx:47 | no children exactly when no folder names the id as parent |
| FolderTree.IconColor | src/components/FolderTree.tsx:83 | the folder's colour when it has a non-empty one, else the grey default |
| FolderTree.RenderFolder | src/components/FolderTree.tsx:43-168 | a row for the folder at its level, marked expanded, active and with a toggle exactly as the code decides |
| FolderTree.RenderFolders | src/components/FolderTree.tsx:162 | one row per folder, in order, at the given level, whenever it renders (it always renders on a ranked forest, see RankedFoldersRender) |
| FolderTree.RankedFoldersRender | src/components/FolderTree.tsx:162 | on a forest with a rank (every child ranks below its parent), sibling folders ranked below the depth bound always render, whatever is expanded |
| FolderTree.RankedFolderRenders | src/components/FolderTree.tsx:43-168 | on a ranked forest a folder ranked below the depth bound always renders |
| FolderTree.RankedTreeRenders | src/components/FolderTree.tsx:170-176 | the whole tree of a forest ranked below the depth bound renders, one row per root folder |
| FolderTree.InitialExpanded | src/components/FolderTree.tsx:18 | the expanded set starts as exactly the id `root` |
| FolderTree.RenderedChildren | src/components/FolderTree.tsx:155-162 | children appear exactly when the folder is expanded and has one, one per child in order at level + 1 |
| FolderTree.RenderTree | src/components/FolderTree.tsx:170-176 | one row per root folder at level 0 |
| FolderTree.RenderFolderFuel | src/components/FolderTree.tsx:162 | once the depth bound suffices, more of it renders the same rows |
| FolderTree.RenderFoldersFuel | src/components/FolderTree.tsx:162 | likewise for a list of sibling folders |
| FolderTree.SubtreeFuel | src/components/FolderTree.tsx:155-162 | likewise for the rows under one folder |
| FolderTree.CollapsedRenders | src/components/FolderTree.tsx:155 | a collapsed or childless folder renders without recursion |
| FolderTree.ContextMenuItems | src/components/FolderTree.tsx:191-221 | always "New Subfolder"; Rename and Delete exactly for folders other than `root` |
| FileGrid.FolderFiles | src/components/FileGrid.tsx:20 | exactly the files in the current folder |
| FileGrid.FolderFilesAppend | src/components/FileGrid.tsx:20 | the selection distributes over concatenation, so list order is kept |
| FileGrid.FolderFilesOne | src/components/FileGrid.tsx:20 | a single file is shown exactly in its own folder |
| FileGrid.EmptyFolder | src/components/FileGrid.tsx:49 | the empty state shows exactly when no file is in the folder |
| FileGrid.Shared | src/components/FileGrid.tsx:149 | the marker shows exactly when the file has a recipient list and it is not empty |
| FileGrid.FileColor | src/components/FileGrid.tsx:39-47 | pdf is red, doc and docx are blue, anything else is grey |
| Ui.ToggleMenu | src/components/FileGrid.tsx:81 | clicking the open item closes it; any other click opens that item |
| Ui.ToggleMenuTwice | src/components/FileGrid.tsx:81 | two clicks on the open item leave it open; two clicks on any other item leave no menu open |
| Users.ToggleUserSelection | src/routes/Users.tsx:82-86 | a selected id leaves the selection and any other id is appended; no other id changes |
| Users.ToggleTwice | src/routes/Users.tsx:82-86 | toggling twice restores which ids are selected |
| Users.SelectAllUsers | src/routes/Users.tsx:88-93 | every loaded user's id in list order; nothing changes while loading |
| Users.RecipientEmails | src/routes/Users.tsx:95-96 | exactly the addresses of loaded users whose id is a recipient; in list order, one per chosen user, through the two lemmas below |
| Users.RecipientEmailsAppend | src/routes/Users.tsx:96 | the addresses follow the user list: those of earlier users come first |
| Users.RecipientEmailsOne | src/routes/Users.tsx:96 | one user gives their address once when chosen, else nothing |
| Users.SelectAllThenSend | src/routes/Users.tsx:88-96 | after "select all", the mail goes to every user, in list order |
| Users.SearchUsers | src/routes/Users.tsx:107-110 | exactly the users whose lower-cased name or address contains the lower-cased query |
| Users.EmptySearchKeepsAll | src/routes/Users.tsx:107-110 | an empty query keeps every user in order |
| Users.SortUsers | src/routes/Users.tsx:111-115 | a permutation ordered by `createdAt`, descending for `desc` and ascending for `asc` |
| Users.FilteredAndSorted | src/routes/Users.tsx:105-116 | nothing while loading, else a permutation of the matches ordered by `createdAt`, ascending or descending as chosen |
| Users.ListedIff | src/routes/Users.tsx:105-116 | a user is listed exactly when loaded and matching |
| Users.PageOf | src/routes/Users.tsx:118-122 | `totalPages` is ceil(n/6) and the page is the window `[(p-1)*6, p*6)`, at most six users |
| Users.EveryUserOnAPage | src/routes/Users.tsx:118-122 | every listed user is on the page its position says |
| Users.HandleSearchChange | src/routes/Users.tsx:125-128 | the new query, back on page 1, same order |
| Users.ToggleSortOrder | src/routes/Users.tsx:130-133 | the other order, back on page 1 |
| Users.ToggleSortTwice | src/routes/Users.tsx:130-133 | two toggles restore the order |
| Events.AddTeamMember | src/routes/Events.tsx:68-73 | the trimmed input is appended and the field cleared exactly when it is non-empty and not listed; otherwise nothing changes |
| Events.AddKeepsTeamOk | src/routes/Events.tsx:68-73 | adding keeps the list free of repeats and of blank or untrimmed entries |
| Events.AddTwiceRefused | src/routes/Events.tsx:69 | the same name again, even with other surrounding spaces, is refused |
| Events.RemoveTeamMember | src/routes/Events.tsx:75-77 | every copy of the name leaves; the rest stay, in order, through the two lemmas below |
| Events.RemoveAppend | src/routes/Events.tsx:75-77 | removal keeps the order: a list in two parts is filtered part by part |
| Events.RemoveOne | src/routes/Events.tsx:75-77 | a single entry goes exactly when it is the name |
| Events.RemoveKeepsTeamOk | src/routes/Events.tsx:75-77 | removing keeps the list free of repeats and blanks |
| Events.AddThenRemove | src/routes/Events.tsx:68-77 | adding a name and removing it restores the list, in order |
| Events.ResetForm | src/routes/Events.tsx:46-57 | empty fields, an empty team and no sibling |
| Events.ResetIsInitial | src/routes/Events.tsx:46-57 | the reset form is the initial form, apart from the team-member field |
| Events.Payload | src/routes/Events.tsx:59-66 | the form fields, the team and the sibling box, with the sibling name and period always present |
| Events.CreatedSibling | src/lib/api.ts:442-448 | the stored event has a sibling exactly when the box is ticked and the sibling name is non-empty |
| NotificationDropdown.UnreadCount | src/components/NotificationDropdown.tsx:36 | 0 while loading; otherwise zero exactly when all are read |
| NotificationDropdown.MarkOneLowersCount | src/components/NotificationDropdown.tsx:36 | marking one unread notification lowers the count by exactly one |
| NotificationDropdown.BadgeLabel | src/components/NotificationDropdown.tsx:105-108 | hidden at 0, the single digit for 1 to 9, "9+" above 9 |
| NotificationDropdown.MarkAllWithBadge | src/components/NotificationDropdown.tsx:136 | the mark-all button shows exactly when the badge does |
| NotificationDropdown.TimeAgo | src/components/NotificationDropdown.tsx:74-87 | "Just now" exactly under a minute; otherwise `m`m, `h`h or `d`d ago with m, h and d the whole minutes, hours and days elapsed, in the ranges 1-59, 1-23 and 1 or more |
| NotificationDropdown.HandleNotificationClick | src/components/NotificationDropdown.tsx:89-94 | asks to mark the notification read exactly when it is unread, and always closes |
| ShareModal.TrimPieces | src/components/ShareModal.tsx:45 | each piece trimmed, comma-free |
| ShareModal.ParseEmails | src/components/ShareModal.tsx:45 | no entry is empty, untrimmed or holds a comma; at most one entry per comma plus one; its value for every input is given by ParseJoin |
| ShareModal.ParseJoin | src/components/ShareModal.tsx:45 | for any comma-free pieces joined by commas, the result is each piece trimmed, blank ones dropped, in order; trimmed non-empty addresses come back as typed |
| ShareModal.ParseExample | src/components/ShareModal.tsx:45 | `" a , ,b "` gives `["a", "b"]` |
| ShareModal.HandleClose | src/components/ShareModal.tsx:50-56 | emails and message empty, theme professional, link not copied |
| ShareModal.HandleSubmit | src/components/ShareModal.tsx:43-48 | one call with the parsed list, the theme and the message, then the reset form |
| ShareModal.SubmitThenSubmit | src/components/ShareModal.tsx:43-56 | no blank address is sent, and a second submit sends nobody |
| ShareModal.ShareLink | src/components/ShareModal.tsx:106 | the fixed base followed by the file's id |
| ShareModal.ShareLinkInjective | src/components/ShareModal.tsx:106 | different files get different links |
| ShareModal.ShownLink | src/components/ShareModal.tsx:65-69 | nothing without a file or while closed; otherwise the file's link |
| Chats.HandleSendMessage | src/routes/Chats.tsx:59-64 | a message is sent exactly when the input is not blank and a chat is selected, and it is the untrimmed input |
| Chats.MessageSent | src/routes/Chats.tsx:44 | the input is cleared, nothing else changes |
| Chats.NothingAfterSend | src/routes/Chats.tsx:44-64 | after a send, submitting again sends nothing |
| Chats.HandleStartChat | src/routes/Chats.tsx:66-74 | the writer's first loaded chat is selected and the picker closes; without one, createChat is asked for and the view is unchanged |
| Chats.ChatCreated | src/routes/Chats.tsx:50-54 | the new chat is selected, the picker closes and the search clears |
| Chats.StartAgainSelects | src/routes/Chats.tsx:50-74 | once the new chat is loaded, starting again with that writer selects it and creates nothing |
| Chats.FilteredWriters | src/routes/Chats.tsx:76-79 | exactly the writers whose lower-cased name or address contains the lower-cased search |
| Chats.CreatedShowsAll | src/routes/Chats.tsx:76-79 | after creation every writer is listed again |
| ContentList.StatusArgument | src/routes/ContentList.tsx:20-24 | no status exactly for "all"; otherwise the chosen status |
| ContentList.Query | src/routes/ContentList.tsx:18-25 | at most six stored items, each of the chosen status |
| ContentList.SelectFilter | src/routes/ContentList.tsx:52-55 | the chosen filter, back on page 1 |
| ContentList.Previous | src/routes/ContentList.tsx:94 | never below 1; one page back otherwise |
| ContentList.Next | src/routes/ContentList.tsx:108 | never above totalPages; one page on otherwise |
| ContentList.ButtonsStayInRange | src/routes/ContentList.tsx:94-108 | from a page in range both buttons stay in range and undo each other away from the ends |
| ContentList.PageControls | src/routes/ContentList.tsx:89-115 | shown only for more than one page; previous disabled exactly on page 1, next exactly on the last |
| ContentList.DisabledMeansStuck | src/routes/ContentList.tsx:94-109 | a disabled button is one that would not move the page |
| Dashboard.Loaded | src/routes/Dashboard.tsx:18-27 | the first (at most) 100 stored contents, in order |
| Dashboard.ComputeStats | src/routes/Dashboard.tsx:28-33 | total is the number loaded and each status count is at most it |
| Dashboard.StatsPartition | src/routes/Dashboard.tsx:29-32 | approved + under review + rejected + submitted = total |
| Dashboard.CountZero | src/routes/Dashboard.tsx:30-32 | a count is zero exactly when no item has that status |
| Dashboard.Recent | src/routes/Dashboard.tsx:66 | the first min(5, n) loaded items, in order |
| Dashboard.RecentAreStored | src/routes/Dashboard.tsx:66 | recent items are stored contents, and at most 100 are counted |
| CreateFolderModal.CreateFolderDialog.constructor | src/components/CreateFolderModal.tsx:15-16 | the dialog starts with an empty name and no error |
| CreateFolderModal.CreateFolderDialog.Open | src/routes/Workspace.tsx:252 | the dialog is open |
| CreateFolderModal.CreateFolderDialog.Submit | src/components/CreateFolderModal.tsx:18-28 | a blank name sets "Folder name is required" and confirms nothing; otherwise the trimmed name is confirmed, both fields clear and the dialog closes |
| CreateFolderModal.CreateFolderDialog.Edit | src/components/CreateFolderModal.tsx:79-82 | typing replaces the name and clears the error |
| CreateFolderModal.CreateFolderDialog.Close | src/components/CreateFolderModal.tsx:30-34 | both fields clear and the dialog closes |
| CreateFolderModal.RetryAfterError | src/components/CreateFolderModal.tsx:18-28 | after the error, typing a name and submitting confirms exactly that name, trimmed |
| RenameFolderModal.DisabledIffBlank | src/components/RenameFolderModal.tsx:79 | Rename is disabled exactly when the name is all whitespace |
| RenameFolderModal.RenameFolderDialog.constructor | src/components/RenameFolderModal.tsx:15 | the field starts as the name passed at mount |
| RenameFolderModal.RenameFolderDialog.Rerender | src/components/RenameFolderModal.tsx:15 | new props leave the field's text alone |
| RenameFolderModal.RenameFolderDialog.Edit | src/components/RenameFolderModal.tsx:62 | typing replaces the name |
| RenameFolderModal.RenameFolderDialog.Submit | src/components/RenameFolderModal.tsx:17-23 | a non-blank name is confirmed trimmed and the dialog closes; a blank one does nothing |
| RenameFolderModal.RenameFolderDialog.Rendered | src/components/RenameFolderModal.tsx:25 | the dialog draws something exactly while it is open |
| RenameFolderModal.WorkspaceRenameOpensEmpty | src/routes/Workspace.tsx:37-41 | mounted closed with an empty name and then opened for any folder, the field is empty and a submit without typing renames nothing |
| CommentBox.HandleSubmit | src/components/CommentBox.tsx:33-38 | posts exactly when the text is not blank, and posts the untrimmed text |
| CommentBox.Posted | src/components/CommentBox.tsx:25 | the input is cleared |
| CommentBox.SendDisabled | src/components/CommentBox.tsx:88 | disabled exactly for a blank text or a pending post |
| CommentBox.ShowEmptyState | src/components/CommentBox.tsx:71 | the "no comments yet" line shows exactly when the list is empty |
| CommentBox.ButtonMatchesGuard | src/components/CommentBox.tsx:88 | with nothing pending the button is enabled exactly when a submit would post, and nothing is posted twice |
| Submit.CanSubmit | src/routes/Submit.tsx:65 | exactly when neither the title nor the text is all whitespace |
| Submit.SubmitDisabled | src/routes/Submit.tsx:228 | submit is disabled exactly when the title or the text is blank, or a submit is pending |
| Submit.QualityDisabled | src/routes/Submit.tsx:141 | the quality button is disabled exactly for the empty text or a pending check, so never for a submittable text with no check pending |
| Submit.ProofreadDisabled | src/routes/Submit.tsx:154 | the proofread button is disabled exactly for the empty text or a pending proofread, so never for a submittable text with none pending |
| Submit.SpacesEnableHelpersOnly | src/routes/Submit.tsx:141-228 | a text of one space enables the quality and proofread buttons but not submit |
| Submit.SubmitArguments | src/routes/Submit.tsx:31 | the type, title and text are passed unchanged |
| Submit.AfterProofread | src/routes/Submit.tsx:57 | the text becomes the corrected text |
| Submit.ProofreadKeepsSubmittable | src/routes/Submit.tsx:57 | after proofreading the text is the old one with each run of two or more whitespace characters made one space, single ones kept, and the ends trimmed; it has no whitespace runs or outer spaces, keeps its other characters, and can be submitted exactly when it could before |
| StatusBadge.GetVariant | src/components/StatusBadge.tsx:10-19 | Approved is success, Rejected destructive, Under Review warning, Submitted secondary, each in both directions |
| StatusBadge.VariantDistinguishes | src/components/StatusBadge.tsx:10-19 | different statuses give different badges |
| StorageBar.ColorOf | src/components/StorageBar.tsx:17-21 | red from 90, yellow from 70 to below 90, green below 70 |
| StorageBar.ColorMonotone | src/components/StorageBar.tsx:17-21 | a fuller quota never shows a calmer colour |
| StorageBar.BarWidth | src/components/StorageBar.tsx:48 | min(percentage, 100) |
| StorageBar.Warning | src/components/StorageBar.tsx:52-54 | no warning below 80; "Storage almost full!" exactly from 90; "Storage running low" from 80 to below 90 |
| StorageBar.WarningMatchesColor | src/components/StorageBar.tsx:52-54 | "almost full" exactly on red, and no warning on green |
| Toast.ToastIdInjective | src/hooks/useToast.ts:16 | different counter values give different ids |
| Toast.Toaster.constructor | src/hooks/useToast.ts:10-13 | the counter starts at 0 with no toasts |
| Toast.Toaster.Show | src/hooks/useToast.ts:15-19 | the id is "toast-" + the counter before it is incremented, is not on screen, the variant defaults to `default`, and the toast is appended |
| Toast.Toaster.Dismiss | src/hooks/useToast.ts:21-23 | exactly the toast with that id leaves; ids stay distinct |
| Toast.Dismissed | src/hooks/useToast.ts:22 | exactly the toasts with another id remain, in order, through the two lemmas below |
| Toast.DismissedAppend | src/hooks/useToast.ts:22 | dismissing keeps the order: a list in two parts is dismissed part by part |
| Toast.DismissedOne | src/hooks/useToast.ts:22 | a single toast goes exactly when it has the id |
| Toast.DismissedDistinct | src/hooks/useToast.ts:22 | dismissing keeps ids distinct |
| Toast.ShowThenDismiss | src/hooks/useToast.ts:19-23 | dismissing a just-shown toast restores the list before it, in order |
| Js.TrimNonSpaces | src/lib/api.ts:404 | trimming keeps every non-space character in order |
| Js.TrimIdempotent | src/components/CreateFolderModal.tsx:20 | trimming twice is trimming once |
| Js.ToLower | src/routes/Users.tsx:108 | same length, every ASCII capital folded, no capital left |
| Js.IndexOf | src/components/ShareModal.tsx:45 | the first position of the character, or the length when it is absent (where JavaScript gives -1) |
| Js.Filter | src/components/FileGrid.tsx:20 | exactly the elements that pass, never more of any element than the input has |
| Js.FindIndex | src/lib/api.ts:501 | the first index that passes, or -1 exactly when none does |
| Js.Find | src/routes/Workspace.tsx:66 | the element at `findIndex`, or none exactly when nothing passes |
| Js.CeilDiv | src/lib/api.ts:316 | `Math.ceil(n / d)` for natural numbers: the least r with n <= r*d |
| Js.Slice | src/lib/api.ts:307-309 | `slice` with clamped bounds, at most end - start elements |
| Js.NatToString | src/lib/api.ts:338 | a non-empty run of digits with no leading zero |
| Js.ParseNatToString | src/lib/api.ts:338 | reading the digits back gives the number |
| Js.Trim | src/components/CreateFolderModal.tsx:20 | the result is the input minus leading and trailing whitespace, starts and ends with a non-space, and is empty exactly for a blank input |
| Js.Split | src/components/ShareModal.tsx:45 | pieces hold no separator and join back to the input |
| Js.SplitJoin | src/components/ShareModal.tsx:45 | splitting a join gives back the pieces |
| Js.LastPiece | src/routes/Workspace.tsx:143 | the maximal suffix without the separator |
| Js.IncludesAt | src/routes/Users.tsx:108 | `includes` holds exactly when the substring occurs at some position |
| Js.CollapseSpacesShape | src/lib/api.ts:404 | no two neighbouring whitespace characters remain, the result starts with whitespace exactly when the text does, is empty only for the empty text, and keeps the non-space characters in order |
| Js.CollapseSpacesByRuns | src/lib/api.ts:404 | the text between the maximal whitespace runs is kept, a run of two or more becomes one space, a single whitespace character is kept; the result splits into the same pieces |
| Js.CollapseSpacesExample | src/lib/api.ts:404 | two spaces between letters become one space; a lone tab between letters stays a tab |
| Js.CollapseSpacesIdentity | src/lib/api.ts:404 | a text with no two neighbouring whitespace characters is left alone |
| Js.SplitSpaces | src/lib/api.ts:348 | at least one piece, no piece holds whitespace, interior pieces are non-empty, and a text starting with a non-space has a non-empty first piece |
| Js.SpaceRuns | src/lib/api.ts:348 | the cut-out runs are non-empty whitespace, one fewer than the pieces |
| Js.SplitSpacesCuts | src/lib/api.ts:348 | the pieces with the runs between them rebuild the text |
| Js.CutAtRunsUnique | src/lib/api.ts:348 | any way of writing the text as whitespace-free pieces between non-empty whitespace runs, with only the end pieces empty, is the one `split(/\s+/)` returns |
| Js.SplitSpacesEnds | src/lib/api.ts:348 | the first piece is empty exactly when the text is empty or starts with whitespace, the last exactly when it is empty or ends with whitespace |
| Js.SplitSpacesJoin | src/lib/api.ts:348 | splitting words joined by single spaces gives back the words |
| Js.SplitLength | src/lib/api.ts:349 | a split yields one more piece than there are separators |
| Sorting.SortByKey | src/lib/api.ts:462 | the result is sorted by the key and is a permutation of the input |
| Sorting.SortStable | src/lib/api.ts:462 | elements with equal keys keep their input order |

## Left out

- Network latency, Promises and the order of react-query mutations and cache invalidations are left out. Every API call is one synchronous step, and a component's request to the backend is the value its handler returns.
- `Date.now()`, `new Date().toISOString()` and date formatting are left out. Times are integers passed in as `now`, and `getTimeAgo` takes the difference between now and the notification's time. Invalid dates (NaN) are not modelled.
- `Math.random()` is a parameter, both in `checkQualityAI` and in a new folder's colour. Its comment promises 70-100, but the formula gives 70-99, and the model proves 70-99.
- `formatBytes` in the file grid and the storage bar uses floating-point logarithms and rounding, so it is not part of this model. The fractional indentation of tree rows is not part of it either.
- Api.MockBackend.FetchContents has no default arguments: the callers' `page = 1` and `pageSize = 10` (src/lib/api.ts:294-296) are not modelled, and callers pass both. It requires pageSize > 0, because with 0 the program divides by zero (`totalPages` becomes Infinity or NaN) and that result is not modelled.
- Api.MockBackend.FetchNotifications returns the stored array itself, so a later mark-as-read also changes the objects the caller holds. The model returns a value, and this aliasing is not modelled.
- Browser side effects are left out: file picking, `alert`, the clipboard, `console.log`, scrolling, outside-click listeners and window-width checks. Only their data effects are modelled.
- Rendering, routing, animation and styling are not modelled. This covers `RichTextEditor`, `Layout`, `App`, `ContentCard`, `ContentDetail`, `LoadingSkeleton`, `Settings` and `DeleteConfirmModal`.
- Js.ToLower folds only ASCII letters. `toLowerCase` also folds other scripts.
- Workspace.GetBreadcrumbs requires an acyclic parent chain, through a ghost depth bound. The program has no cycle guard and loops forever on a cycle.
- FolderTree.RenderFolder takes a depth bound and returns None when it is exhausted. The program recurses without a guard and never ends on a cycle of expanded folders. Acyclicity is stated as a rank (a child ranks below its parent), and FolderTree.RankedTreeRenders shows that a bound above every rank always renders. The model does not prove that every acyclic forest has such a rank.
- FileGrid.FileColor treats every type other than pdf, doc and docx as grey. In JavaScript, an inherited key such as `constructor` would also be found by the object lookup.
- Api.UserIdReused is modelled as written: new user ids are `u<length+1>`, so after a removal an id can repeat. User-id uniqueness is therefore not claimed.
- The workspace folders, files, current folder and storage quota come from atoms that the store does not define. They are inputs here.
- The workspace page mounts the share dialog without its `file` property (src/routes/Workspace.tsx:335-340). The dialog therefore returns nothing, open or not, and its link and form never show. The model keeps this: Workspace.ShareDialogNeverShows states it, and ShareModal.ShownLink models the dialog as it would work with a file.
- Workspace.RenameRequest stores the name under `folderName`, while the state's declared type spells it `foldername`. The model follows the code's behaviour: the name is kept and passed on.
- The workspace page passes the folder's name as `currentName` to the rename dialog, but the dialog reads it only at mount. The page mounts the dialog once, closed and with an empty name (src/routes/Workspace.tsx:37-41, 328-333), so the rename field always opens empty and never shows the folder's current name. The model keeps this behaviour; RenameFolderModal.WorkspaceRenameOpensEmpty states it.
- Toast.Toaster joins the module-level counter with the toast list of one hook instance. Each real caller of the hook has its own list, but all share the counter. The dismissal timer is the explicit Dismiss call.
- Users: the user table's create, ban, remove and e-mail mutations are modelled in Api. Their toasts and dialog flags are not.
- The events page sends the sibling name and period even when the box is unchecked. The backend ignores them unless the box is ticked, and the model shows exactly that.
