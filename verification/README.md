# File-entry display rules of a browser desktop

This project models the decision logic a simulated desktop uses to show a file
or folder in its file explorer. The logic lives in
`components/system/Files/FileEntry/functions.ts` and decides three things:

- which viewer process opens an extension: the static extension table first,
  otherwise the text editor, photo viewer or video player, in that order;
- which icon an entry shows: the table icon, else the owning process's icon,
  else the unknown-file icon;
- which display records (`{icon, pid, url}`) a file entry's callback receives.
  Folders can carry a `desktop.ini` icon. `.url` shortcut files point at
  another file. Images, videos and `.mp3` files are first shown with a
  placeholder icon and then with a preview.

The model also covers the predicate that hides system entries from a listing
and the greedy character-by-character wrapping that counts how many lines a
label takes.

Modules:

- `Environment`: everything the rules read but do not define. This is the
  extension table, the process directory (reduced to process icons), the
  editor, image and video extension sets, the system file and path sets, the
  folder and unknown icons, the shortcut extension, and `path.join` and
  `path.extname` as total functions. It also holds the `FileInfo` record and
  the JavaScript `||` on strings (`Or`).
- `Resolution`: the synchronous rules `DefaultFileViewer`,
  `ProcessByFileExtension`, `IconByFileExtension`, `ShortcutInfo`,
  `IconFromIni` and `FilterSystemFiles`, together with a reference
  "first matching rule" reading of the viewer priority.
- `Emission`: the records emitted by `getInfoWithoutExtension` and
  `getInfoWithExtension`, as a sequence in callback order. A `Disk` fixes the
  outcome of every read, decode and parse in advance.
- `LineWrap`: `getLineCount` as a loop, plus the fold it computes and that
  fold's invariants.

Conventions:

- JavaScript `undefined` for a missing string is the empty string. Almost
  every consumer in the file tests such values with `||` or `!`, where the
  two behave alike. The exception is the shortcut relay, which compares a
  target icon with `!==` against a shortcut icon that may be `undefined`.
  There the comparison runs only after the target icon has been tested
  non-empty, and a non-empty string differs from both `undefined` and "",
  so the outcome is the same.
- A `TypeError` thrown while destructuring or indexing a missing table row
  means no further record is emitted.
- A promise that never settles is a refinement that never arrives.

## Model

| member | source | states |
|---|---|---|
| Resolution.DefaultFileViewer | components/system/Files/FileEntry/functions.ts:59-65 | The viewer is "MonacoEditor" exactly for editor extensions. It is "Photos" exactly for image extensions the editor does not claim, and "VideoPlayer" exactly for video extensions claimed by neither. It is "" exactly when no set claims the extension. |
| Resolution.FirstMatch | components/system/Files/FileEntry/functions.ts:59-65 | Reference meaning of a priority list: the result is the process of the first rule whose set holds the extension, or "" when no rule does. The result is always "" or some rule's process. |
| Resolution.DefaultViewerIsFirstMatch | components/system/Files/FileEntry/functions.ts:59-65 | The default viewer equals the first match of the priority list editor, then photos, then video. |
| Resolution.PreferredProcess | components/system/Files/FileEntry/functions.ts:80-85 | A table row's process is the head of its process list, or "" when the list is empty. It is always "" or a member of that list. |
| Resolution.ProcessByFileExtension | components/system/Files/FileEntry/functions.ts:79-86 | For a listed extension, the process is the first entry of the row's list ("" for an empty list), so it is one of that row's processes. For an unlisted extension, the process is one of the three default viewers or "", and it is the editor exactly for editor extensions. |
| Resolution.ListedProcessIgnoresViewers | components/system/Files/FileEntry/functions.ts:79-86 | For a listed extension the default viewer is never consulted: two environments with the same table give the same process, whatever their viewer sets are. |
| Resolution.UnlistedProcessIsDefaultViewer | components/system/Files/FileEntry/functions.ts:79-86 | For an unlisted extension, the process is the first match of the viewer priority list. |
| Resolution.IconByFileExtension | components/system/Files/FileEntry/functions.ts:67-77 | A non-empty table icon `n` gives exactly `/System/Icons/n.png`. The result is never empty when the unknown-file icon is non-empty. The result is always the unknown-file icon, some process's icon, or the icon path of some table row. Without a table icon, the result is the icon of the extension's process, or of its default viewer when that process is "". When that process has no icon, the result is the unknown-file icon. |
| Resolution.UnclaimedExtensionShowsUnknownIcon | components/system/Files/FileEntry/functions.ts:67-77 | An extension that neither the table nor any viewer set claims shows exactly the unknown-file icon, provided the process directory has no entry named "". |
| Resolution.IconFollowsProcess | components/system/Files/FileEntry/functions.ts:67-86 | Without a table icon, an extension whose process resolves to a name shows that process's icon. If that process has no icon, it shows the unknown-file icon. |
| Resolution.IconAndProcessDivergeOnEmptyRow | components/system/Files/FileEntry/functions.ts:67-86 | A table row with neither icon nor process resolves to process "". Its icon still comes from the default viewer, because the icon rule falls back through `defaultProcess \|\| getDefaultFileViewer(extension)`. |
| Resolution.ShortcutInfo | components/system/Files/FileEntry/functions.ts:88-98 | Without an `[InternetShortcut]` section there is no record. Otherwise `pid` and `url` are the section's `BaseURL` and `URL` ("" when missing). The icon is the section's `IconFile`, replaced by the process's icon only when `IconFile` is empty and `pid` is non-empty. |
| Resolution.ShortcutInfoFrame | components/system/Files/FileEntry/functions.ts:88-98 | A shortcut's record depends only on the `BaseURL`, `IconFile` and `URL` keys of its section. Its pid and url never depend on the process directory. Its icon depends on the directory only when `IconFile` is empty and `BaseURL` is not. |
| Resolution.ShortcutIconBorrowedOnlyWhenMissing | components/system/Files/FileEntry/functions.ts:88-98 | The shortcut's icon differs from its own `IconFile` only when `IconFile` is empty and `pid` names the process whose icon is used. |
| Resolution.IconFromIni | components/system/Files/FileEntry/functions.ts:40-57 | A folder icon is settled on exactly when `desktop.ini` was read, has a `[ShellClassInfo]` section, and that section has a non-empty `IconFile`. The icon is then that `IconFile`. |
| Resolution.IconFromIniReadsOnlyIconFile | components/system/Files/FileEntry/functions.ts:48-53 | Two successfully read `desktop.ini` documents settle on the same folder icon when they agree on `[ShellClassInfo] IconFile`, or both lack the section. All other sections and keys are irrelevant. |
| Resolution.FilterSystemFiles | components/system/Files/FileEntry/functions.ts:210-213 | An entry is hidden exactly when its bare name is a system file or its joined path is a system path. |
| Resolution.VisibleEntries | components/system/Files/FileEntry/functions.ts:210-213 | Applied to a listing, the filter keeps exactly the entries the predicate admits and never adds any. |
| Resolution.VisibleEntriesAppend | components/system/Files/FileEntry/functions.ts:210-213 | Filtering keeps listing order: filtering two consecutive parts of a listing and joining the results is filtering the whole listing. |
| Resolution.VisibleEntriesSingle | components/system/Files/FileEntry/functions.ts:210-213 | A single entry is kept exactly when the predicate admits it. |
| Emission.InfoWithoutExtension | components/system/Files/FileEntry/functions.ts:100-115 | A folder first emits the folder icon with pid "FileExplorer" and its own path. It emits a second record with the same pid and url if and only if `desktop.ini` was read and names a non-empty `[ShellClassInfo] IconFile`, and that record's icon is the `IconFile`. Any other entry emits exactly one record: unknown icon, empty pid, empty url. |
| Emission.ExtensionRecord | components/system/Files/FileEntry/functions.ts:123-128 | A branch record carries the extension's process and the file's path. Its icon is the given icon when that is non-empty, otherwise the extension's icon. |
| Emission.ExtensionEmissions | components/system/Files/FileEntry/functions.ts:153-207 | Every record carries the extension's process and the file's path, and there are at most two records. An image first shows the photo icon and gets a second record if and only if the image was read. A video first shows the video player's icon and gets a second record if and only if a frame was captured. An `.mp3` first shows the table's `.mp3` icon and gets a second record if and only if a cover was found. The second record is exactly the branch record that carries the image's data URL, the frame's object URL or the cover's data URL, falling back to the extension icon when that is empty. A missing `VideoPlayer` or `.mp3` table row means no record at all. Any other extension emits exactly its table record. |
| Emission.BranchOf | components/system/Files/FileEntry/functions.ts:153-207 | The branch is tested in the source's order. Image extensions come first. Video extensions that are not images come next. `.mp3` applies only when the extension is neither an image nor a video. |
| Emission.Relay | components/system/Files/FileEntry/functions.ts:145-149 | Records relayed from a shortcut's target keep the shortcut's pid and url. They carry only icons that are non-empty and differ from the shortcut's icon, and every such icon of the target is relayed. |
| Emission.RelayAppend | components/system/Files/FileEntry/functions.ts:145-149 | Relaying keeps the target's order: relaying two consecutive runs of records and joining the results is relaying them all. The last relayed record is therefore the one the entry ends up showing. |
| Emission.RelaySingle | components/system/Files/FileEntry/functions.ts:145-149 | One target record is relayed exactly when its icon is non-empty and differs from the shortcut's icon. It is then relabelled with the shortcut's pid and url. |
| Emission.ShortcutEmissions | components/system/Files/FileEntry/functions.ts:130-152 | An unreadable shortcut emits exactly the plain table record. A shortcut without an `[InternetShortcut]` section emits nothing. Otherwise the first record is the shortcut's own; every later record keeps its pid and url and carries a new, non-empty icon. A media target's records are exactly the target lookup's records, in order, passed through `Relay`. A non-media target adds nothing, and there are at most three records. |
| Emission.InfoWithExtension | components/system/Files/FileEntry/functions.ts:117-208 | A file with the shortcut extension emits exactly the shortcut records. Any other file emits exactly its extension records, and a file with a non-media extension emits exactly its one table record. Every record after the first changes only the icon: pid and url stay those of the first record. A non-shortcut file emits at most two records, and a shortcut file at most three. |
| Emission.NestedLookupIsPlain | components/system/Files/FileEntry/functions.ts:140-149 | The lookup a shortcut makes for its media target never re-enters the shortcut branch. It equals the plain extension lookup. |
| Emission.PlaceholderComesFirst | components/system/Files/FileEntry/functions.ts:153-207 | With the `.mp3` row and the `VideoPlayer` process present, every non-shortcut file first emits a record with its process, its path and the branch placeholder icon. The placeholder is the photo icon, the video player icon, the `.mp3` icon, or, for other files, the extension icon. |
| Emission.ShortcutToImageRelaysPreview | components/system/Files/FileEntry/functions.ts:130-157 | For a shortcut to an image whose own icon is not the photo icon, the shortcut emits its own record, then the photo placeholder under its own pid and url. When the shortcut's icon is the photo icon, the relay drops that placeholder, because it passes only icons that differ from the shortcut's; this case is not covered by the lemma. It emits a third record if and only if the image was read and its icon is non-empty and new. That record carries the image's data URL, or the extension icon if the URL is empty, under the shortcut's pid and url. |
| LineWrap.ConcatPlace | components/system/Files/FileEntry/functions.ts:231-240 | Placing one character, whether it joins the current line or starts a new one, appends exactly that character to the joined text. |
| LineWrap.WrapConcat | components/system/Files/FileEntry/functions.ts:226-241 | The wrapped lines join back to exactly the input text. |
| LineWrap.PlaceKeepsShape | components/system/Files/FileEntry/functions.ts:231-240 | Placing a character preserves the line shape and the forced-break property, and adds at most one line. |
| LineWrap.WrapShape | components/system/Files/FileEntry/functions.ts:226-241 | Each line has one of three shapes: the initial empty line, a line that fits, or a lone character that overflowed. Every line after the first is non-empty. Every break is forced: the next line's first character did not fit after the previous line. There are at most one more lines than characters. |
| LineWrap.EmptyFirstLineIffFirstCharOverflows | components/system/Files/FileEntry/functions.ts:226-240 | For non-empty text that is wrapped, the first line stays empty if and only if the first character does not fit on its own. The empty line is then followed by at least one more line, and it is counted too. |
| LineWrap.SingleLineExactlyWhenFits | components/system/Files/FileEntry/functions.ts:226-243 | The count is 1 if and only if the text fits within the width or is empty. |
| LineWrap.LineCount | components/system/Files/FileEntry/functions.ts:215-244 | The loop returns the number of lines of the greedy wrap. The count lies between 1 and one more than the number of code points, and it is 1 exactly when the text fits or is empty. |

## Left out

- File reads, promise ordering and callbacks are out. Each read, decode or
  parse is an outcome fixed by `Disk`. Records are listed in the order one
  entry's callbacks fire, and interleaving with other entries is not modelled.
- `ini.parse` is out: the parsed document is an input of string-valued
  sections. Its conversion of `true`/`false` values to booleans and of `key[]`
  keys to arrays is not modelled.
- `bufferToUrl`, video frame capture (the `<video>` element, canvas and
  `toBlob`), `URL.createObjectURL` and `music-metadata-browser` are out.
  Their results are the opaque preview strings of `Disk`, or their absence.
- Canvas text measurement is floating point and depends on the font. It is an
  arbitrary `string -> nat` width, and `maxWidth` is an integer.
- `path.join`, `path.extname` and the static tables are not part of this
  model. They are fields of `Env`, so every property holds for any choice of
  them.
- `Emission.InfoWithExtension` and `Emission.ShortcutEmissions` require that
  the shortcut extension is not itself an image, video or `.mp3` extension,
  which holds for the shipped constants. Otherwise a shortcut's nested lookup
  could recurse through further shortcut files without bound.
- JavaScript's `in` also finds `Object.prototype` properties, such as
  `"constructor"`, as table keys. The model looks keys up only in the table.
  Real extensions start with a dot, so they cannot collide.
- A missing process icon in `getShortcutInfo` is `undefined` in the source and
  "" here.
- An `.mp3` table row without an icon would render as
  `/System/Icons/undefined.png`; here it renders as `/System/Icons/.png`.
- `Resolution.ProcessByFileExtension` spells out only the editor case for
  unlisted extensions in its own contract. The full priority order is stated
  by `Resolution.UnlistedProcessIsDefaultViewer` and
  `Resolution.DefaultFileViewer`.
- Surrogate halves that `[...text]` would yield for ill-formed UTF-16 are not
  modelled: the text is a sequence of Unicode scalar values.
