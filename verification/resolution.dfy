/**
 The synchronous decision rules of a file entry: which viewer process owns an
 extension, which icon it shows, what a shortcut file points at, which folder
 icon a `desktop.ini` asks for, and which directory entries are hidden.
 */
module Resolution {
  import opened Environment

  // ---------------------------------------------------------------------------
  // Default viewer

  /** The viewer that opens an extension the table does not list: the text
      editor first, then the photo viewer, then the video player, else none. */
  function DefaultFileViewer(env: Env, extension: string): (r: string)
    ensures r == "MonacoEditor" <==> extension in env.monacoExtensions
    ensures r == "Photos" <==>
      extension !in env.monacoExtensions && extension in env.imageExtensions
    ensures r == "VideoPlayer" <==>
      && extension !in env.monacoExtensions
      && extension !in env.imageExtensions
      && extension in env.videoExtensions
    ensures r == "" <==>
      && extension !in env.monacoExtensions
      && extension !in env.imageExtensions
      && extension !in env.videoExtensions
  {
    if extension in env.monacoExtensions then "MonacoEditor"
    else if extension in env.imageExtensions then "Photos"
    else if extension in env.videoExtensions then "VideoPlayer"
    else ""
  }

  /** A viewer claims the extensions of one set. */
  datatype ViewerRule = ViewerRule(extensions: set<string>, process: string)

  /** Reference reading of a priority list: the process of the first rule
      whose set holds the extension, or "" when none does. */
  function FirstMatch(rules: seq<ViewerRule>, extension: string): (r: string)
    ensures r == "" || exists i :: 0 <= i < |rules| && rules[i].process == r
    ensures (forall i :: 0 <= i < |rules| ==> extension !in rules[i].extensions) ==> r == ""
    ensures forall i :: (0 <= i < |rules| && extension in rules[i].extensions &&
      (forall j :: 0 <= j < i ==> extension !in rules[j].extensions)) ==> r == rules[i].process
  {
    if rules == [] then ""
    else if extension in rules[0].extensions then rules[0].process
    else FirstMatch(rules[1..], extension)
  }

  /** The viewer priority the desktop uses for unlisted extensions. */
  function ViewerPriority(env: Env): seq<ViewerRule>
  {
    [ ViewerRule(env.monacoExtensions, "MonacoEditor"),
      ViewerRule(env.imageExtensions, "Photos"),
      ViewerRule(env.videoExtensions, "VideoPlayer") ]
  }

  /** The default viewer is the first match of the priority list. */
  lemma DefaultViewerIsFirstMatch(env: Env, extension: string)
    ensures DefaultFileViewer(env, extension) == FirstMatch(ViewerPriority(env), extension)
  {
    var rules := ViewerPriority(env);
    if extension !in env.monacoExtensions {
      assert rules[1..] == [rules[1], rules[2]];
      if extension !in env.imageExtensions {
        assert rules[1..][1..] == [rules[2]];
      }
    }
  }

  // ---------------------------------------------------------------------------
  // Process and icon of an extension

  /** The preferred process of a table row, "" when its list is empty. */
  function PreferredProcess(entry: ExtensionEntry): (r: string)
    ensures r == "" || r in entry.process
    ensures |entry.process| > 0 ==> r == entry.process[0]
  {
    if |entry.process| > 0 then entry.process[0] else ""
  }

  /** The process that opens files of an extension. */
  function ProcessByFileExtension(env: Env, extension: string): (r: string)
    ensures extension in env.extensions ==>
      r == "" || r in env.extensions[extension].process
    ensures extension in env.extensions && |env.extensions[extension].process| > 0 ==>
      r == env.extensions[extension].process[0]
    ensures extension in env.extensions && env.extensions[extension].process == [] ==> r == ""
    ensures extension !in env.extensions ==>
      r in {"MonacoEditor", "Photos", "VideoPlayer", ""}
    ensures extension !in env.extensions ==>
      (r == "MonacoEditor" <==> extension in env.monacoExtensions)
  {
    if extension in env.extensions then PreferredProcess(env.extensions[extension])
    else DefaultFileViewer(env, extension)
  }

  /** The icon of an extension: the table's icon, else the icon of the process
      that would open it, else the unknown-file icon. */
  function IconByFileExtension(env: Env, extension: string): (r: string)
    ensures extension in env.extensions && env.extensions[extension].icon != "" ==>
      r == IconPath(env.extensions[extension].icon)
    ensures env.unknownIcon != "" ==> r != ""
    ensures r == env.unknownIcon || r in env.processIcons.Values ||
      exists e :: e in env.extensions && r == IconPath(env.extensions[e].icon)
    ensures extension !in env.extensions || env.extensions[extension].icon == "" ==>
      r == Or(ProcessIcon(env, Or(ProcessByFileExtension(env, extension), DefaultFileViewer(env, extension))),
              env.unknownIcon)
  {
    var entry := if extension in env.extensions then env.extensions[extension]
                 else ExtensionEntry("", []);
    if entry.icon != "" then IconPath(entry.icon)
    else
      var owner := Or(PreferredProcess(entry), DefaultFileViewer(env, extension));
      Or(ProcessIcon(env, owner), env.unknownIcon)
  }

  /** An extension that neither the table nor any viewer claims shows the
      unknown-file icon, unless the process directory has an entry for "". */
  lemma UnclaimedExtensionShowsUnknownIcon(env: Env, extension: string)
    requires extension !in env.extensions
    requires DefaultFileViewer(env, extension) == ""
    requires "" !in env.processIcons
    ensures IconByFileExtension(env, extension) == env.unknownIcon
  {
  }

  /** Without a table icon, an extension shows the icon of the process that
      opens it whenever that process is known. */
  lemma IconFollowsProcess(env: Env, extension: string)
    requires extension !in env.extensions || env.extensions[extension].icon == ""
    requires ProcessByFileExtension(env, extension) != ""
    ensures IconByFileExtension(env, extension) ==
      Or(ProcessIcon(env, ProcessByFileExtension(env, extension)), env.unknownIcon)
  {
  }

  /** The two lookups disagree on a table row that names no process: the icon
      falls back to the default viewer's, while the process stays "". */
  lemma IconAndProcessDivergeOnEmptyRow(env: Env, extension: string)
    requires extension in env.extensions
    requires env.extensions[extension] == ExtensionEntry("", [])
    ensures ProcessByFileExtension(env, extension) == ""
    ensures IconByFileExtension(env, extension) ==
      Or(ProcessIcon(env, DefaultFileViewer(env, extension)), env.unknownIcon)
  {
  }

  /** For a listed extension the viewer sets are never consulted: two
      environments that share the table resolve it to the same process. */
  lemma ListedProcessIgnoresViewers(env: Env, env': Env, extension: string)
    requires env'.extensions == env.extensions
    requires extension in env.extensions
    ensures ProcessByFileExtension(env, extension) == ProcessByFileExtension(env', extension)
  {
  }

  /** For an unlisted extension only the viewer sets matter. */
  lemma UnlistedProcessIsDefaultViewer(env: Env, extension: string)
    requires extension !in env.extensions
    ensures ProcessByFileExtension(env, extension) == FirstMatch(ViewerPriority(env), extension)
  {
    DefaultViewerIsFirstMatch(env, extension);
  }

  // ---------------------------------------------------------------------------
  // Shortcut files and desktop.ini

  /** The record of a parsed shortcut file, or None when the file has no
      `[InternetShortcut]` section (destructuring it throws). */
  function ShortcutInfo(env: Env, doc: IniDoc): (r: Option<FileInfo>)
    ensures r.None? <==> "InternetShortcut" !in doc
    ensures r.Some? ==> r.value.pid == Field(doc["InternetShortcut"], "BaseURL")
    ensures r.Some? ==> r.value.url == Field(doc["InternetShortcut"], "URL")
    ensures r.Some? ==>
      var given := Field(doc["InternetShortcut"], "IconFile");
      r.value.icon == (if given == "" && r.value.pid != "" then ProcessIcon(env, r.value.pid) else given)
  {
    if "InternetShortcut" !in doc then None
    else
      var section := doc["InternetShortcut"];
      var pid := Field(section, "BaseURL");
      var icon := Field(section, "IconFile");
      var url := Field(section, "URL");
      if icon == "" && pid != "" then Some(FileInfo(ProcessIcon(env, pid), pid, url))
      else Some(FileInfo(icon, pid, url))
  }

  /** A shortcut keeps its own icon whenever it names one; it borrows the
      owning process's icon only when it names none. */
  lemma ShortcutIconBorrowedOnlyWhenMissing(env: Env, doc: IniDoc)
    requires "InternetShortcut" in doc
    ensures ShortcutInfo(env, doc).Some?
    ensures var info := ShortcutInfo(env, doc).value;
      info.icon != Field(doc["InternetShortcut"], "IconFile") ==>
        Field(doc["InternetShortcut"], "IconFile") == "" && info.pid != "" &&
        info.icon == ProcessIcon(env, info.pid)
  {
  }

  /** A shortcut's record reads only the three keys `BaseURL`, `IconFile` and
      `URL` of its `[InternetShortcut]` section; its pid and target never
      depend on the process directory, and its icon reads the directory only
      when the file names no icon but does name a process. */
  lemma ShortcutInfoFrame(env: Env, env': Env, doc: IniDoc, doc': IniDoc)
    requires "InternetShortcut" in doc && "InternetShortcut" in doc'
    requires forall key :: key in {"BaseURL", "IconFile", "URL"} ==>
      Field(doc["InternetShortcut"], key) == Field(doc'["InternetShortcut"], key)
    ensures ShortcutInfo(env, doc).value.pid == ShortcutInfo(env', doc').value.pid
    ensures ShortcutInfo(env, doc).value.url == ShortcutInfo(env', doc').value.url
    ensures Field(doc["InternetShortcut"], "IconFile") != "" || Field(doc["InternetShortcut"], "BaseURL") == "" ==>
      ShortcutInfo(env, doc) == ShortcutInfo(env', doc')
    ensures env'.processIcons == env.processIcons ==> ShortcutInfo(env, doc) == ShortcutInfo(env', doc')
  {
    assert "BaseURL" in {"BaseURL", "IconFile", "URL"};
    assert "IconFile" in {"BaseURL", "IconFile", "URL"};
    assert "URL" in {"BaseURL", "IconFile", "URL"};
  }

  /** The folder icon a read of `desktop.ini` settles on: None when the read
      failed, the `[ShellClassInfo]` section is missing, or its `IconFile` is
      empty (the promise then never resolves). */
  function IconFromIni(read: Option<IniDoc>): (r: Option<string>)
    ensures r.Some? <==>
      read.Some? && "ShellClassInfo" in read.value &&
      Field(read.value["ShellClassInfo"], "IconFile") != ""
    ensures r.Some? ==> r.value != "" && r.value == read.value["ShellClassInfo"]["IconFile"]
  {
    match read
    case None => None
    case Some(doc) =>
      if "ShellClassInfo" !in doc then None
      else
        var iconFile := Field(doc["ShellClassInfo"], "IconFile");
        if iconFile != "" then Some(iconFile) else None
  }

  /** Only `[ShellClassInfo] IconFile` matters: two successfully read
      documents that agree on it (or both lack the section) settle on the same
      folder icon, whatever else they hold. */
  lemma IconFromIniReadsOnlyIconFile(doc: IniDoc, doc': IniDoc)
    requires ("ShellClassInfo" in doc) == ("ShellClassInfo" in doc')
    requires "ShellClassInfo" in doc ==>
      Field(doc["ShellClassInfo"], "IconFile") == Field(doc'["ShellClassInfo"], "IconFile")
    ensures IconFromIni(Some(doc)) == IconFromIni(Some(doc'))
  {
  }

  // ---------------------------------------------------------------------------
  // Hidden entries

  /** True when a directory entry is shown: neither its full path nor its
      bare name is a system entry. */
  function FilterSystemFiles(env: Env, directory: string, file: string): (r: bool)
    ensures file in env.systemFiles ==> !r
    ensures env.join(directory, file) in env.systemPaths ==> !r
    ensures !r ==> file in env.systemFiles || env.join(directory, file) in env.systemPaths
  {
    env.join(directory, file) !in env.systemPaths && file !in env.systemFiles
  }

  /** The entries of a listing that stay visible, in listing order. */
  function VisibleEntries(env: Env, directory: string, files: seq<string>): (r: seq<string>)
    ensures forall f :: f in r <==> f in files && FilterSystemFiles(env, directory, f)
    ensures |r| <= |files|
  {
    if files == [] then []
    else
      var rest := VisibleEntries(env, directory, files[1..]);
      if FilterSystemFiles(env, directory, files[0]) then [files[0]] + rest else rest
  }

  /** Filtering keeps the listing's order: filtering two consecutive parts of
      a listing and joining the results is filtering the whole. */
  lemma {:induction false} VisibleEntriesAppend(env: Env, directory: string, a: seq<string>, b: seq<string>)
    ensures VisibleEntries(env, directory, a + b) ==
      VisibleEntries(env, directory, a) + VisibleEntries(env, directory, b)
  {
    if a != [] {
      assert (a + b)[1..] == a[1..] + b;
      VisibleEntriesAppend(env, directory, a[1..], b);
    } else {
      assert a + b == b;
    }
  }

  /** A listing of one entry is kept or dropped by the predicate alone. */
  lemma VisibleEntriesSingle(env: Env, directory: string, file: string)
    ensures VisibleEntries(env, directory, [file]) ==
      if FilterSystemFiles(env, directory, file) then [file] else []
  {
    assert [file][1..] == [];
  }
}
