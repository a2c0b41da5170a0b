/**
 The records a file entry's callback receives, in order. In the desktop the
 callbacks run asynchronously; here each read, decode or parse is an outcome
 fixed in advance by a `Disk`, and an operation is the sequence of records it
 would emit: a synchronous placeholder first, then the refinements that the
 outcomes allow. A refinement that never arrives (a failed read, a promise
 that never settles, a thrown error) is simply absent from the sequence.
 */
module Emission {
  import opened Environment
  import opened Resolution

  /** What reading a path yields, per use the rules make of a file. */
  datatype Disk = Disk(
    /** the file read and parsed as ini text; None when the read fails */
    readIni: string -> Option<IniDoc>,
    /** the data URL of an image file; None when the read fails */
    imageUrl: string -> Option<string>,
    /** the object URL of a captured video frame; None when the read fails
        or no frame is ever captured */
    videoFrame: string -> Option<string>,
    /** the data URL of an audio file's cover picture; None when the read
        fails or the tags carry no cover */
    coverArt: string -> Option<string>
  )

  /** The branch a non-shortcut extension takes, tested in this order. */
  datatype Branch = Image | Video | Audio | Plain

  function BranchOf(env: Env, extension: string): (b: Branch)
    ensures b == Image <==> extension in env.imageExtensions
    ensures b == Video <==> extension !in env.imageExtensions && extension in env.videoExtensions
    ensures b == Audio <==>
      extension !in env.imageExtensions && extension !in env.videoExtensions && extension == ".mp3"
  {
    if extension in env.imageExtensions then Image
    else if extension in env.videoExtensions then Video
    else if extension == ".mp3" then Audio
    else Plain
  }

  /** The extensions whose files get a preview after the placeholder. */
  predicate IsMedia(env: Env, extension: string)
  {
    BranchOf(env, extension) != Plain
  }

  // ---------------------------------------------------------------------------
  // Entries without an extension

  /** Folders show the folder icon, then the `desktop.ini` icon if one is
      set; anything else is an unknown file with no process and no target. */
  function InfoWithoutExtension(env: Env, disk: Disk, path: string, isDirectory: bool)
    : (r: seq<FileInfo>)
    ensures 1 <= |r| <= 2
    ensures isDirectory ==> r[0] == FileInfo(env.folderIcon, "FileExplorer", path)
    ensures isDirectory ==> forall i :: 0 <= i < |r| ==> r[i].pid == "FileExplorer" && r[i].url == path
    ensures !isDirectory ==> r == [FileInfo(env.unknownIcon, "", "")]
    ensures |r| == 2 <==>
      var read := disk.readIni(env.join(path, "desktop.ini"));
      && isDirectory
      && read.Some?
      && "ShellClassInfo" in read.value
      && Field(read.value["ShellClassInfo"], "IconFile") != ""
    ensures |r| == 2 ==>
      r[1].icon == disk.readIni(env.join(path, "desktop.ini")).value["ShellClassInfo"]["IconFile"]
  {
    if isDirectory then
      var folder := FileInfo(env.folderIcon, "FileExplorer", path);
      match IconFromIni(disk.readIni(env.join(path, "desktop.ini")))
      case Some(icon) => [folder, folder.(icon := icon)]
      case None => [folder]
    else [FileInfo(env.unknownIcon, "", "")]
  }

  // ---------------------------------------------------------------------------
  // Entries with an extension other than the shortcut one

  /** The record for an extension, with `icon` standing in for the icon when
      it is non-empty. */
  function ExtensionRecord(env: Env, path: string, extension: string, icon: string): (r: FileInfo)
    ensures r.pid == ProcessByFileExtension(env, extension) && r.url == path
    ensures r.icon == Or(icon, IconByFileExtension(env, extension))
  {
    FileInfo(Or(icon, IconByFileExtension(env, extension)), ProcessByFileExtension(env, extension), path)
  }

  /** A placeholder record, followed by a refinement when `preview` arrives. */
  function WithPreview(env: Env, path: string, extension: string, placeholder: string,
                       preview: Option<string>): seq<FileInfo>
  {
    [ExtensionRecord(env, path, extension, placeholder)] +
    match preview
    case Some(icon) => [ExtensionRecord(env, path, extension, icon)]
    case None => []
  }

  /** Tables the media branches index without a guard: the `.mp3` row of the
      extension table and the `VideoPlayer` process. Without them the branch
      throws before its first record. */
  predicate MediaTablesPresent(env: Env)
  {
    ".mp3" in env.extensions && "VideoPlayer" in env.processIcons
  }

  /** The records of a non-shortcut extension: images, videos and `.mp3`
      files get a placeholder and then a preview; other extensions get the
      table record alone. */
  function ExtensionEmissions(env: Env, disk: Disk, path: string, extension: string)
    : (r: seq<FileInfo>)
    ensures |r| <= 2
    ensures forall i :: 0 <= i < |r| ==>
      r[i].pid == ProcessByFileExtension(env, extension) && r[i].url == path
    ensures !IsMedia(env, extension) ==>
      r == [FileInfo(IconByFileExtension(env, extension), ProcessByFileExtension(env, extension), path)]
    ensures extension in env.imageExtensions ==>
      |r| >= 1 && r[0].icon == "/System/Icons/photo.png"
    ensures extension in env.imageExtensions ==>
      (|r| == 2 <==> disk.imageUrl(path).Some?)
    ensures extension !in env.imageExtensions && extension in env.videoExtensions ==>
      (r == [] <==> "VideoPlayer" !in env.processIcons) &&
      (r != [] ==> r[0].icon == Or(env.processIcons["VideoPlayer"], IconByFileExtension(env, extension))) &&
      (|r| == 2 <==> "VideoPlayer" in env.processIcons && disk.videoFrame(path).Some?)
    ensures extension !in env.imageExtensions && extension !in env.videoExtensions && extension == ".mp3" ==>
      (r == [] <==> ".mp3" !in env.extensions) &&
      (r != [] ==> r[0].icon == Or(IconPath(env.extensions[".mp3"].icon), IconByFileExtension(env, extension))) &&
      (|r| == 2 <==> ".mp3" in env.extensions && disk.coverArt(path).Some?)
    ensures extension in env.imageExtensions && disk.imageUrl(path).Some? ==>
      r[1] == ExtensionRecord(env, path, extension, disk.imageUrl(path).value)
    ensures (extension !in env.imageExtensions && extension in env.videoExtensions &&
      "VideoPlayer" in env.processIcons && disk.videoFrame(path).Some?) ==>
      r[1] == ExtensionRecord(env, path, extension, disk.videoFrame(path).value)
    ensures (extension !in env.imageExtensions && extension !in env.videoExtensions && extension == ".mp3" &&
      ".mp3" in env.extensions && disk.coverArt(path).Some?) ==>
      r[1] == ExtensionRecord(env, path, extension, disk.coverArt(path).value)
  {
    match BranchOf(env, extension)
    case Image =>
      WithPreview(env, path, extension, "/System/Icons/photo.png", disk.imageUrl(path))
    case Video =>
      if "VideoPlayer" !in env.processIcons then []
      else WithPreview(env, path, extension, env.processIcons["VideoPlayer"], disk.videoFrame(path))
    case Audio =>
      if ".mp3" !in env.extensions then []
      else WithPreview(env, path, extension, IconPath(env.extensions[".mp3"].icon), disk.coverArt(path))
    case Plain => [ExtensionRecord(env, path, extension, "")]
  }

  // ---------------------------------------------------------------------------
  // Shortcut files

  /** The records of the nested lookup of a shortcut's target, as the
      shortcut's callback passes them on: only a non-empty icon that differs
      from the shortcut's own, under the shortcut's process and target. */
  function Relay(shortcut: FileInfo, records: seq<FileInfo>): (r: seq<FileInfo>)
    ensures |r| <= |records|
    ensures forall i :: 0 <= i < |r| ==>
      r[i].pid == shortcut.pid && r[i].url == shortcut.url &&
      r[i].icon != "" && r[i].icon != shortcut.icon
    ensures forall i :: 0 <= i < |r| ==> exists j :: 0 <= j < |records| && records[j].icon == r[i].icon
    ensures forall j :: 0 <= j < |records| && records[j].icon != "" && records[j].icon != shortcut.icon ==>
      FileInfo(records[j].icon, shortcut.pid, shortcut.url) in r
  {
    if records == [] then []
    else
      var rest := Relay(shortcut, records[1..]);
      var icon := records[0].icon;
      if icon != "" && icon != shortcut.icon then [FileInfo(icon, shortcut.pid, shortcut.url)] + rest
      else rest
  }

  /** Relaying keeps the target's order: relaying two consecutive runs of
      records and joining the results is relaying them all. The last relayed
      record is therefore the one the entry ends up showing. */
  lemma {:induction false} RelayAppend(shortcut: FileInfo, a: seq<FileInfo>, b: seq<FileInfo>)
    ensures Relay(shortcut, a + b) == Relay(shortcut, a) + Relay(shortcut, b)
  {
    if a != [] {
      assert (a + b)[1..] == a[1..] + b;
      RelayAppend(shortcut, a[1..], b);
    } else {
      assert a + b == b;
    }
  }

  /** A single target record is relayed, re-labelled with the shortcut's
      process and target, exactly when its icon is non-empty and new. */
  lemma RelaySingle(shortcut: FileInfo, record: FileInfo)
    ensures Relay(shortcut, [record]) ==
      if record.icon != "" && record.icon != shortcut.icon
      then [FileInfo(record.icon, shortcut.pid, shortcut.url)] else []
  {
    assert [record][1..] == [];
  }

  /** The records of a shortcut file: the plain table record when it cannot
      be read, nothing when it has no `[InternetShortcut]` section, otherwise
      its own record followed by the relayed previews of a media target. */
  function ShortcutEmissions(env: Env, disk: Disk, path: string): (r: seq<FileInfo>)
    requires ShortcutIsNotMedia(env)
    ensures |r| <= 3
    ensures disk.readIni(path).None? ==>
      r == [FileInfo(IconByFileExtension(env, env.shortcutExtension),
                     ProcessByFileExtension(env, env.shortcutExtension), path)]
    ensures disk.readIni(path).Some? ==>
      match ShortcutInfo(env, disk.readIni(path).value)
      case None => r == []
      case Some(info) =>
        && |r| >= 1
        && r[0] == info
        && (forall i :: 1 <= i < |r| ==>
              r[i].pid == info.pid && r[i].url == info.url &&
              r[i].icon != "" && r[i].icon != info.icon)
        && (!IsMedia(env, env.extname(info.url)) ==> r == [info])
        && (IsMedia(env, env.extname(info.url)) ==>
              r == [info] + Relay(info, ExtensionEmissions(env, disk, info.url, env.extname(info.url))))
  {
    match disk.readIni(path)
    case None => [ExtensionRecord(env, path, env.shortcutExtension, "")]
    case Some(doc) =>
      match ShortcutInfo(env, doc)
      case None => []
      case Some(info) =>
        var urlExt := env.extname(info.url);
        if IsMedia(env, urlExt) then
          // the nested lookup of the target: not a shortcut, by ShortcutIsNotMedia
          [info] + Relay(info, ExtensionEmissions(env, disk, info.url, urlExt))
        else [info]
  }

  /** The records of a file with an extension. */
  function InfoWithExtension(env: Env, disk: Disk, path: string, extension: string)
    : (r: seq<FileInfo>)
    requires ShortcutIsNotMedia(env)
    ensures |r| <= 3
    ensures extension != env.shortcutExtension ==> |r| <= 2
    ensures forall i :: 0 <= i < |r| ==> r[i].pid == r[0].pid && r[i].url == r[0].url
    ensures extension == env.shortcutExtension ==> r == ShortcutEmissions(env, disk, path)
    ensures extension != env.shortcutExtension ==> r == ExtensionEmissions(env, disk, path, extension)
    ensures extension != env.shortcutExtension && !IsMedia(env, extension) ==>
      r == [FileInfo(IconByFileExtension(env, extension), ProcessByFileExtension(env, extension), path)]
  {
    if extension == env.shortcutExtension then ShortcutEmissions(env, disk, path)
    else ExtensionEmissions(env, disk, path, extension)
  }

  /** The nested lookup a shortcut makes for a media target is the plain
      extension lookup: it never re-enters the shortcut branch. */
  lemma NestedLookupIsPlain(env: Env, disk: Disk, url: string)
    requires ShortcutIsNotMedia(env)
    requires IsMedia(env, env.extname(url))
    ensures InfoWithExtension(env, disk, url, env.extname(url)) ==
      ExtensionEmissions(env, disk, url, env.extname(url))
  {
  }

  /** The icon a non-shortcut branch shows before any read completes: the
      photo icon for images, the video player's icon for videos, the table
      icon for `.mp3` files, and none (the plain table lookup) otherwise. */
  function PlaceholderIcon(env: Env, extension: string): string
    requires MediaTablesPresent(env)
  {
    match BranchOf(env, extension)
    case Image => "/System/Icons/photo.png"
    case Video => env.processIcons["VideoPlayer"]
    case Audio => IconPath(env.extensions[".mp3"].icon)
    case Plain => ""
  }

  /** With the static tables in place, every non-shortcut file first emits
      its table record with the branch placeholder as icon. */
  lemma PlaceholderComesFirst(env: Env, disk: Disk, path: string, extension: string)
    requires ShortcutIsNotMedia(env) && MediaTablesPresent(env)
    requires extension != env.shortcutExtension
    ensures var r := InfoWithExtension(env, disk, path, extension);
      && |r| >= 1
      && r[0].pid == ProcessByFileExtension(env, extension)
      && r[0].url == path
      && r[0].icon == Or(PlaceholderIcon(env, extension), IconByFileExtension(env, extension))
  {
  }

  /** A shortcut to an image relays the photo placeholder and then the image
      itself, each under the shortcut's own process and target, as long as
      the icons differ from the shortcut's. */
  lemma ShortcutToImageRelaysPreview(env: Env, disk: Disk, path: string)
    requires ShortcutIsNotMedia(env)
    requires disk.readIni(path).Some?
    requires ShortcutInfo(env, disk.readIni(path).value).Some?
    requires var info := ShortcutInfo(env, disk.readIni(path).value).value;
      env.extname(info.url) in env.imageExtensions && info.icon != "/System/Icons/photo.png"
    ensures var info := ShortcutInfo(env, disk.readIni(path).value).value;
      var r := ShortcutEmissions(env, disk, path);
      && |r| >= 2
      && r[0] == info
      && r[1] == FileInfo("/System/Icons/photo.png", info.pid, info.url)
      && (|r| == 3 <==>
            && disk.imageUrl(info.url).Some?
            && var preview := Or(disk.imageUrl(info.url).value, IconByFileExtension(env, env.extname(info.url)));
               preview != "" && preview != info.icon)
      && (|r| == 3 ==>
            r[2] == FileInfo(Or(disk.imageUrl(info.url).value, IconByFileExtension(env, env.extname(info.url))),
                             info.pid, info.url))
  {
    var info := ShortcutInfo(env, disk.readIni(path).value).value;
    var records := ExtensionEmissions(env, disk, info.url, env.extname(info.url));
    var relayed := Relay(info, records);
    assert relayed == [FileInfo("/System/Icons/photo.png", info.pid, info.url)] + Relay(info, records[1..]);
    if |records| == 2 {
      var tail := records[1..];
      assert tail[1..] == [];
      assert Relay(info, tail[1..]) == [];
    } else {
      assert records[1..] == [];
    }
  }
}
