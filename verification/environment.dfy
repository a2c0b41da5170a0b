/**
 The values the file-entry rules read but do not define: the static extension
 table, the process directory, the extension sets and icon constants, and the
 path helpers. Every rule takes them as one `Env` argument, so each property
 below holds for whatever tables the desktop ships with.

 JavaScript's `undefined` for a missing string (an absent ini key, an absent
 process) is represented by the empty string. Almost every consumer in the
 rules tests such a value with `||` or `!`, where the two are
 indistinguishable. Two places see the value itself: a shortcut whose process
 has no icon hands `undefined` to its callback as the icon (here ""), and the
 shortcut relay compares a target icon against that icon with `!==`. The
 comparison runs only after the target icon has been tested non-empty, and a
 non-empty string differs from both, so the outcome is the same.
 */
module Environment {

  datatype Option<T> = None | Some(value: T)

  /** One row of the static extension table: an icon name ("" when the row
      has none) and the processes that open the extension, preferred first. */
  datatype ExtensionEntry = ExtensionEntry(icon: string, process: seq<string>)

  datatype Env = Env(
    extensions: map<string, ExtensionEntry>,
    /** `processDirectory[name].icon` for every registered process */
    processIcons: map<string, string>,
    monacoExtensions: set<string>,
    imageExtensions: set<string>,
    videoExtensions: set<string>,
    systemFiles: set<string>,
    systemPaths: set<string>,
    folderIcon: string,
    unknownIcon: string,
    shortcutExtension: string,
    join: (string, string) -> string,
    extname: string -> string
  )

  /** A parsed ini document: section name to key/value pairs. */
  type IniSection = map<string, string>
  type IniDoc = map<string, IniSection>

  /** The display record handed to a file entry's callback. */
  datatype FileInfo = FileInfo(icon: string, pid: string, url: string)

  /** JavaScript's `a || b` on two strings. */
  function Or(a: string, b: string): (r: string)
    ensures r != "" <==> a != "" || b != ""
    ensures r == a || r == b
  {
    if a != "" then a else b
  }

  /** A destructured key with default `""`: the value, or "" when absent. */
  function Field(section: IniSection, key: string): (r: string)
    ensures key in section ==> r == section[key]
    ensures key !in section ==> r == ""
  {
    if key in section then section[key] else ""
  }

  /** `processDirectory[name]?.icon`, with an unregistered name giving "". */
  function ProcessIcon(env: Env, name: string): (r: string)
    ensures name in env.processIcons ==> r == env.processIcons[name]
    ensures name !in env.processIcons ==> r == ""
  {
    if name in env.processIcons then env.processIcons[name] else ""
  }

  /** The template `/System/Icons/${name}.png`. */
  function IconPath(name: string): (r: string)
    ensures |r| == |name| + 18
    ensures r[..14] == "/System/Icons/" && r[14..|r| - 4] == name && r[|r| - 4..] == ".png"
  {
    "/System/Icons/" + name + ".png"
  }

  /** True when the nested lookup of a shortcut target can never re-enter the
      shortcut branch: the shortcut extension is none of the media extensions.
      The shipped constants (".url" against image, video and ".mp3") satisfy it. */
  predicate ShortcutIsNotMedia(env: Env)
  {
    && env.shortcutExtension !in env.imageExtensions
    && env.shortcutExtension !in env.videoExtensions
    && env.shortcutExtension != ".mp3"
  }
}
