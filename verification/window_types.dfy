/**
 * The records the desktop shares between its parts: windows, desktop icons,
 * the simulated file store, the clipboard and the user settings.
 * Timestamps (`dateModified`), optional file sizes and icon names used only
 * for display are not represented.
 */
module WindowTypes {
  import opened Options

  /** Window ids are handed out by a counter in the store, so a fresh id is one the counter has not reached. */
  type WindowId = nat

  /** File ids are either the fixed names of the built-in folders ('desktop', 'documents', 'recycle-bin', ...) or ids generated by the store. */
  datatype FileId = Named(name: string) | Generated(serial: nat)

  /** The `props` a window is opened with: the Notepad window is told which file it edits. */
  datatype Props = NoProps | FileProp(fileId: FileId)

  datatype WindowState = WindowState(
    id: WindowId,
    title: string,
    icon: string,
    component: string,
    x: real,
    y: real,
    width: real,
    height: real,
    isMinimized: bool,
    isMaximized: bool,
    zIndex: int,
    props: Props)
  {
    /** The fields of the record that its opener supplies. */
    function Spec(): WindowSpec {
      WindowSpec(title, icon, component, x, y, width, height, isMinimized, isMaximized, props)
    }
  }

  /** What a caller of `openWindow` supplies: a window record without its id and z-index. */
  datatype WindowSpec = WindowSpec(
    title: string,
    icon: string,
    component: string,
    x: real,
    y: real,
    width: real,
    height: real,
    isMinimized: bool,
    isMaximized: bool,
    props: Props)
  {
    function WithIdAndZ(id: WindowId, z: int): (w: WindowState)
      ensures w.id == id && w.zIndex == z && w.component == component
      ensures w.Spec() == this
    {
      WindowState(id, title, icon, component, x, y, width, height, isMinimized, isMaximized, z, props)
    }
  }

  datatype FileKind = Folder | File

  datatype FileItem = FileItem(
    id: FileId,
    name: string,
    kind: FileKind,
    parentId: Option<FileId>,
    content: Option<string>)

  datatype ClipOperation = Copy | Cut

  datatype ClipboardItem = ClipboardItem(files: seq<FileItem>, operation: ClipOperation)

  datatype Theme = Light | Dark
  datatype TaskbarPosition = Bottom | Top | LeftEdge | RightEdge
  datatype TaskbarAlignment = Centered | LeftAligned

  datatype Settings = Settings(
    wallpaper: string,
    theme: Theme,
    accentColor: string,
    taskbarPosition: TaskbarPosition,
    taskbarAlignment: TaskbarAlignment)

  /** A `Partial<Settings>`: the fields an update supplies. */
  datatype SettingsPatch = SettingsPatch(
    wallpaper: Option<string>,
    theme: Option<Theme>,
    accentColor: Option<string>,
    taskbarPosition: Option<TaskbarPosition>,
    taskbarAlignment: Option<TaskbarAlignment>)

  datatype Point = Point(x: int, y: int)

  datatype DesktopIcon = DesktopIcon(
    id: string,
    name: string,
    icon: string,
    action: string,
    position: Point,
    url: Option<string>)
}
