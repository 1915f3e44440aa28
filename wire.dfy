/** Values carried on the two channels: parsed JSON documents (the text form and
    its UTF-8 encoding are left to the runtimes) and the tab record that the
    extension sends for the switcher overlay (native-host-windows/TabSwitcher/Models/TabInfo.cs). */
module Wire {
  import opened Common

  /** A parsed JSON value. Numbers are integers; the sources only read integer fields. */
  datatype Json =
    | JNull
    | JBool(b: bool)
    | JNum(n: int)
    | JStr(s: string)
    | JArr(items: seq<Json>)
    | JObj(fields: map<string, Json>)

  /** What `node[key]?.GetValue<T>()` yields in System.Text.Json: nothing for a
      missing key or a JSON null, the value for the right kind, and an exception
      for any other kind. */
  datatype Got<+T> = Absent | Value(v: T) | Throws

  const Int32Min: int := -0x8000_0000
  const Int32Max: int := 0x7FFF_FFFF

  function CsString(fields: map<string, Json>, key: string): (g: Got<string>)
    ensures g.Value? <==> key in fields && fields[key].JStr?
    ensures g.Absent? <==> key !in fields || fields[key].JNull?
  {
    if key !in fields then Absent
    else match fields[key]
      case JNull => Absent
      case JStr(s) => Value(s)
      case _ => Throws
  }

  /** GetValue<int> also throws for a number outside the 32-bit range. */
  function CsInt(fields: map<string, Json>, key: string): (g: Got<int>)
    ensures g.Value? ==> Int32Min <= g.v <= Int32Max
    ensures g.Absent? <==> key !in fields || fields[key].JNull?
  {
    if key !in fields then Absent
    else match fields[key]
      case JNull => Absent
      case JNum(n) => if Int32Min <= n <= Int32Max then Value(n) else Throws
      case _ => Throws
  }

  function CsBool(fields: map<string, Json>, key: string): (g: Got<bool>)
    ensures g.Value? <==> key in fields && fields[key].JBool?
    ensures g.Absent? <==> key !in fields || fields[key].JNull?
  {
    if key !in fields then Absent
    else match fields[key]
      case JNull => Absent
      case JBool(b) => Value(b)
      case _ => Throws
  }

  /** Swift's `dict[key] as? String`: a conditional cast that never throws. */
  function SwString(fields: map<string, Json>, key: string): (r: Option<string>)
    ensures r.Some? <==> key in fields && fields[key].JStr?
  {
    if key in fields && fields[key].JStr? then Some(fields[key].s) else None
  }

  const Int64Min: int := -0x8000_0000_0000_0000
  const Int64Max: int := 0x7FFF_FFFF_FFFF_FFFF

  /** Swift's `dict[key] as? Int` on a value JSONSerialization produced. Numbers
      and booleans both arrive as NSNumber: a boolean casts to 0 or 1, and a
      number casts only when it fits the 64-bit `Int`. */
  function SwInt(fields: map<string, Json>, key: string): (r: Option<int>)
    ensures r.Some? <==>
              key in fields && (fields[key].JBool? || (fields[key].JNum? && Int64Min <= fields[key].n <= Int64Max))
    ensures r.Some? ==> Int64Min <= r.value <= Int64Max
    ensures r.Some? && fields[key].JNum? ==> r.value == fields[key].n
    ensures r.Some? && fields[key].JBool? ==> r.value == (if fields[key].b then 1 else 0)
  {
    if key !in fields then None
    else match fields[key]
      case JBool(b) => Some(if b then 1 else 0)
      case JNum(n) => if Int64Min <= n <= Int64Max then Some(n) else None
      case _ => None
  }

  /** One tab of the switcher overlay. `thumbnail` is the base64 text taken out
      of the data URL; decoding it into an image is left to the platform. */
  datatype TabInfo = TabInfo(id: int, title: string, favIconUrl: string, thumbnail: Option<string>, url: string)

  /** Messages a helper sends to the extension (the `action` values of the
      native messaging protocol with the fields each one carries). */
  datatype HostMessage =
    | Ready
    | Registered(bundleId: string)
    | RegisteredWithShortcuts(bundleId: string, tabSwitch: string, copyUrl: string)
    | Cycle(action: string, showUi: bool, currentWindowOnly: bool)
    | RequestShowUi(currentWindowOnly: bool)
    | EndSwitch
    | Pong
    | CopyUrl
    | ErrorNoAccessibility

  /** Messages the extension sends to its helper. `tabs` lists the ids of the
      tabs whose metadata is sent; titles, icons and thumbnails are left out. */
  datatype ExtMessage =
    | ShowSwitcher(tabs: seq<int>, selectedIndex: int)
    | UpdateSelection(selectedIndex: int)
    | HideSwitcher
    | Register(bundleId: string)
    | Ping

  /** What a helper asks its overlay window to do. */
  datatype OverlayCommand = ShowOverlay(tabs: seq<TabInfo>, selectedIndex: int) | SelectInOverlay(index: int) | HideOverlay
}
