/** Configurable shortcuts of the Windows helper
    (native-host-windows/TabSwitcher/Models/ShortcutConfig.cs): a virtual-key
    code with modifier flags, and the text shown for it ("Ctrl+Shift+C"). */
module ShortcutConfig {
  import opened Common

  /** ModifierKeysFlag, a [Flags] enum. */
  type Modifiers = bv32
  const NoModifiers: Modifiers := 0
  const Control: Modifiers := 1
  const Shift: Modifiers := 2
  const Alt: Modifiers := 4
  const Win: Modifiers := 8

  predicate HasFlag(m: Modifiers, flag: Modifiers) {
    m & flag == flag
  }

  /** The four flags are distinct single bits, so a combination holds exactly
      the flags it was built from. */
  lemma FlagsAreDistinctBits(c: bool, s: bool, a: bool, w: bool)
    ensures Control & (Control - 1) == 0 && Shift & (Shift - 1) == 0 && Alt & (Alt - 1) == 0 && Win & (Win - 1) == 0
    ensures Control != 0 && Shift != 0 && Alt != 0 && Win != 0
    ensures Control & Shift == 0 && Control & Alt == 0 && Control & Win == 0
    ensures Shift & Alt == 0 && Shift & Win == 0 && Alt & Win == 0
    ensures var m := (if c then Control else 0) | (if s then Shift else 0) | (if a then Alt else 0) | (if w then Win else 0);
      (HasFlag(m, Control) <==> c) && (HasFlag(m, Shift) <==> s) && (HasFlag(m, Alt) <==> a) && (HasFlag(m, Win) <==> w)
  {
  }

  datatype Shortcut = Shortcut(vkCode: int, modifiers: Modifiers)
  datatype ShortcutsConfiguration = ShortcutsConfiguration(tabSwitch: Shortcut, copyUrl: Shortcut)

  /** The name of a virtual key: the letter or digit itself, F1 to F12, a
      named key, or "Key(n)". No name is empty or contains the '+' that
      joins the parts of a display string. */
  function VkCodeToString(vkCode: int): (r: string)
    ensures |r| > 0 && '+' !in r
  {
    if 0x41 <= vkCode <= 0x5A then [vkCode as char]
    else if 0x30 <= vkCode <= 0x39 then [vkCode as char]
    else if 0x70 <= vkCode <= 0x7B then "F" + NatToString(vkCode - 0x70 + 1)
    else if vkCode == 0x09 then "Tab"
    else if vkCode == 0x0D then "Enter"
    else if vkCode == 0x20 then "Space"
    else if vkCode == 0x08 then "Backspace"
    else if vkCode == 0x1B then "Esc"
    else if vkCode == 0x25 then "Left"
    else if vkCode == 0x26 then "Up"
    else if vkCode == 0x27 then "Right"
    else if vkCode == 0x28 then "Down"
    else if vkCode == 0xC0 then "`"
    else if vkCode == 0xBD then "-"
    else if vkCode == 0xBB then "="
    else if vkCode == 0xDB then "["
    else if vkCode == 0xDD then "]"
    else if vkCode == 0xDC then "\\"
    else if vkCode == 0xBA then ";"
    else if vkCode == 0xDE then "'"
    else if vkCode == 0xBC then ","
    else if vkCode == 0xBE then "."
    else if vkCode == 0xBF then "/"
    else "Key(" + IntToString(vkCode) + ")"
  }

  /** Letters and digits are named by their own character, the function keys
      F1 to F12 by their number, and every code without a name of its own
      by "Key(n)". */
  lemma VkCodeNames()
    ensures forall vk :: 0x41 <= vk <= 0x5A ==> VkCodeToString(vk) == [vk as char]
    ensures forall vk :: 0x30 <= vk <= 0x39 ==> VkCodeToString(vk) == [vk as char]
    ensures forall vk :: 0x70 <= vk <= 0x7B ==> VkCodeToString(vk) == "F" + NatToString(vk - 0x6F)
    ensures forall vk :: !(0x41 <= vk <= 0x5A) && !(0x30 <= vk <= 0x39) && !(0x70 <= vk <= 0x7B) && vk !in NamedKeys ==>
      VkCodeToString(vk) == "Key(" + IntToString(vk) + ")"
    ensures VkCodeToString(0x43) == "C" && VkCodeToString(0x30) == "0"
    ensures VkCodeToString(0x70) == "F1" && VkCodeToString(0x7B) == "F12"
    ensures VkCodeToString(0x09) == "Tab" && VkCodeToString(0x07) == "Key(7)"
  {
    assert NatToString(12) == NatToString(1) + [DigitChar(2)];
  }

  /** The codes of the keys with a word or punctuation name. */
  const NamedKeys: set<int> := {0x09, 0x0D, 0x20, 0x08, 0x1B, 0x25, 0x26, 0x27, 0x28,
    0xC0, 0xBD, 0xBB, 0xDB, 0xDD, 0xDC, 0xBA, 0xDE, 0xBC, 0xBE, 0xBF}

  /** The modifier names a display string starts with, in the order Ctrl, Alt, Shift, Win. */
  function ModifierNames(m: Modifiers): seq<string> {
    (if HasFlag(m, Control) then ["Ctrl"] else []) +
    (if HasFlag(m, Alt) then ["Alt"] else []) +
    (if HasFlag(m, Shift) then ["Shift"] else []) +
    (if HasFlag(m, Win) then ["Win"] else [])
  }

  /** `string.Join("+", parts)`. */
  function Join(parts: seq<string>): string {
    if |parts| == 0 then ""
    else if |parts| == 1 then parts[0]
    else parts[0] + "+" + Join(parts[1..])
  }

  /** The display string of a shortcut: it ends with the key's name, and is
      just that name when no modifier is set. */
  function DisplayString(sc: Shortcut): (r: string)
    ensures |r| >= |VkCodeToString(sc.vkCode)| && r[|r| - |VkCodeToString(sc.vkCode)|..] == VkCodeToString(sc.vkCode)
    ensures ModifierNames(sc.modifiers) == [] ==> r == VkCodeToString(sc.vkCode)
  {
    JoinEndsWithLast(ModifierNames(sc.modifiers) + [VkCodeToString(sc.vkCode)]);
    Join(ModifierNames(sc.modifiers) + [VkCodeToString(sc.vkCode)])
  }

  /** A joined list ends with its last part. */
  lemma {:induction false} JoinEndsWithLast(parts: seq<string>)
    requires |parts| > 0
    ensures |Join(parts)| >= |parts[|parts| - 1]|
    ensures Join(parts)[|Join(parts)| - |parts[|parts| - 1]|..] == parts[|parts| - 1]
  {
    if |parts| > 1 {
      JoinEndsWithLast(parts[1..]);
      var t := Join(parts[1..]);
      assert Join(parts) == (parts[0] + "+") + t;
    }
  }

  /** Splitting a joined list of '+'-free parts gives back the parts. */
  lemma {:induction false} SplitJoin(parts: seq<string>)
    requires |parts| > 0
    requires forall i :: 0 <= i < |parts| ==> '+' !in parts[i]
    ensures Split(Join(parts), '+') == parts
    decreases |parts|
  {
    if |parts| == 1 {
      SplitPrefix(parts[0], "", '+');
      assert parts[0] + "" == parts[0];
    } else {
      var t := "+" + Join(parts[1..]);
      assert Join(parts) == parts[0] + t;
      SplitPrefix(parts[0], t, '+');
      assert t[1..] == Join(parts[1..]);
      SplitJoin(parts[1..]);
      assert Split(t, '+') == [""] + parts[1..];
      assert parts[0] + "" == parts[0];
    }
  }

  /** A display string splits back into its modifier names and the key name. */
  lemma DisplayStringSplits(sc: Shortcut)
    ensures Split(DisplayString(sc), '+') == ModifierNames(sc.modifiers) + [VkCodeToString(sc.vkCode)]
  {
    var parts := ModifierNames(sc.modifiers) + [VkCodeToString(sc.vkCode)];
    assert forall i :: 0 <= i < |parts| ==> '+' !in parts[i];
    SplitJoin(parts);
  }

  /** The four flags of m that a display string shows. */
  function ShownFlags(m: Modifiers): Modifiers {
    (if HasFlag(m, Control) then Control else 0) | (if HasFlag(m, Alt) then Alt else 0) |
    (if HasFlag(m, Shift) then Shift else 0) | (if HasFlag(m, Win) then Win else 0)
  }

  /** Two shortcuts shown alike carry the same four modifier flags and keys
      of the same name: the display string loses nothing but the unused bits. */
  lemma SameDisplaySameShortcut(a: Shortcut, b: Shortcut)
    requires DisplayString(a) == DisplayString(b)
    ensures a.modifiers & 15 == b.modifiers & 15
    ensures VkCodeToString(a.vkCode) == VkCodeToString(b.vkCode)
  {
    DisplayStringSplits(a);
    DisplayStringSplits(b);
    var na, nb := ModifierNames(a.modifiers), ModifierNames(b.modifiers);
    assert na + [VkCodeToString(a.vkCode)] == nb + [VkCodeToString(b.vkCode)];
    assert |na| == |nb|;
    assert na == (na + [VkCodeToString(a.vkCode)])[..|na|];
    assert nb == (nb + [VkCodeToString(b.vkCode)])[..|nb|];
    ModifierNamesDetermineFlags(a.modifiers, b.modifiers);
  }

  lemma ModifierNamesDetermineFlags(m: Modifiers, n: Modifiers)
    requires ModifierNames(m) == ModifierNames(n)
    ensures m & 15 == n & 15
  {
    var mc, ma, ms, mw := HasFlag(m, Control), HasFlag(m, Alt), HasFlag(m, Shift), HasFlag(m, Win);
    var nc, na, ns, nw := HasFlag(n, Control), HasFlag(n, Alt), HasFlag(n, Shift), HasFlag(n, Win);
    var sm := ModifierNames(m);
    assert mc == (|sm| > 0 && sm[0] == "Ctrl");
    assert nc == mc;
    var tm := if mc then sm[1..] else sm;
    assert ma == (|tm| > 0 && tm[0] == "Alt");
    assert na == ma;
    var um := if ma then tm[1..] else tm;
    assert ms == (|um| > 0 && um[0] == "Shift");
    assert ns == ms;
    var wm := if ms then um[1..] else um;
    assert mw == (|wm| > 0 && wm[0] == "Win");
    assert nw == mw;
    assert m & 15 == ShownFlags(m);
    assert n & 15 == ShownFlags(n);
  }

  /** Ctrl+Tab and Ctrl+Shift+C. */
  const DefaultTabSwitch: Shortcut := Shortcut(0x09, Control)
  const DefaultCopyUrl: Shortcut := Shortcut(0x43, Control | Shift)

  /** `new ShortcutsConfiguration()` as written: the property initialisers
      read `Defaults`, and `Defaults` is itself `new()`, so every
      construction starts another one. `stack` is the number of nested
      constructions the thread's stack can hold; None is the stack overflow. */
  function NewConfigurationAsWritten(stack: nat): (r: Option<ShortcutsConfiguration>)
    ensures r.Some? ==> stack > 0 && r.value == Defaults()
    decreases stack, 0
  {
    if stack == 0 then None
    else
      var d := DefaultsAsWritten(stack - 1);
      if d.None? then None else Some(ShortcutsConfiguration(d.value.tabSwitch, d.value.copyUrl))
  }

  /** `ShortcutsConfiguration.Defaults` as written: `new()` followed by the
      two default shortcuts. */
  function DefaultsAsWritten(stack: nat): (r: Option<ShortcutsConfiguration>)
    ensures r.Some? ==> stack > 0 && r.value == Defaults()
    decreases stack, 1
  {
    var created := NewConfigurationAsWritten(stack);
    if created.None? then None else Some(ShortcutsConfiguration(DefaultTabSwitch, DefaultCopyUrl))
  }

  /** However deep the stack, neither a configuration nor its defaults is
      ever produced as written. */
  lemma {:induction false} ConfigurationNeverBuiltAsWritten(stack: nat)
    ensures NewConfigurationAsWritten(stack) == None
    ensures DefaultsAsWritten(stack) == None
  {
    if stack > 0 {
      ConfigurationNeverBuiltAsWritten(stack - 1);
    }
  }

  /** The defaults built directly from the two default shortcuts, which is
      what a new configuration holds. */
  function Defaults(): (c: ShortcutsConfiguration)
    ensures DisplayString(c.tabSwitch) == "Ctrl+Tab"
    ensures DisplayString(c.copyUrl) == "Ctrl+Shift+C"
  {
    var c := ShortcutsConfiguration(DefaultTabSwitch, DefaultCopyUrl);
    assert ModifierNames(Control) == ["Ctrl"];
    assert ModifierNames(Control | Shift) == ["Ctrl", "Shift"];
    assert VkCodeToString(0x09) == "Tab" && VkCodeToString(0x43) == "C";
    assert Join(["Tab"]) == "Tab" && Join(["C"]) == "C";
    assert Join(["Ctrl", "Tab"]) == "Ctrl" + "+" + Join(["Tab"]);
    assert Join(["Shift", "C"]) == "Shift" + "+" + Join(["C"]);
    assert Join(["Ctrl", "Shift", "C"]) == "Ctrl" + "+" + Join(["Shift", "C"]);
    assert ModifierNames(Control) + ["Tab"] == ["Ctrl", "Tab"];
    assert ModifierNames(Control | Shift) + ["C"] == ["Ctrl", "Shift", "C"];
    c
  }
}
