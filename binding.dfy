/**
 * Input bindings shared by both auto clicker variants: the abstract keyboard
 * and pointer events a listener delivers, how a configured toggle key or
 * toggle button name is resolved, and how a key press is matched against the
 * configured toggle key.
 */
module Binding {
  import opened Wrappers

  /** Names of the members of the keyboard library's special-key enumeration. */
  const MODIFIER_KEY_NAMES: set<string> := {
    "alt", "alt_l", "alt_r", "alt_gr", "cmd", "cmd_l", "cmd_r",
    "ctrl", "ctrl_l", "ctrl_r", "shift", "shift_l", "shift_r"
  }
  const EDITING_KEY_NAMES: set<string> := {
    "backspace", "caps_lock", "delete", "down", "end", "enter", "esc", "home", "left",
    "page_down", "page_up", "right", "space", "tab", "up",
    "insert", "menu", "num_lock", "pause", "print_screen", "scroll_lock"
  }
  const MEDIA_KEY_NAMES: set<string> := {
    "media_play_pause", "media_volume_mute", "media_volume_down", "media_volume_up",
    "media_previous", "media_next"
  }
  const FUNCTION_KEY_NAMES: set<string> := {
    "f1", "f2", "f3", "f4", "f5", "f6", "f7", "f8", "f9", "f10",
    "f11", "f12", "f13", "f14", "f15", "f16", "f17", "f18", "f19", "f20"
  }
  const SPECIAL_KEY_NAMES: set<string> :=
    MODIFIER_KEY_NAMES + EDITING_KEY_NAMES + MEDIA_KEY_NAMES + FUNCTION_KEY_NAMES

  /** Every special-key name is at least two characters long. */
  lemma SpecialKeyNamesAreLong()
    ensures forall name :: name in SPECIAL_KEY_NAMES ==> |name| >= 2
  {
    forall name | name in SPECIAL_KEY_NAMES
      ensures |name| >= 2
    {
      if name in MODIFIER_KEY_NAMES {
      } else if name in EDITING_KEY_NAMES {
      } else if name in MEDIA_KEY_NAMES {
      } else {
        assert name in FUNCTION_KEY_NAMES;
      }
    }
  }

  /** The fixed exit key. */
  const ESC: string := "esc"

  /**
   * A key event as the keyboard listener delivers it: either a key code that
   * carries a `char` attribute (which may be None), or a member of the
   * special-key enumeration (which has no `char` attribute).
   */
  datatype KeyEvent = CharKey(keyChar: Option<string>) | SpecialKey(name: string)

  /** The configured toggle key: a special-key member, or the literal string. */
  datatype ToggleKey = SpecialToggle(name: string) | LiteralToggle(text: string)

  /** The pointer buttons. */
  datatype Button = Left | Right | Middle

  const BUTTON_NAMES: set<string> := {"left", "right", "middle"}

  /** The attribute name of a button in the pointer library's button enumeration. */
  function ButtonName(b: Button): (n: string)
    ensures n in BUTTON_NAMES
  {
    match b
    case Left => "left"
    case Right => "right"
    case Middle => "middle"
  }

  /** Attribute lookup on the button enumeration: the member called `n`, if any. */
  function ButtonNamed(n: string): (r: Option<Button>)
    ensures r.Some? <==> n in BUTTON_NAMES
    ensures r.Some? ==> ButtonName(r.value) == n
  {
    if n == "left" then Some(Left)
    else if n == "right" then Some(Right)
    else if n == "middle" then Some(Middle)
    else None
  }

  lemma ButtonNamedInvertsButtonName(b: Button)
    ensures ButtonNamed(ButtonName(b)) == Some(b)
  {
  }

  // ----- ASCII case mapping (`str.upper()` and `str.lower()`) -----

  predicate IsLowerAscii(c: char) { 'a' <= c <= 'z' }

  predicate IsUpperAscii(c: char) { 'A' <= c <= 'Z' }

  function UpperChar(c: char): char {
    if IsLowerAscii(c) then (c as int - 32) as char else c
  }

  function LowerChar(c: char): char {
    if IsUpperAscii(c) then (c as int + 32) as char else c
  }

  function Upper(s: string): string {
    if s == [] then [] else [UpperChar(s[0])] + Upper(s[1..])
  }

  function Lower(s: string): string {
    if s == [] then [] else [LowerChar(s[0])] + Lower(s[1..])
  }

  /** Upper-casing keeps the length, maps every character and leaves no lower-case letter. */
  lemma {:induction false} UpperSpec(s: string)
    ensures |Upper(s)| == |s|
    ensures forall i :: 0 <= i < |s| ==> Upper(s)[i] == UpperChar(s[i]) && !IsLowerAscii(Upper(s)[i])
  {
    if s != [] {
      UpperSpec(s[1..]);
      assert forall i :: 1 <= i < |s| ==> Upper(s)[i] == Upper(s[1..])[i - 1];
    }
  }

  /** Lower-casing keeps the length, maps every character and leaves no upper-case letter. */
  lemma {:induction false} LowerSpec(s: string)
    ensures |Lower(s)| == |s|
    ensures forall i :: 0 <= i < |s| ==> Lower(s)[i] == LowerChar(s[i]) && !IsUpperAscii(Lower(s)[i])
  {
    if s != [] {
      LowerSpec(s[1..]);
      assert forall i :: 1 <= i < |s| ==> Lower(s)[i] == Lower(s[1..])[i - 1];
    }
  }

  /** Two strings that differ only in letter case lower-case to the same string. */
  lemma {:induction false} LowerIgnoresCase(s: string)
    ensures Lower(Upper(s)) == Lower(s)
  {
    if s != [] {
      LowerIgnoresCase(s[1..]);
    }
  }

  /** Upper-casing twice is upper-casing once. */
  lemma {:induction false} UpperIdempotent(s: string)
    ensures Upper(Upper(s)) == Upper(s)
  {
    if s != [] {
      UpperIdempotent(s[1..]);
    }
  }

  // ----- Toggle key resolution and matching -----

  /** Resolve the toggle key string: a special-key member if one has that name, else the literal string. */
  function ResolveToggleKey(name: string): (k: ToggleKey)
    ensures k.SpecialToggle? <==> name in SPECIAL_KEY_NAMES
    ensures k == SpecialToggle(name) || k == LiteralToggle(name)
  {
    if name in SPECIAL_KEY_NAMES then SpecialToggle(name) else LiteralToggle(name)
  }

  /** A single character never names a special key, so it is kept as a literal toggle key. */
  lemma SingleCharacterIsLiteral(c: char)
    ensures ResolveToggleKey([c]) == LiteralToggle([c])
  {
    SpecialKeyNamesAreLong();
  }

  /** Every name in `names` begins with a lower-case letter. */
  ghost predicate StartLowerCase(names: set<string>) {
    forall name :: name in names ==> |name| > 0 && IsLowerAscii(name[0])
  }

  /** The editing-key names begin with a lower-case letter. */
  lemma EditingKeyNamesStartLowerCase()
    ensures StartLowerCase(EDITING_KEY_NAMES)
  {
  }

  /** Every special-key name begins with a lower-case letter. */
  lemma SpecialKeyNamesStartLowerCase()
    ensures StartLowerCase(SPECIAL_KEY_NAMES)
  {
    forall name | name in SPECIAL_KEY_NAMES
      ensures |name| > 0 && IsLowerAscii(name[0])
    {
      if name in MODIFIER_KEY_NAMES {
      } else if name in EDITING_KEY_NAMES {
        EditingKeyNamesStartLowerCase();
      } else if name in MEDIA_KEY_NAMES {
      } else {
        assert name in FUNCTION_KEY_NAMES;
      }
    }
  }

  /**
   * Key lookup is case-sensitive, unlike button lookup: an upper-cased key
   * string never names a special key, so "SPACE" is kept as a literal while
   * "space" is the space key.
   */
  lemma UpperCasedKeyIsLiteral(name: string)
    requires name != []
    ensures ResolveToggleKey(Upper(name)) == LiteralToggle(Upper(name))
  {
    SpecialKeyNamesStartLowerCase();
    UpperSpec(name);
  }

  /** "space" resolves to the space key, while "SPACE" stays a literal string. */
  lemma SpaceKeyCaseMatters()
    ensures ResolveToggleKey("space") == SpecialToggle("space")
    ensures ResolveToggleKey("SPACE") == LiteralToggle("SPACE")
  {
    UpperSpec("space");
    assert Upper("space") == "SPACE";
    UpperCasedKeyIsLiteral("space");
  }

  /** The display name of the toggle key: the upper-cased configured string, in both cases. */
  function ToggleKeyName(name: string): string {
    Upper(name)
  }

  /** `key.char == toggle_key`: a character (or None) equals only a literal toggle string. */
  predicate CharEqualsToggle(c: Option<string>, toggle: ToggleKey) {
    c.Some? && toggle.LiteralToggle? && c.value == toggle.text
  }

  /** `key == toggle_key`: a key event equals only the same special-key member. */
  predicate KeyEqualsToggle(key: KeyEvent, toggle: ToggleKey) {
    key.SpecialKey? && toggle.SpecialToggle? && key.name == toggle.name
  }

  /** The condition under which the key press handler toggles clicking. */
  predicate PressToggles(key: KeyEvent, toggle: ToggleKey) {
    if key.CharKey? && CharEqualsToggle(key.keyChar, toggle) then true
    else KeyEqualsToggle(key, toggle)
  }

  /**
   * A press toggles exactly when it is the configured key: the character key
   * typing the configured string when that string names no special key, or the
   * special key of that name when it does.
   */
  lemma PressTogglesExactlyOnConfiguredKey(name: string, key: KeyEvent)
    ensures PressToggles(key, ResolveToggleKey(name)) <==>
      if name in SPECIAL_KEY_NAMES then key == SpecialKey(name) else key == CharKey(Some(name))
  {
  }

  /** Whether a key release is the exit key. */
  predicate IsExitKey(key: KeyEvent) {
    key == SpecialKey(ESC)
  }

  // ----- Toggle button resolution -----

  /** The resolved toggle button and its display name ("None" when disabled). */
  datatype ButtonBinding = ButtonBinding(button: Option<Button>, name: string)

  /**
   * Resolve the optional toggle button name, case-insensitively. An absent or
   * empty name, or one that names no button, disables button toggling.
   */
  function ResolveToggleButton(name: Option<string>): (r: ButtonBinding)
    ensures r.button.Some? <==> name.Some? && Lower(name.value) in BUTTON_NAMES
    ensures r.button.Some? ==> ButtonName(r.button.value) == Lower(name.value)
    ensures r.button.Some? ==> r.name == Upper(name.value)
    ensures r.button.None? ==> r.name == "None"
  {
    if name.Some? && name.value != [] then
      match ButtonNamed(Lower(name.value))
      case Some(b) => ButtonBinding(Some(b), Upper(name.value))
      case None => ButtonBinding(None, "None")
    else
      ButtonBinding(None, "None")
  }

  /** Resolution ignores letter case: "RIGHT", "Right" and "right" select the same button. */
  lemma ResolveToggleButtonIgnoresCase(s: string)
    ensures ResolveToggleButton(Some(Upper(s))).button == ResolveToggleButton(Some(s)).button
  {
    LowerIgnoresCase(s);
  }
}
