/** DOM keyboard codes and the Windows virtual keys they stand for. */
module VirtualKeys {
  import opened Bytes
  import Ranges

  const NAMED: map<string, U16> := map[
    "Backspace" := 0x08, "Tab" := 0x09, "Enter" := 0x0D, "NumpadEnter" := 0x0D,
    "ShiftLeft" := 0xA0, "ShiftRight" := 0xA1, "ControlLeft" := 0xA2, "ControlRight" := 0xA3,
    "AltLeft" := 0xA4, "AltRight" := 0xA5, "Pause" := 0x13, "CapsLock" := 0x14, "KanaMode" := 0x15,
    "Escape" := 0x1B, "Convert" := 0x1C, "NonConvert" := 0x1D, "Space" := 0x20, "PageUp" := 0x21,
    "PageDown" := 0x22, "End" := 0x23, "Home" := 0x24, "ArrowLeft" := 0x25, "ArrowUp" := 0x26,
    "ArrowRight" := 0x27, "ArrowDown" := 0x28, "PrintScreen" := 0x2C, "Insert" := 0x2D, "Delete" := 0x2E,
    "Help" := 0x2F, "MetaLeft" := 0x5B, "OSLeft" := 0x5B, "MetaRight" := 0x5C, "OSRight" := 0x5C,
    "ContextMenu" := 0x5D, "Semicolon" := 0xBA, "Equal" := 0xBB, "Comma" := 0xBC, "Minus" := 0xBD,
    "Period" := 0xBE, "Slash" := 0xBF, "Backquote" := 0xC0, "BracketLeft" := 0xDB, "Backslash" := 0xDC,
    "BracketRight" := 0xDD, "Quote" := 0xDE, "IntlBackslash" := 0xE2, "NumpadMultiply" := 0x6A,
    "NumpadAdd" := 0x6B, "NumpadSubtract" := 0x6D, "NumpadDecimal" := 0x6E, "NumpadDivide" := 0x6F,
    "NumLock" := 0x90, "ScrollLock" := 0x91, "BrowserBack" := 0xA6, "BrowserForward" := 0xA7,
    "BrowserRefresh" := 0xA8, "BrowserStop" := 0xA9, "BrowserSearch" := 0xAA, "BrowserFavorites" := 0xAB,
    "BrowserHome" := 0xAC, "AudioVolumeMute" := 0xAD, "AudioVolumeDown" := 0xAE, "AudioVolumeUp" := 0xAF,
    "MediaTrackNext" := 0xB0, "MediaTrackPrevious" := 0xB1, "MediaStop" := 0xB2, "MediaPlayPause" := 0xB3,
    "LaunchMail" := 0xB4, "MediaSelect" := 0xB5, "LaunchApp1" := 0xB6, "LaunchApp2" := 0xB7]

  type Code = string

  predicate IsAscii(c: char) { c as int < 0x80 }

  function AsciiUpper(c: char): (n: nat)
    requires IsAscii(c)
    ensures n < 0x80
  {
    if 'a' <= c <= 'z' then c as int - 32 else c as int
  }

  /** `str::parse::<u16>`. */
  function ParseU16(s: string): Option<U16> {
    var n := Ranges.ParseU64(s);
    if n.Some? && n.value < 0x1_0000 then Some(n.value) else None
  }

  /** `virtual_key_for_code`. Where it counts the bytes of a code, one byte after the prefix is one ASCII
      character. */
  function VirtualKey(code: Code): Option<U16> {
    if code in NAMED then Some(NAMED[code])
    else if |code| == 4 && "Key" <= code && IsAscii(code[3]) then Some(AsciiUpper(code[3]))
    else if |code| == 6 && "Digit" <= code && IsAscii(code[5]) then Some(code[5] as int)
    else if "F" <= code && ParseU16(code[1..]).Some? && 1 <= ParseU16(code[1..]).value <= 24 then
      Some(0x6F + ParseU16(code[1..]).value)
    else if "Numpad" <= code && ParseU16(code[6..]).Some? && ParseU16(code[6..]).value <= 9 then
      Some(0x60 + ParseU16(code[6..]).value)
    else None
  }

  predicate IsExtended(key: U16) {
    0x21 <= key <= 0x28 || key == 0x2D || key == 0x2E || 0x5B <= key <= 0x5D || key == 0x6F || key == 0xA3 || key == 0xA5
  }

  /** The key of the keyboard that goes down: Shift, Control and Alt without a side are the left ones, or
      with the extended flag the right ones. */
  function Physical(key: U16, extended: bool): U16 {
    if key == 0x10 then 0xA0
    else if key == 0x11 then if extended then 0xA3 else 0xA2
    else if key == 0x12 then if extended then 0xA5 else 0xA4
    else key
  }
}
