/** The functions offered for the command buttons. */
module ButtonCatalog {
  import opened Text

  /** Text without the characters that the stored form of a button gives a meaning to. */
  predicate Plain(s: string) {
    forall i :: 0 <= i < |s| ==> s[i] != '|' && s[i] != '\\' && s[i] != '\n'
  }

  predicate Bounded(s: string) {
    0 < |s| <= 60 && !IsWhite(s[0]) && !IsWhite(s[|s| - 1])
  }

  /** A name that is not taken for a command either. */
  predicate IsName(s: string) {
    Plain(s) && Bounded(s) && |s| != 6 && (|s| > 4 ==> s[4] != '=')
  }

  predicate IsShortcut(s: string) { Plain(s) && |s| <= 60 }

  type Name = s: string | IsName(s) witness "N"
  type Shortcut = s: string | IsShortcut(s) witness ""
  type Command = s: string | Bounded(s) witness "C"

  datatype CommandOption = CommandOption(name: Name, shortcut: Shortcut, command: Command)

  // ----- The catalog, in pieces that are quick to check -----

  const WINDOW_1: seq<CommandOption> := [
    CommandOption("Fullscreen", "Alt+Enter", "SIGNAL|FULLSCREEN"),
    CommandOption("Borderless Window", "F2", "SEND=0x71")]

  const WINDOW_2: seq<CommandOption> := [
    CommandOption("Borderless Fullscreen", "Ctrl+Alt+Enter", "SIGNAL|BORDERLESS_FS")]

  const WINDOW_3: seq<CommandOption> := [
    CommandOption("Desktop Mode", "Ctrl+F9", "SIGNAL|DESKTOP_MODE")]

  const WINDOW_4: seq<CommandOption> := [
    CommandOption("Desktop Mode: All Monitors", "", "DESKTOP_MODE_MONITORS=all")]

  const WINDOW_5: seq<CommandOption> := [
    CommandOption("Desktop Mode: Primary Monitor", "", "DESKTOP_MODE_MONITORS=primary")]

  const WINDOW_6: seq<CommandOption> := [
    CommandOption("Desktop Mode: Current Monitor", "", "DESKTOP_MODE_MONITORS=current")]

  const WINDOW_7: seq<CommandOption> := [
    CommandOption("Desktop Mode: Cycle Area", "Shift+F9", "DESKTOP_MODE_MONITORS_CYCLE")]

  const WINDOW_8: seq<CommandOption> := [
    CommandOption("Watermark Mode", "Ctrl+Shift+F9", "SIGNAL|WATERMARK"),
    CommandOption("Always On Top", "F7", "SEND=0x76")]

  const WINDOW_9: seq<CommandOption> := [
    CommandOption("Clickthrough", "F9", "SEND=0x78"),
    CommandOption("Open Milkwave Remote", "F8", "SIGNAL|OPEN_REMOTE")]

  const WINDOW_10: seq<CommandOption> := [
    CommandOption("Toggle Spout", "F10", "SEND=0x79"),
    CommandOption("Fixed Spout Resolution", "Shift+F10", "SPOUT_FIXEDSIZE")]

  const WINDOW_11: seq<CommandOption> := [
    CommandOption("Toggle Network Server", "Ctrl+Shift+N", "NETWORK_SERVER")]

  const WINDOW_12: seq<CommandOption> := [
    CommandOption("Network Server Status", "Ctrl+N", "NETWORK_SERVER_STATUS")]

  const WINDOW_13: seq<CommandOption> := [
    CommandOption("Stretch All Monitors", "Alt+S", "STRETCH_MONITORS"),
    CommandOption("Reset Window", "Ctrl+F2", "WINDOW_RESET")]

  const WINDOW_14: seq<CommandOption> := [
    CommandOption("Fixed Window Size", "Shift+Ctrl+F2", "WINDOW_FIXED_SIZE")]

  const WINDOW_15: seq<CommandOption> := [
    CommandOption("Opacity +5%", "Shift+Wheel Up", "OPACITY_UP"),
    CommandOption("Opacity -5%", "Shift+Wheel Down", "OPACITY_DOWN")]

  const DISPLAY_1: seq<CommandOption> := [
    CommandOption("Help", "F1", "SEND=0x70"),
    CommandOption("Transparency Mode", "F12", "SEND=0x7B"),
    CommandOption("Change FPS", "F3", "SEND=0x72")]

  const DISPLAY_2: seq<CommandOption> := [
    CommandOption("Preset Info", "F4", "SEND=0x73"),
    CommandOption("Preset Info on Change", "Ctrl+F4", "PRESETINFO_ON_CHANGE")]

  const DISPLAY_3: seq<CommandOption> := [
    CommandOption("Flash Info", "Ctrl+Space", "FLASH_INFO"),
    CommandOption("Visual Version", "Ctrl+V", "CYCLE_VERSION")]

  const DISPLAY_4: seq<CommandOption> := [
    CommandOption("Invert Preset Output", "", "INVERT_PRESET"),
    CommandOption("Show FPS Setting", "Ctrl+F3", "SHOW_FPS_SETTING")]

  const DISPLAY_5: seq<CommandOption> := [
    CommandOption("Black Mode", "Ctrl+F12", "BLACKMODE"),
    CommandOption("Double Quality", "Ctrl+Q", "QUALITY_DOUBLE")]

  const DISPLAY_6: seq<CommandOption> := [
    CommandOption("Half Quality", "Shift+Ctrl+Q", "QUALITY_HALF"),
    CommandOption("Hue Shift +", "Ctrl+H", "HUE_SHIFT_UP")]

  const DISPLAY_7: seq<CommandOption> := [
    CommandOption("Hue Shift -", "Shift+Ctrl+H", "HUE_SHIFT_DOWN"),
    CommandOption("Mouse Interaction", "Ctrl+M", "MOUSE_INTERACTION")]

  const DISPLAY_8: seq<CommandOption> := [
    CommandOption("FPS Display", "F5", "SEND=0x74"),
    CommandOption("Rating Display", "F6", "SEND=0x75"),
    CommandOption("Hard Cut Mode", "F11", "SEND=0x7A")]

  const DISPLAY_9: seq<CommandOption> := [
    CommandOption("Per-Frame Monitor", "N", "SEND=0x4E"),
    CommandOption("Save Screenshot", "Ctrl+X", "CAPTURE")]

  const PRESETS_1: seq<CommandOption> := [
    CommandOption("Next Preset", "Space", "SEND=0x20"),
    CommandOption("Hard Cut to Next Preset", "H", "SEND=0x48")]

  const PRESETS_2: seq<CommandOption> := [
    CommandOption("Previous Preset", "Backspace", "SEND=0x08"),
    CommandOption("Preset Lock", "~", "SEND=~"),
    CommandOption("Random Order", "R", "SEND=0x52")]

  const PRESETS_3: seq<CommandOption> := [
    CommandOption("Quicksave", "Ctrl+S", "QUICKSAVE"),
    CommandOption("Quicksave 2", "Ctrl+Shift+S", "QUICKSAVE2")]

  const PRESETS_4: seq<CommandOption> := [
    CommandOption("Preset Change with Song", "Ctrl+A", "PRESET_CHANGE_WITH_SONG")]

  const TRACK_1: seq<CommandOption> := [
    CommandOption("Previous Track", "Z", "SEND=0x5A"),
    CommandOption("Next Track", "V", "SEND=0x56"),
    CommandOption("Play/Pause", "X", "SEND=0x58"),
    CommandOption("Stop", "C", "SEND=0x43")]

  const TRACK_2: seq<CommandOption> := [
    CommandOption("Track Info", "B", "SEND=0x42"),
    CommandOption("Song Info Polling", "Ctrl+B", "SONGINFO_POLLING")]

  const TRACK_3: seq<CommandOption> := [
    CommandOption("Cover Display", "Ctrl+C", "DISPLAY_COVER"),
    CommandOption("Toggle Lyrics", "Ctrl+L", "LYRICS_ACTIVE")]

  const TRACK_4: seq<CommandOption> := [
    CommandOption("Set Default Audio Device", "Ctrl+D", "AUDIO_DEVICE_DEFAULT")]

  const TRACK_5: seq<CommandOption> := [
    CommandOption("Show Audio Device", "Shift+Ctrl+D", "AUDIO_DEVICE_INFO")]

  const SPRITES_1: seq<CommandOption> := [
    CommandOption("Sprite/Msg Mode", "K", "SEND=0x4B"),
    CommandOption("Clear Sprite/Msg", "Delete", "SEND=0x2E")]

  const SPRITES_2: seq<CommandOption> := [
    CommandOption("Clear all Sprites", "Ctrl+K", "CLEARSPRITES"),
    CommandOption("Clear Messages/Song Titles", "Ctrl+T", "CLEARTEXTS")]

  const SPRITES_3: seq<CommandOption> := [
    CommandOption("Reload Messages", "*", "SEND=*"),
    CommandOption("Sprite Kill Mode", "Shift+K", "SPRITE_KILL_MODE")]

  const SPRITES_4: seq<CommandOption> := [
    CommandOption("Clear Oldest Sprite", "Shift+Del", "CLEAR_OLDEST_SPRITE")]

  const SPRITES_5: seq<CommandOption> := [
    CommandOption("Delete All Sprites", "Shift+Ctrl+Del", "CLEAR_ALL_SPRITES_MESSAGES")]

  const WAVE_1: seq<CommandOption> := [
    CommandOption("Wave Echo Zoom +", "Q", "SEND=Q"),
    CommandOption("Wave Echo Zoom -", "q", "SEND=q"),
    CommandOption("Wave Mode +", "w", "SEND=w")]

  const WAVE_2: seq<CommandOption> := [
    CommandOption("Wave Mode -", "W", "SEND=W"),
    CommandOption("Wave Alpha +", "E", "SEND=E"),
    CommandOption("Wave Alpha -", "e", "SEND=e"),
    CommandOption("Warp Scale +", "U", "SEND=U")]

  const WAVE_3: seq<CommandOption> := [
    CommandOption("Warp Scale -", "u", "SEND=u"),
    CommandOption("Wave Zoom +", "i", "SEND=i"),
    CommandOption("Wave Zoom -", "I", "SEND=I"),
    CommandOption("Warp Amount +", "O", "SEND=O")]

  const WAVE_4: seq<CommandOption> := [
    CommandOption("Warp Amount -", "o", "SEND=o"),
    CommandOption("Video Echo Alpha +", "P", "SEND=P"),
    CommandOption("Video Echo Alpha -", "p", "SEND=p")]

  const WAVE_5: seq<CommandOption> := [
    CommandOption("Gamma +", "G", "SEND=G"),
    CommandOption("Gamma -", "g", "SEND=g"),
    CommandOption("Wave Scale +", "J", "SEND=J"),
    CommandOption("Wave Scale -", "j", "SEND=j")]

  const WAVE_6: seq<CommandOption> := [
    CommandOption("X Offset +", "]", "SEND=]"),
    CommandOption("X Offset -", "[", "SEND=["),
    CommandOption("Y Offset +", "}", "SEND=}"),
    CommandOption("Y Offset -", "{", "SEND={")]

  const WAVE_7: seq<CommandOption> := [
    CommandOption("Rotation +", "<", "SEND=<"),
    CommandOption("Rotation -", ">", "SEND=>")]

  const SHADER_1: seq<CommandOption> := [
    CommandOption("Random Mini-Mash-Up", "A", "SEND=0x41"),
    CommandOption("Toggle Shader Locks", "D", "SEND=0x44")]

  const SHADER_2: seq<CommandOption> := [
    CommandOption("Toggle Echo Orientation", "F", "SEND=0x46"),
    CommandOption("Randomize Warp Shader", "!", "SEND=!")]

  const SHADER_3: seq<CommandOption> := [
    CommandOption("Randomize Comp Shader", "@", "SEND=@")]

  /** CommandFunctionCatalog, in its order. No proof unfolds it: what is proved about assigning a function
      holds for every CommandOption, and this list shows that the shipped functions are such. */
  const CATALOG: seq<CommandOption> :=
    WINDOW_1 + WINDOW_2 + WINDOW_3 + WINDOW_4 + WINDOW_5 + WINDOW_6 + WINDOW_7 + WINDOW_8 +
    WINDOW_9 + WINDOW_10 + WINDOW_11 + WINDOW_12 + WINDOW_13 + WINDOW_14 + WINDOW_15 + DISPLAY_1 +
    DISPLAY_2 + DISPLAY_3 + DISPLAY_4 + DISPLAY_5 + DISPLAY_6 + DISPLAY_7 + DISPLAY_8 + DISPLAY_9 +
    PRESETS_1 + PRESETS_2 + PRESETS_3 + PRESETS_4 + TRACK_1 + TRACK_2 + TRACK_3 + TRACK_4 +
    TRACK_5 + SPRITES_1 + SPRITES_2 + SPRITES_3 + SPRITES_4 + SPRITES_5 + WAVE_1 + WAVE_2 +
    WAVE_3 + WAVE_4 + WAVE_5 + WAVE_6 + WAVE_7 + SHADER_1 + SHADER_2 + SHADER_3

  /** A button as the program ships it; some have a right-click function. */
  datatype DefaultButton = DefaultButton(left: CommandOption, right: Option<CommandOption>)

  const DEFAULTS_1: seq<DefaultButton> := [
    DefaultButton(CommandOption("Next Preset", "Space", "SEND=0x20"), None),
    DefaultButton(CommandOption("Previous Preset", "Backspace", "SEND=0x08"), None),
    DefaultButton(CommandOption("Sound Info", "N", "SEND=0x4E"), None)]

  const DEFAULTS_2: seq<DefaultButton> := [
    DefaultButton(CommandOption("Song Info", "B", "SEND=0x42"), None),
    DefaultButton(CommandOption("Preset Lock", "~", "SEND=~"), None),
    DefaultButton(CommandOption("Borderless", "F2", "SEND=0x71"), None),
    DefaultButton(CommandOption("Change FPS", "F3", "SEND=0x72"), None)]

  const DEFAULTS_3: seq<DefaultButton> := [
    DefaultButton(CommandOption("Preset Info", "F4", "SEND=0x73"), None),
    DefaultButton(CommandOption("Always On Top", "F7", "SEND=0x76"), None),
    DefaultButton(CommandOption("Toggle Spout", "F10", "SEND=0x79"), None)]

  const DEFAULTS_4: seq<DefaultButton> := [
    DefaultButton(CommandOption("Fullscreen", "Alt+Enter", "SIGNAL|FULLSCREEN"),
                  Some(CommandOption("Borderless Fullscreen", "", "SIGNAL|BORDERLESS_FS")))]

  const DEFAULTS_5: seq<DefaultButton> := [
    DefaultButton(CommandOption("Sprite/Msg Mode", "K", "SEND=0x4B"), None)]

  const DEFAULTS_6: seq<DefaultButton> := [
    DefaultButton(CommandOption("Clear Sprite/Msg", "Delete", "SEND=0x2E"),
                  Some(CommandOption("Clear all Sprites", "", "CLEARSPRITES")))]

  const DEFAULTS_7: seq<DefaultButton> := [
    DefaultButton(CommandOption("Watermark Mode", "Ctrl+Shift+F9", "SIGNAL|WATERMARK"), None),
    DefaultButton(CommandOption("Desktop Mode", "Ctrl+F9", "SIGNAL|DESKTOP_MODE"), None)]

  const DEFAULT_BUTTONS: seq<DefaultButton> :=
    DEFAULTS_1 + DEFAULTS_2 + DEFAULTS_3 + DEFAULTS_4 + DEFAULTS_5 + DEFAULTS_6 + DEFAULTS_7
}
