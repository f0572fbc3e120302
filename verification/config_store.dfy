/** The persisted configuration of the terminal adapter: the settings record, the
    three option tables it indexes, the default computation and the flash slot. */
module ConfigStore {

  type uint8 = x: int | 0 <= x < 0x100
  type uint32 = x: int | 0 <= x < 0x1_0000_0000

  /** Validity tag stamped on every saved record. */
  const MAGIC: uint32 := 0x0123_afd3

  /** A video mode by its resolution; every mode in the table runs at 60 Hz. */
  datatype VgaMode = VgaMode(width: nat, height: nat)

  /** The USB keyboard translation tables the firmware carries. */
  datatype KeyTable = KeyTableUS | KeyTableGer

  const VgaModes: seq<VgaMode> :=
    [VgaMode(320, 240), VgaMode(400, 300), VgaMode(512, 384), VgaMode(640, 480),
     VgaMode(800, 600), VgaMode(1024, 768), VgaMode(640, 384)]

  const BaudRates: seq<nat> := [2400, 4800, 9600, 19200, 38400, 57600, 115200]

  const Keyboards: seq<KeyTable> := [KeyTableUS, KeyTableGer]

  /** The values main.cpp falls back to when the build does not define DEFAULT_VGA_MODE,
      PICO_DEFAULT_UART_BAUD_RATE or USB_DEFAULT_KEYTABLE. */
  const FallbackVgaMode := VgaMode(640, 480)
  const FallbackBaudRate: nat := 9600
  const FallbackKeyTable := KeyTableGer

  datatype Settings = Settings(
    magic: uint32,
    baudRateIdx: uint8,
    vgaModeIdx: uint8,
    keyboardIdx: uint8,
    enableMouse: bool,
    autoWrap: bool,
    applicationMode: bool,
    utf8Mode: bool,
    c1Codes8bit: bool,
    newlineMode: bool,
    localEcho: bool,
    sgrCumulative: bool,
    logUnhandled: bool)

  /** The record as its member initialisers leave it: every byte 0xff, so every flag reads as set. */
  const Erased := Settings(0xffff_ffff, 0xff, 0xff, 0xff, true, true, true, true, true, true, true, true, true)

  /** Every index selects an entry of its table. */
  predicate IndicesInRange(s: Settings) {
    s.baudRateIdx < |BaudRates| && s.vgaModeIdx < |VgaModes| && s.keyboardIdx < |Keyboards|
  }

  /** The compile-time defaults read_settings falls back to: the video mode, baud rate and
      keyboard table it searches its tables for, and the eight terminal flags (ANSITERM_DEFAULT_*). */
  datatype BuildDefaults = BuildDefaults(
    vgaMode: VgaMode,
    baudRate: nat,
    keyTable: KeyTable,
    autoWrap: bool,
    applicationMode: bool,
    utf8Mode: bool,
    c1Codes8bit: bool,
    newlineMode: bool,
    localEcho: bool,
    sgrCumulative: bool,
    logUnhandled: bool)

  /** The index a backwards search of `table` for `want` stops at: the last
      matching entry, or 0 when no entry matches. */
  function LastIndexOf<T(==)>(table: seq<T>, want: T): (idx: nat)
    ensures |table| > 0 ==> idx < |table|
    ensures want in table ==> table[idx] == want && forall k :: idx < k < |table| ==> table[k] != want
    ensures want !in table ==> idx == 0
    decreases |table|
  {
    if |table| == 0 then 0
    else if table[|table| - 1] == want then |table| - 1
    else LastIndexOf(table[..|table| - 1], want)
  }

  /** The backwards linear search of read_settings: decrement the counter, compare,
      stop at a match or when the counter reaches 0. */
  method FindLast<T(==)>(table: seq<T>, want: T) returns (idx: nat)
    ensures idx == LastIndexOf(table, want)
  {
    idx := |table|;
    while idx > 0
      invariant idx <= |table|
      invariant forall k :: idx <= k < |table| ==> table[k] != want
    {
      idx := idx - 1;
      if table[idx] == want {
        return;
      }
    }
  }

  /** The record read_settings builds when the flash slot is not tagged. The tag
      itself is left as it was read: only saving stamps it. */
  function Defaults(magic: uint32, d: BuildDefaults): (s: Settings)
    ensures IndicesInRange(s)
    ensures d.vgaMode in VgaModes ==> VgaModes[s.vgaModeIdx] == d.vgaMode
    ensures d.vgaMode !in VgaModes ==> s.vgaModeIdx == 0
    ensures d.baudRate in BaudRates ==> BaudRates[s.baudRateIdx] == d.baudRate
    ensures d.baudRate !in BaudRates ==> s.baudRateIdx == 0
    ensures d.keyTable in Keyboards ==> Keyboards[s.keyboardIdx] == d.keyTable
    ensures d.keyTable !in Keyboards ==> s.keyboardIdx == 0
    ensures s.magic == magic && !s.enableMouse
    ensures s.autoWrap == d.autoWrap && s.applicationMode == d.applicationMode && s.utf8Mode == d.utf8Mode
    ensures s.c1Codes8bit == d.c1Codes8bit && s.newlineMode == d.newlineMode && s.localEcho == d.localEcho
    ensures s.sgrCumulative == d.sgrCumulative && s.logUnhandled == d.logUnhandled
  {
    Settings(magic,
      LastIndexOf(BaudRates, d.baudRate),
      LastIndexOf(VgaModes, d.vgaMode),
      LastIndexOf(Keyboards, d.keyTable),
      false, d.autoWrap, d.applicationMode, d.utf8Mode, d.c1Codes8bit,
      d.newlineMode, d.localEcho, d.sgrCumulative, d.logUnhandled)
  }

  /** What read_settings leaves in the live settings for a given flash slot. */
  function Load(flash: Settings, d: BuildDefaults): Settings {
    if flash.magic == MAGIC then flash else Defaults(flash.magic, d)
  }

  /** The record write_settings stores. */
  function Stamp(s: Settings): Settings {
    s.(magic := MAGIC)
  }

  /** A tagged slot is loaded as it is; an untagged one is replaced by the defaults entirely. */
  lemma LoadKeepsTaggedRecord(flash: Settings, d: BuildDefaults)
    ensures flash.magic == MAGIC ==> Load(flash, d) == flash
    ensures flash.magic != MAGIC ==> Load(flash, d) == Defaults(flash.magic, d)
    ensures IndicesInRange(Load(flash, d)) <==> (flash.magic != MAGIC || IndicesInRange(flash))
  {
  }

  /** Saving then loading gives back exactly the saved record, and saving twice stores
      the same record as saving once. */
  lemma SaveLoadRoundTrip(s: Settings, d: BuildDefaults)
    ensures Load(Stamp(s), d) == Stamp(s)
    ensures Stamp(Stamp(s)) == Stamp(s)
  {
  }

  /** The build leaves the three searched-for values at main.cpp's fallbacks. */
  predicate UsesFallbacks(d: BuildDefaults) {
    d.vgaMode == FallbackVgaMode && d.baudRate == FallbackBaudRate && d.keyTable == FallbackKeyTable
  }

  /** A fresh device (erased flash) built with the fallbacks boots with 640x480, 9600 baud
      and the German table, and the terminal flags as configured. */
  lemma {:induction false} ErasedFlashLoadsDefaults(d: BuildDefaults)
    requires UsesFallbacks(d)
    ensures var s := Load(Erased, d);
      && s.vgaModeIdx == 3 && s.baudRateIdx == 2 && s.keyboardIdx == 1
      && !s.enableMouse && s.autoWrap == d.autoWrap && s.applicationMode == d.applicationMode
      && s.utf8Mode == d.utf8Mode && s.c1Codes8bit == d.c1Codes8bit && s.newlineMode == d.newlineMode
      && s.localEcho == d.localEcho && s.sgrCumulative == d.sgrCumulative && s.logUnhandled == d.logUnhandled
  {
    var s := Load(Erased, d);
    assert VgaModes[3] == FallbackVgaMode;
    assert BaudRates[2] == FallbackBaudRate;
    assert Keyboards[1] == FallbackKeyTable;
  }

  /** A build whose SDK sets the UART default to 115200 baud selects the last baud entry
      instead; a baud rate missing from the table selects the first. */
  lemma {:induction false} ErasedFlashBaudFollowsBuild(d: BuildDefaults)
    ensures d.baudRate == 115200 ==> Load(Erased, d).baudRateIdx == 6
    ensures d.baudRate !in BaudRates ==> Load(Erased, d).baudRateIdx == 0
  {
    assert BaudRates[6] == 115200;
  }

  /** The two process-wide records of the firmware and the hot-key flag the USB layer raises. */
  class Device {
    /** The live settings every session reads. */
    var settings: Settings
    /** The flash slot. */
    var flash: Settings
    /** Raised by the USB layer when ctrl-alt-del is pressed; cleared by the supervisor. */
    var ctrlAltDel: bool

    constructor ()
      ensures settings == Erased && flash == Erased && !ctrlAltDel
    {
      settings := Erased;
      flash := Erased;
      ctrlAltDel := false;
    }

    /** Copies the flash slot into the live settings, recomputing the defaults when it is not tagged. */
    method ReadSettings(d: BuildDefaults)
      modifies this`settings
      ensures settings == Load(flash, d)
      ensures flash.magic != MAGIC ==> IndicesInRange(settings)
    {
      settings := flash;
      if settings.magic == MAGIC {
        return;
      }
      var kbdIdx := FindLast(Keyboards, d.keyTable);
      var baudIdx := FindLast(BaudRates, d.baudRate);
      var vgaIdx := FindLast(VgaModes, d.vgaMode);
      settings := settings.(
        baudRateIdx := baudIdx, vgaModeIdx := vgaIdx, keyboardIdx := kbdIdx,
        enableMouse := false, autoWrap := d.autoWrap, applicationMode := d.applicationMode,
        utf8Mode := d.utf8Mode, c1Codes8bit := d.c1Codes8bit, newlineMode := d.newlineMode,
        localEcho := d.localEcho, sgrCumulative := d.sgrCumulative, logUnhandled := d.logUnhandled);
    }

    /** Stamps the tag on the live settings and copies them to the flash slot. */
    method WriteSettings()
      modifies this`settings, this`flash
      ensures settings == Stamp(old(settings)) && flash == settings
    {
      settings := settings.(magic := MAGIC);
      flash := settings;
    }
  }

  /** Saving, loading and saving again leaves the slot as the first save did. */
  method SaveTwice(dev: Device, d: BuildDefaults)
    modifies dev`settings, dev`flash
    ensures dev.flash == Stamp(old(dev.settings)) && dev.settings == dev.flash
  {
    dev.WriteSettings();
    ghost var once := dev.flash;
    dev.ReadSettings(d);
    SaveLoadRoundTrip(old(dev.settings), d);
    dev.WriteSettings();
    assert dev.flash == once;
  }
}
