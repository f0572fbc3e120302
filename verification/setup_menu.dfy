/** The on-screen setup menu: a working copy of the settings edited row by row,
    committed to the live settings by "save" (which also writes flash) or "exit". */
module SetupMenu {
  import opened ConfigStore
  import opened KeyInput

  const FirstRow := 5
  const LastRow := 19
  const InfoRow := 5
  const VgaRow := 6
  const BaudRow := 7
  const KeyboardRow := 8
  const SaveRow := 18
  const ExitRow := 19

  /** The menu's state: the working copy `s`, the live settings, the flash slot, the
      cursor row, whether the system info screen is showing, the hot-key flag, and
      whether the menu has returned. */
  datatype Menu = Menu(s: Settings, live: Settings, flash: Settings, row: int, info: bool, hot: bool, done: bool)

  /** The menu as it is entered: the working copy is the live settings, the cursor on the first row. */
  function Start(live: Settings, flash: Settings, hot: bool): Menu {
    Menu(live, live, flash, FirstRow, false, hot, false)
  }

  ghost predicate Valid(m: Menu) {
    && FirstRow <= m.row <= LastRow
    && (m.info ==> m.row == InfoRow)
    && IndicesInRange(m.s)
    && IndicesInRange(m.live)
  }

  predicate IsIndexRow(row: int) {
    VgaRow <= row <= KeyboardRow
  }

  predicate IsFlagRow(row: int) {
    9 <= row <= 17
  }

  /** The length of the table an index row selects from. */
  function TableLength(row: int): nat
    requires IsIndexRow(row)
  {
    if row == VgaRow then |VgaModes| else if row == BaudRow then |BaudRates| else |Keyboards|
  }

  /** The index shown on an index row. */
  function Index(s: Settings, row: int): nat
    requires IsIndexRow(row)
  {
    if row == VgaRow then s.vgaModeIdx else if row == BaudRow then s.baudRateIdx else s.keyboardIdx
  }

  /** The flag shown on a flag row, in screen order. */
  function Flag(s: Settings, row: int): bool
    requires IsFlagRow(row)
  {
    match row
    case 9 => s.enableMouse
    case 10 => s.utf8Mode
    case 11 => s.c1Codes8bit
    case 12 => s.newlineMode
    case 13 => s.autoWrap
    case 14 => s.applicationMode
    case 15 => s.localEcho
    case 16 => s.sgrCumulative
    case _ => s.logUnhandled
  }

  /** Cursor left: decrements the index of an index row modulo its table length
      (written `(i + length - 1) % length` so that it never goes below 0). */
  function StepBack(s: Settings, row: int): Settings {
    s.(vgaModeIdx := if row == VgaRow then (s.vgaModeIdx + |VgaModes| - 1) % |VgaModes| else s.vgaModeIdx,
       baudRateIdx := if row == BaudRow then (s.baudRateIdx + |BaudRates| - 1) % |BaudRates| else s.baudRateIdx,
       keyboardIdx := if row == KeyboardRow then (s.keyboardIdx + |Keyboards| - 1) % |Keyboards| else s.keyboardIdx)
  }

  /** Space, enter or cursor right on an index row: advances its index modulo the table length. */
  function Advance(s: Settings, row: int): Settings {
    s.(vgaModeIdx := if row == VgaRow then (s.vgaModeIdx + 1) % |VgaModes| else s.vgaModeIdx,
       baudRateIdx := if row == BaudRow then (s.baudRateIdx + 1) % |BaudRates| else s.baudRateIdx,
       keyboardIdx := if row == KeyboardRow then (s.keyboardIdx + 1) % |Keyboards| else s.keyboardIdx)
  }

  /** Space, enter or cursor right on a flag row: flips the flag of that row. */
  function Toggle(s: Settings, row: int): Settings {
    s.(enableMouse := if row == 9 then !s.enableMouse else s.enableMouse,
       utf8Mode := if row == 10 then !s.utf8Mode else s.utf8Mode,
       c1Codes8bit := if row == 11 then !s.c1Codes8bit else s.c1Codes8bit,
       newlineMode := if row == 12 then !s.newlineMode else s.newlineMode,
       autoWrap := if row == 13 then !s.autoWrap else s.autoWrap,
       applicationMode := if row == 14 then !s.applicationMode else s.applicationMode,
       localEcho := if row == 15 then !s.localEcho else s.localEcho,
       sgrCumulative := if row == 16 then !s.sgrCumulative else s.sgrCumulative,
       logUnhandled := if row == 17 then !s.logUnhandled else s.logUnhandled)
  }

  /** Space, enter or cursor right on the selected row. */
  function ActivateRow(m: Menu): Menu {
    if m.row == InfoRow then m.(info := true)
    else if IsIndexRow(m.row) then m.(s := Advance(m.s, m.row))
    else if IsFlagRow(m.row) then m.(s := Toggle(m.s, m.row))
    else if m.row == SaveRow then m.(live := Stamp(m.s), flash := Stamp(m.s))
    else if m.row == ExitRow then m.(live := m.s, done := true)
    else m
  }

  /** One key while the menu is waiting for input. */
  function Step(m: Menu, k: Key): Menu {
    if m.info then
      // the info screen takes any key, then the menu is redrawn with the cursor on the first row;
      // its wait loop does not look at the hot-key flag, which stays raised
      if k == CtrlAltDel then m.(hot := true) else m.(info := false, row := FirstRow)
    else
      match k
      case CtrlAltDel => m.(hot := true)
      case Up => m.(row := if m.row == FirstRow then LastRow else m.row - 1)
      case Down => m.(row := if m.row == LastRow then FirstRow else m.row + 1)
      case Left => m.(s := StepBack(m.s, m.row))
      case Right => ActivateRow(m)
      case Activate => ActivateRow(m)
      case EscEsc => m.(done := true)
      case Other => m
  }

  /** The menu fed a sequence of keys. Before each key the menu's wait loop checks
      the hot-key flag and returns when it is raised. */
  function Run(m: Menu, keys: seq<Key>): Menu
    decreases |keys|
  {
    if m.done then m
    else if m.hot && !m.info then m.(done := true)
    else if keys == [] then m
    else Run(Step(m, keys[0]), keys[1..])
  }

  /** Right arrow and the activation keys (space, enter) do the same thing on every row. */
  lemma RightActsAsActivate(m: Menu)
    ensures Step(m, Right) == Step(m, Activate)
    ensures !m.info ==> Step(m, Right) == ActivateRow(m)
  {
  }

  /** Left and advance keep an index row's index inside its table. */
  lemma AdvanceInRange(s: Settings, row: int)
    requires IndicesInRange(s) && IsIndexRow(row)
    ensures IndicesInRange(Advance(s, row)) && IndicesInRange(StepBack(s, row))
  {
  }

  /** Advance undoes left. */
  lemma AdvanceUndoesStepBack(s: Settings, row: int)
    requires IndicesInRange(s) && IsIndexRow(row)
    ensures Advance(StepBack(s, row), row) == s
  {
  }

  /** Left undoes advance. */
  lemma StepBackUndoesAdvance(s: Settings, row: int)
    requires IndicesInRange(s) && IsIndexRow(row)
    ensures StepBack(Advance(s, row), row) == s
  {
  }

  /** On an index row, left and advance keep the index below its table length and
      undo each other. Proved from the three lemmas above so that each proof obligation
      stays small. */
  lemma AdvanceStepBackInverse(s: Settings, row: int)
    requires IndicesInRange(s) && IsIndexRow(row)
    ensures IndicesInRange(Advance(s, row)) && IndicesInRange(StepBack(s, row))
    ensures Advance(StepBack(s, row), row) == s && StepBack(Advance(s, row), row) == s
  {
    AdvanceInRange(s, row);
    AdvanceUndoesStepBack(s, row);
    StepBackUndoesAdvance(s, row);
  }

  /** A valid menu stays valid whatever key arrives: the cursor stays on rows 5 to 19
      and every index keeps selecting an entry of its table. */
  lemma StepKeepsValid(m: Menu, k: Key)
    requires Valid(m)
    ensures Valid(Step(m, k))
  {
    if !m.info && IsIndexRow(m.row) {
      AdvanceStepBackInverse(m.s, m.row);
    }
  }

  lemma {:induction false} RunKeepsValid(m: Menu, keys: seq<Key>)
    requires Valid(m)
    ensures Valid(Run(m, keys))
    decreases |keys|
  {
    if !m.done && !(m.hot && !m.info) && keys != [] {
      StepKeepsValid(m, keys[0]);
      RunKeepsValid(Step(m, keys[0]), keys[1..]);
    }
  }

  /** Up from the first row goes to the last, down from the last to the first, and
      down undoes up and up undoes down. */
  lemma CursorWraps(m: Menu)
    requires Valid(m) && !m.info
    ensures m.row == FirstRow ==> Step(m, Up).row == LastRow
    ensures m.row == LastRow ==> Step(m, Down).row == FirstRow
    ensures m.row != FirstRow ==> Step(m, Up).row == m.row - 1
    ensures m.row != LastRow ==> Step(m, Down).row == m.row + 1
    ensures Step(Step(m, Up), Down) == m && Step(Step(m, Down), Up) == m
  {
  }

  function Repeat(k: Key, n: nat): (keys: seq<Key>)
    ensures |keys| == n && forall i :: 0 <= i < n ==> keys[i] == k
  {
    if n == 0 then [] else [k] + Repeat(k, n - 1)
  }

  /** n presses of cursor down move the cursor n rows further round the fifteen rows
      and change nothing else. */
  lemma {:induction false} DownsCycle(m: Menu, n: nat)
    requires Valid(m) && !m.info && !m.hot && !m.done
    ensures Run(m, Repeat(Down, n)) == m.(row := FirstRow + (m.row - FirstRow + n) % 15)
    decreases n
  {
    if n > 0 {
      var m' := Step(m, Down);
      assert m'.row - FirstRow == (m.row - FirstRow + 1) % 15;
      assert Repeat(Down, n)[1..] == Repeat(Down, n - 1);
      DownsCycle(m', n - 1);
      ModShift(m.row - FirstRow, n);
    }
  }

  /** ((r + 1) % 15 + n - 1) % 15 == (r + n) % 15 for a row offset r. */
  lemma ModShift(r: int, n: nat)
    requires 0 <= r < 15 && n > 0
    ensures ((r + 1) % 15 + n - 1) % 15 == (r + n) % 15
  {
    if r + 1 == 15 {
      assert (r + 1) % 15 == 0;
      assert (n - 1) % 15 == (15 + n - 1) % 15;
    }
  }

  /** Left on an index row decrements its index, from 0 to the last entry. */
  lemma StepBackDecrements(s: Settings, row: int)
    requires IndicesInRange(s) && IsIndexRow(row)
    ensures Index(StepBack(s, row), row) == if Index(s, row) == 0 then TableLength(row) - 1 else Index(s, row) - 1
  {
  }

  /** Activating an index row advances its index, from the last entry to 0. */
  lemma AdvanceIncrements(s: Settings, row: int)
    requires IndicesInRange(s) && IsIndexRow(row)
    ensures Index(Advance(s, row), row) == if Index(s, row) == TableLength(row) - 1 then 0 else Index(s, row) + 1
  {
  }

  /** Left on an index row decrements its index modulo the table length (0 wraps to
      the last entry); activating advances it (the last entry wraps to 0); each undoes
      the other; neither touches the live settings or flash. */
  lemma {:induction false} IndexRowEditing(m: Menu)
    requires Valid(m) && !m.info && IsIndexRow(m.row)
    ensures var back := Step(m, Left); var fwd := Step(m, Activate);
      && Index(back.s, m.row) == (if Index(m.s, m.row) == 0 then TableLength(m.row) - 1 else Index(m.s, m.row) - 1)
      && Index(fwd.s, m.row) == (if Index(m.s, m.row) == TableLength(m.row) - 1 then 0 else Index(m.s, m.row) + 1)
      && Index(back.s, m.row) < TableLength(m.row) && Index(fwd.s, m.row) < TableLength(m.row)
      && Step(back, Activate) == m && Step(fwd, Left) == m
      && back.live == m.live && back.flash == m.flash && fwd.live == m.live && fwd.flash == m.flash
  {
    AdvanceStepBackInverse(m.s, m.row);
    StepBackDecrements(m.s, m.row);
    AdvanceIncrements(m.s, m.row);
  }

  /** Left on a row that is not an index row changes nothing. */
  lemma LeftIgnoresOtherRows(m: Menu)
    requires !m.info && !IsIndexRow(m.row)
    ensures Step(m, Left) == m
  {
  }

  /** Toggling a flag row flips that row's flag. */
  lemma ToggleFlipsFlag(s: Settings, row: int)
    requires IsFlagRow(row)
    ensures Flag(Toggle(s, row), row) == !Flag(s, row)
  {
  }

  /** Toggling a flag row leaves the flag of every other row alone. */
  lemma ToggleKeepsFlag(s: Settings, row: int, j: int)
    requires IsFlagRow(row) && IsFlagRow(j) && j != row
    ensures Flag(Toggle(s, row), j) == Flag(s, j)
  {
  }

  /** Toggling the same row twice restores the record. */
  lemma ToggleInvolution(s: Settings, row: int)
    ensures Toggle(Toggle(s, row), row) == s
  {
  }

  /** Toggling a flag row flips exactly that row's flag: every other flag, every
      index and the tag stay as they were, and toggling again restores the record. */
  lemma ToggleFlipsOne(s: Settings, row: int)
    requires IsFlagRow(row)
    ensures var r := Toggle(s, row);
      && Flag(r, row) == !Flag(s, row)
      && (forall j :: IsFlagRow(j) && j != row ==> Flag(r, j) == Flag(s, j))
      && (forall j :: IsIndexRow(j) ==> Index(r, j) == Index(s, j))
      && r.magic == s.magic
      && Toggle(r, row) == s
  {
    // assembled from the three lemmas above so that each proof obligation stays small
    ToggleFlipsFlag(s, row);
    forall j | IsFlagRow(j) && j != row
      ensures Flag(Toggle(s, row), j) == Flag(s, j)
    {
      ToggleKeepsFlag(s, row, j);
    }
    ToggleInvolution(s, row);
  }

  /** Activating a flag row flips exactly that row's flag of the working copy; the
      live settings, the flash slot and the cursor stay as they were, and activating
      again restores the menu. */
  lemma {:induction false} ActivateTogglesOneFlag(m: Menu)
    requires Valid(m) && !m.info && IsFlagRow(m.row)
    ensures var r := Step(m, Activate);
      && Flag(r.s, m.row) == !Flag(m.s, m.row)
      && (forall j :: IsFlagRow(j) && j != m.row ==> Flag(r.s, j) == Flag(m.s, j))
      && (forall j :: IsIndexRow(j) ==> Index(r.s, j) == Index(m.s, j))
      && r.s.magic == m.s.magic
      && r.live == m.live && r.flash == m.flash && r.row == m.row && r.done == m.done
      && Step(r, Activate) == m
  {
    ToggleFlipsOne(m.s, m.row);
  }

  /** "save" makes the live settings and the flash slot the tagged working copy and
      keeps the menu open; what it stores loads back unchanged. */
  lemma SaveCommitsAndPersists(m: Menu, d: BuildDefaults)
    requires Valid(m) && !m.info && !m.done && m.row == SaveRow
    ensures var r := Step(m, Activate);
      && r.live == m.s.(magic := MAGIC) && r.flash == r.live
      && Load(r.flash, d) == r.live
      && r.s == m.s && r.row == SaveRow && !r.done && !r.info
  {
    SaveLoadRoundTrip(m.s, d);
  }

  /** "exit" makes the live settings the working copy without touching flash, and returns. */
  lemma ExitCommitsOnly(m: Menu)
    requires Valid(m) && !m.info && m.row == ExitRow
    ensures var r := Step(m, Activate);
      r.live == m.s && r.flash == m.flash && r.done
  {
  }

  /** ESC ESC returns leaving the live settings and flash as they were. */
  lemma EscEscLeavesLive(m: Menu, keys: seq<Key>)
    requires !m.info && !m.done && !m.hot
    ensures Run(m, [EscEsc] + keys) == m.(done := true)
  {
    assert ([EscEsc] + keys)[1..] == keys;
  }

  /** Keys other than space, enter and cursor right never change the live settings or flash. */
  lemma {:induction false} NoActivationNoCommit(m: Menu, keys: seq<Key>)
    requires forall i :: 0 <= i < |keys| ==> keys[i] != Activate && keys[i] != Right
    ensures Run(m, keys).live == m.live && Run(m, keys).flash == m.flash
    decreases |keys|
  {
    if !m.done && !(m.hot && !m.info) && keys != [] {
      NoActivationNoCommit(Step(m, keys[0]), keys[1..]);
    }
  }

  /** From the initial cursor row, three downs and a space advance the keyboard
      index and change nothing else. */
  lemma ThreeDownsThenSpace(live: Settings, flash: Settings)
    requires IndicesInRange(live)
    ensures Run(Start(live, flash, false), [Down, Down, Down, Activate])
         == Menu(live.(keyboardIdx := (live.keyboardIdx + 1) % |Keyboards|), live, flash, KeyboardRow, false, false, false)
  {
    var keys := [Down, Down, Down, Activate];
    assert keys[1..] == [Down, Down, Activate];
    assert keys[1..][1..] == [Down, Activate];
    assert keys[1..][1..][1..] == [Activate];
  }

  /** The marker printed beside an option row: green when the pending value agrees
      with the live one, red otherwise. */
  datatype Ink = Green | Red

  function Inked<T(==)>(a: T, b: T): Ink {
    if a == b then Green else Red
  }

  /** The marker of an option row, comparing the table entries (or flags) that the
      working copy and the live settings select. */
  function RowInk(s: Settings, live: Settings, row: int): Ink
    requires IndicesInRange(s) && IndicesInRange(live)
    requires IsIndexRow(row) || IsFlagRow(row)
  {
    if row == VgaRow then Inked(VgaModes[s.vgaModeIdx], VgaModes[live.vgaModeIdx])
    else if row == BaudRow then Inked(BaudRates[s.baudRateIdx], BaudRates[live.baudRateIdx])
    else if row == KeyboardRow then Inked(Keyboards[s.keyboardIdx], Keyboards[live.keyboardIdx])
    else Inked(Flag(s, row), Flag(live, row))
  }

  /** A row is green exactly when the working copy and the live settings hold the
      same index or flag for it (the tables hold no entry twice). */
  lemma InkedIffFieldAgrees(s: Settings, live: Settings, row: int)
    requires IndicesInRange(s) && IndicesInRange(live)
    requires IsIndexRow(row) || IsFlagRow(row)
    ensures RowInk(s, live, row) == Green <==>
      (if IsIndexRow(row) then Index(s, row) == Index(live, row) else Flag(s, row) == Flag(live, row))
  {
    if row == VgaRow {
      var i, j := s.vgaModeIdx, live.vgaModeIdx;
      assert VgaModes[i] == VgaModes[j] ==> i == j;
    }
  }

  /** All option rows green: the working copy agrees with the live settings in every field but the tag. */
  lemma AllGreenImpliesAgree(s: Settings, live: Settings)
    requires IndicesInRange(s) && IndicesInRange(live)
    requires forall row :: 6 <= row <= 17 ==> RowInk(s, live, row) == Green
    ensures s.(magic := live.magic) == live
  {
    InkedIffFieldAgrees(s, live, 6);
    InkedIffFieldAgrees(s, live, 7);
    InkedIffFieldAgrees(s, live, 8);
    InkedIffFieldAgrees(s, live, 9);
    InkedIffFieldAgrees(s, live, 10);
    InkedIffFieldAgrees(s, live, 11);
    InkedIffFieldAgrees(s, live, 12);
    InkedIffFieldAgrees(s, live, 13);
    InkedIffFieldAgrees(s, live, 14);
    InkedIffFieldAgrees(s, live, 15);
    InkedIffFieldAgrees(s, live, 16);
    InkedIffFieldAgrees(s, live, 17);
  }

  /** Working copy and live settings agreeing in every field but the tag: all option rows green. */
  lemma AgreeImpliesAllGreen(s: Settings, live: Settings)
    requires IndicesInRange(s) && IndicesInRange(live)
    requires s.(magic := live.magic) == live
    ensures forall row :: 6 <= row <= 17 ==> RowInk(s, live, row) == Green
  {
    forall row | 6 <= row <= 17
      ensures RowInk(s, live, row) == Green
    {
      InkedIffFieldAgrees(s, live, row);
    }
  }

  /** Every option row is green exactly when the working copy equals the live
      settings in every field but the tag. */
  lemma AllGreenIffPendingEqualsLive(s: Settings, live: Settings)
    requires IndicesInRange(s) && IndicesInRange(live)
    ensures (forall row :: 6 <= row <= 17 ==> RowInk(s, live, row) == Green) <==> s.(magic := live.magic) == live
  {
    if forall row :: 6 <= row <= 17 ==> RowInk(s, live, row) == Green {
      AllGreenImpliesAgree(s, live);
    }
    if s.(magic := live.magic) == live {
      AgreeImpliesAllGreen(s, live);
    }
  }

  /** The menu's input loop over a sequence of keys. Returns whether the menu left
      (by "exit", ESC ESC or the hot key); false when the keys ran out while it was
      still waiting. */
  method RunOsm(dev: Device, keys: seq<Key>) returns (finished: bool)
    modifies dev
    ensures var m := Run(Start(old(dev.settings), old(dev.flash), old(dev.ctrlAltDel)), keys);
      dev.settings == m.live && dev.flash == m.flash && dev.ctrlAltDel == m.hot && finished == m.done
  {
    var s := dev.settings;
    var row := FirstRow;
    var info := false;
    ghost var start := Start(dev.settings, dev.flash, dev.ctrlAltDel);
    var i := 0;
    while i < |keys|
      invariant i <= |keys|
      invariant Run(Menu(s, dev.settings, dev.flash, row, info, dev.ctrlAltDel, false), keys[i..]) == Run(start, keys)
    {
      if dev.ctrlAltDel && !info {
        return true;
      }
      ghost var before := Menu(s, dev.settings, dev.flash, row, info, dev.ctrlAltDel, false);
      assert keys[i..][1..] == keys[i + 1..];
      var k := keys[i];
      i := i + 1;
      if info {
        if k == CtrlAltDel {
          dev.ctrlAltDel := true;
        } else {
          info := false;
          row := FirstRow;
        }
      } else {
        match k
        case CtrlAltDel =>
          dev.ctrlAltDel := true;
        case EscEsc =>
          return true;
        case Up =>
          row := if row == FirstRow then LastRow else row - 1;
        case Down =>
          row := if row == LastRow then FirstRow else row + 1;
        case Left =>
          s := StepBack(s, row);
        case Other =>
        case Right | Activate =>
          if row == InfoRow {
            info := true;
          } else if IsIndexRow(row) {
            s := Advance(s, row);
          } else if IsFlagRow(row) {
            s := Toggle(s, row);
          } else if row == SaveRow {
            dev.settings := s;
            dev.WriteSettings();
          } else if row == ExitRow {
            dev.settings := s;
            return true;
          }
      }
      assert Menu(s, dev.settings, dev.flash, row, info, dev.ctrlAltDel, false) == Step(before, k);
    }
    finished := dev.ctrlAltDel && !info;
  }
}
